/**
 * Decimal numbers and separated fields as text, shared by the wire formats of app, server and load generator.
 */
module Text {
  import opened Options

  predicate IsDigit(c: char) { '0' <= c <= '9' }

  predicate IsSpace(c: char) { c == ' ' || '\t' <= c <= '\r' }

  predicate AllDigits(s: string) { forall i :: 0 <= i < |s| ==> IsDigit(s[i]) }

  function DigitOf(d: nat): (c: char)
    requires d < 10
    ensures IsDigit(c) && ValueOf(c) == d
  {
    ('0' as int + d) as char
  }

  function ValueOf(c: char): (d: nat)
    requires IsDigit(c)
    ensures d < 10
  {
    c as int - '0' as int
  }

  /** The number a string of digits stands for. */
  function Number(s: string): nat
    requires AllDigits(s)
  {
    if s == [] then 0 else 10 * Number(s[..|s| - 1]) + ValueOf(s[|s| - 1])
  }

  function Ten(n: nat): (t: nat)
    ensures t >= 1
  {
    if n == 0 then 1 else 10 * Ten(n - 1)
  }

  function Print(n: nat): string {
    if n < 10 then [DigitOf(n)] else Print(n / 10) + [DigitOf(n % 10)]
  }

  function PrintInt(z: int): string { if z < 0 then "-" + Print(-z) else Print(z) }

  /** The last d digits of n, and what is left of n without them. */
  function LastDigits(n: nat, d: nat): string {
    if d == 0 then [] else LastDigits(n / 10, d - 1) + [DigitOf(n % 10)]
  }

  function Without(n: nat, d: nat): nat { if d == 0 then n else Without(n / 10, d - 1) }

  /** printf's %.df of q / 10^d, for d >= 1. */
  function Fixed(q: int, d: nat): string {
    var a: nat := if q < 0 then -q else q;
    (if q < 0 then "-" else "") + Print(Without(a, d)) + "." + LastDigits(a, d)
  }

  lemma NumberSnoc(s: string, d: nat)
    requires AllDigits(s) && d < 10
    ensures AllDigits(s + [DigitOf(d)]) && Number(s + [DigitOf(d)]) == 10 * Number(s) + d
  {
    assert (s + [DigitOf(d)])[..|s|] == s;
  }

  lemma {:induction false} PrintNumber(n: nat)
    ensures |Print(n)| >= 1 && AllDigits(Print(n)) && Number(Print(n)) == n
  {
    hide DigitOf;
    if n >= 10 {
      PrintNumber(n / 10);
      NumberSnoc(Print(n / 10), n % 10);
    } else {
      NumberSnoc([], n);
      assert [] + [DigitOf(n)] == [DigitOf(n)];
    }
  }

  /** The printed parts of a fixed-point number are the digits of the number. */
  lemma {:induction false} FixedDigits(a: nat, d: nat)
    ensures AllDigits(LastDigits(a, d)) && |LastDigits(a, d)| == d
    ensures AllDigits(Print(Without(a, d))) && |Print(Without(a, d))| >= 1
    ensures Number(Print(Without(a, d)) + LastDigits(a, d)) == a
  {
    hide Print, Number, DigitOf;
    if d == 0 {
      PrintNumber(a);
      assert Print(a) + [] == Print(a);
    } else {
      FixedDigits(a / 10, d - 1);
      var whole, init, last := Print(Without(a, d)), LastDigits(a / 10, d - 1), DigitOf(a % 10);
      NumberSnoc(whole + init, a % 10);
      assert whole + LastDigits(a, d) == (whole + init) + [last];
    }
  }

  /** How many digits s starts with. */
  function Digits(s: string): (k: nat)
    ensures k <= |s| && AllDigits(s[..k]) && (k < |s| ==> !IsDigit(s[k]))
    ensures forall i :: 0 <= i < k ==> IsDigit(s[i])
  {
    if s == [] || !IsDigit(s[0]) then 0
    else
      var k := Digits(s[1..]);
      assert forall i :: 1 <= i < k + 1 ==> s[i] == s[1..][i - 1];
      k + 1
  }

  lemma DigitsOf(a: string, b: string)
    requires AllDigits(a) && (b == [] || !IsDigit(b[0]))
    ensures Digits(a + b) == |a|
  {
    assert forall i :: 0 <= i < |a| ==> (a + b)[i] == a[i];
    if b != [] { assert (a + b)[|a|] == b[0]; }
  }

  // ---------------------------------------------------------------- reading numbers

  /** std::from_chars in base ten: the leading digits (with a minus if signed), unless there are none or the value
      does not fit, in which case the variable keeps what it had. */
  function FromChars(s: string, signed: bool, lo: int, hi: int, before: int): int {
    if signed && s != [] && s[0] == '-' then FromDigits(s[1..], -1, lo, hi, before)
    else FromDigits(s, 1, lo, hi, before)
  }

  function FromDigits(s: string, sign: int, lo: int, hi: int, before: int): int {
    var k := Digits(s);
    var n: int := Number(s[..k]);
    var v := if sign < 0 then -n else n;
    if k > 0 && lo <= v <= hi then v else before
  }

  /** atof on decimal text: blanks, a sign, digits, a point, digits, an exponent; the value is exact. */
  function Atof(s: string): real {
    if s != [] && IsSpace(s[0]) then Atof(s[1..])
    else if s != [] && s[0] == '-' then -Decimal(s[1..])
    else if s != [] && s[0] == '+' then Decimal(s[1..])
    else Decimal(s)
  }

  /** The digits that s has after a point that follows its leading digits. */
  function Fraction(s: string): (f: string)
    ensures AllDigits(f) && Digits(s) + 1 + |f| <= |s| + 1
  {
    var k := Digits(s);
    if k < |s| && s[k] == '.' then s[k + 1..][..Digits(s[k + 1..])] else []
  }

  function MantissaLength(s: string): (m: nat)
    ensures m <= |s|
  {
    var k := Digits(s);
    if k < |s| && s[k] == '.' then k + 1 + |Fraction(s)| else k
  }

  function Mantissa(s: string): real {
    Number(s[..Digits(s)] + Fraction(s)) as real / Ten(|Fraction(s)|) as real
  }

  /** The length of an exponent at the start of s: a letter, perhaps a sign, and digits; 0 if there is none. */
  function ExponentLength(s: string): (n: nat)
    ensures n <= |s|
  {
    if s == [] || (s[0] != 'e' && s[0] != 'E') then 0
    else
      var signed := |s| > 1 && (s[1] == '-' || s[1] == '+');
      var start := if signed then 2 else 1;
      if Digits(s[start..]) == 0 then 0 else start + Digits(s[start..])
  }

  function Exponent(s: string): int {
    if ExponentLength(s) == 0 then 0
    else if s[1] == '-' then -(Number(s[2..][..Digits(s[2..])]) as int)
    else if s[1] == '+' then Number(s[2..][..Digits(s[2..])])
    else Number(s[1..][..Digits(s[1..])])
  }

  function Times10(x: real, e: int): real { if e >= 0 then x * Ten(e) as real else x / Ten(-e) as real }

  function Decimal(s: string): real { Times10(Mantissa(s), Exponent(s[MantissaLength(s)..])) }

  /** strtoull in base ten: blanks, a sign, the leading digits; too large a value becomes the largest, a negative
      one wraps round. */
  function Strtoull(s: string): nat {
    if s != [] && IsSpace(s[0]) then Strtoull(s[1..])
    else
      var signed := s != [] && (s[0] == '-' || s[0] == '+');
      var body := if signed then s[1..] else s;
      var v := Number(body[..Digits(body)]);
      if v > UINT64_MAX then UINT64_MAX
      else if signed && s[0] == '-' && v > 0 then UINT64_MAX + 1 - v else v
  }

  const UINT64_MAX: nat := 0xFFFF_FFFF_FFFF_FFFF
  const UINT32_MAX: nat := 0xFFFF_FFFF
  const INT32_MAX: nat := 0x7FFF_FFFF
  const INT32_MIN: int := -0x8000_0000

  lemma FromDigitsPrint(a: nat, tail: string, sign: int, lo: int, hi: int, before: int)
    requires lo <= (if sign < 0 then -(a as int) else a) <= hi && (tail == [] || !IsDigit(tail[0]))
    ensures FromDigits(Print(a) + tail, sign, lo, hi, before) == if sign < 0 then -(a as int) else a
  {
    hide Print, Number, Digits;
    PrintNumber(a);
    DigitsOf(Print(a), tail);
    assert (Print(a) + tail)[..|Print(a)|] == Print(a);
  }

  lemma FromCharsPrint(z: int, tail: string, signed: bool, lo: int, hi: int, before: int)
    requires lo <= z <= hi && (z >= 0 || signed) && (tail == [] || !IsDigit(tail[0]))
    ensures FromChars(PrintInt(z) + tail, signed, lo, hi, before) == z
  {
    hide Print, FromDigits;
    PrintNumber(if z < 0 then -z else z);
    if z < 0 {
      FromDigitsPrint(-z, tail, -1, lo, hi, before);
      assert PrintInt(z) + tail == "-" + (Print(-z) + tail);
      assert (PrintInt(z) + tail)[1..] == Print(-z) + tail;
    } else {
      FromDigitsPrint(z, tail, 1, lo, hi, before);
      assert IsDigit((Print(z) + tail)[0]);
    }
  }

  /** A number that does not fit, and text that is no number, leave the variable as it was. */
  lemma FromCharsRefuses(z: int, tail: string, signed: bool, lo: int, hi: int, before: int)
    requires !(lo <= z <= hi) && (tail == [] || !IsDigit(tail[0]))
    ensures z >= 0 || signed ==> FromChars(PrintInt(z) + tail, signed, lo, hi, before) == before
    ensures !signed || tail == [] || tail[0] != '-' ==> FromChars(tail, signed, lo, hi, before) == before
    ensures FromChars(['-'] + tail, signed, lo, hi, before) == before
  {
    hide Print, Number, Digits;
    DigitsOf([], tail);
    assert [] + tail == tail && (['-'] + tail)[1..] == tail;
    DigitsOf([], ['-'] + tail);
    assert [] + (['-'] + tail) == ['-'] + tail;
    var a: nat := if z < 0 then -z else z;
    PrintNumber(a);
    DigitsOf(Print(a), tail);
    assert (Print(a) + tail)[..|Print(a)|] == Print(a);
    if z < 0 {
      assert PrintInt(z) + tail == "-" + (Print(a) + tail);
      assert (PrintInt(z) + tail)[1..] == Print(a) + tail;
    } else {
      assert IsDigit((Print(a) + tail)[0]);
    }
  }

  lemma StrtoullPrint(n: nat, tail: string)
    requires n <= UINT64_MAX && (tail == [] || !IsDigit(tail[0]))
    ensures Strtoull(Print(n) + tail) == n
  {
    PrintNumber(n);
    DigitsOf(Print(n), tail);
    assert (Print(n) + tail)[..|Print(n)|] == Print(n);
    assert IsDigit(Print(n)[0]);
  }

  lemma Negated(x: real, t: real)
    requires t > 0.0
    ensures -(x / t) == (-x) / t
  {}

  lemma NegatedTimes10(x: real, e: int)
    ensures -Times10(x, e) == Times10(-x, e)
  {
    if e < 0 { Negated(x, Ten(-e) as real); }
  }

  /** The printed fixed-point number is found as the mantissa, whatever non-digit follows. */
  lemma MantissaFixed(a: nat, d: nat, tail: string)
    requires tail == [] || !IsDigit(tail[0])
    ensures var body := Print(Without(a, d)) + "." + LastDigits(a, d);
      && IsDigit(body[0]) && Digits(body + tail) > 0
      && MantissaLength(body + tail) == |body| && Mantissa(body + tail) == a as real / Ten(d) as real
  {
    hide Print, LastDigits, Without, Ten, Number, Digits, Mantissa, MantissaLength;
    var whole, fraction := Print(Without(a, d)), LastDigits(a, d);
    FixedDigits(a, d);
    DigitsCut(fraction, tail);
    MantissaOf(whole, fraction, fraction + tail);
    Regroup(whole, fraction, tail);
    assert (whole + "." + fraction)[0] == whole[0];
  }

  lemma Regroup(whole: string, fraction: string, tail: string)
    ensures whole + "." + fraction + tail == whole + ("." + (fraction + tail))
  {}

  lemma MantissaOf(whole: string, fraction: string, rest: string)
    requires AllDigits(whole) && AllDigits(fraction) && Digits(rest) == |fraction| && rest[..|fraction|] == fraction
    ensures var s := whole + ("." + rest);
      && Digits(s) == |whole| && MantissaLength(s) == |whole| + 1 + |fraction|
      && Mantissa(s) == Number(whole + fraction) as real / Ten(|fraction|) as real
  {
    hide Ten, Number, Digits, Fraction;
    FractionOf(whole, rest);
  }

  lemma FractionOf(whole: string, rest: string)
    requires AllDigits(whole)
    ensures var s := whole + ("." + rest);
      && Digits(s) == |whole| && s[..|whole|] == whole && Fraction(s) == rest[..Digits(rest)] && s[|whole|] == '.'
  {
    hide Digits;
    var s := whole + ("." + rest);
    DigitsCut(whole, "." + rest);
    assert s[|whole| + 1..] == rest;
  }

  lemma DigitsCut(a: string, b: string)
    requires AllDigits(a) && (b == [] || !IsDigit(b[0]))
    ensures Digits(a + b) == |a| && (a + b)[..|a|] == a
  {
    DigitsOf(a, b);
  }

  /** Reading back a fixed-point number, perhaps with an exponent behind it, gives exactly what was printed. */
  lemma AtofNumber(q: int, d: nat, tail: string)
    requires tail == [] || !IsDigit(tail[0])
    ensures Atof(Fixed(q, d) + tail) == Times10(q as real / Ten(d) as real, Exponent(tail))
  {
    hide Mantissa, MantissaLength, Exponent, Print, LastDigits, Without, Ten, Times10, Fixed;
    var a: nat := if q < 0 then -q else q;
    var body := Print(Without(a, d)) + "." + LastDigits(a, d);
    MantissaFixed(a, d, tail);
    FixedBody(q, d, tail);
    assert (body + tail)[|body|..] == tail;
    if q < 0 {
      Negated(a as real, Ten(d) as real);
      NegatedTimes10(a as real / Ten(d) as real, Exponent(tail));
    }
  }

  /** The sign and the rest of a printed fixed-point number. */
  lemma FixedBody(q: int, d: nat, tail: string)
    ensures var a: nat := if q < 0 then -q else q;
      var body := Print(Without(a, d)) + "." + LastDigits(a, d);
      var s := Fixed(q, d) + tail;
      && s != [] && (q < 0 ==> s[0] == '-' && s[1..] == body + tail) && (q >= 0 ==> s == body + tail && s[0] == body[0])
  {
    hide Print, LastDigits, Without;
  }

  lemma AtofFixed(q: int, d: nat)
    ensures Atof(Fixed(q, d)) == q as real / Ten(d) as real
  {
    hide Fixed, Atof;
    AtofNumber(q, d, []);
    assert Fixed(q, d) + [] == Fixed(q, d);
    NoExponent(q as real / Ten(d) as real);
  }

  lemma NoExponent(x: real)
    ensures Exponent([]) == 0 && ExponentLength([]) == 0 && Times10(x, 0) == x
  {}

  lemma ExponentPrinted(e: int)
    ensures var tail := "E" + PrintInt(e);
      Exponent(tail) == e && ExponentLength(tail) == |tail| && !IsDigit(tail[0])
  {
    hide Print, Number, Digits;
    var a: nat := if e < 0 then -e else e;
    PrintNumber(a);
    DigitsOf(Print(a), []);
    assert Print(a) + [] == Print(a) && Print(a)[..|Print(a)|] == Print(a);
    var tail := "E" + PrintInt(e);
    if e < 0 {
      assert tail[2..] == Print(a) && tail[1] == '-';
    } else {
      assert tail[1..] == Print(a) && IsDigit(tail[1]) && tail[1] == Print(a)[0];
    }
  }

  /** What Double.toString gives: a plain decimal number, or one with a power of ten. */
  datatype DoubleText = Plain(q: int, d: nat) | Scientific(q: int, d: nat, e: int)

  function PrintDouble(x: DoubleText): string {
    match x
    case Plain(q, d) => Fixed(q, d)
    case Scientific(q, d, e) => Fixed(q, d) + ("E" + PrintInt(e))
  }

  function DoubleValue(x: DoubleText): real {
    match x
    case Plain(q, d) => q as real / Ten(d) as real
    case Scientific(q, d, e) => Times10(q as real / Ten(d) as real, e)
  }

  /** Reading back a printed double, in either notation, gives exactly the number that its text denotes. */
  lemma AtofDouble(x: DoubleText)
    ensures Atof(PrintDouble(x)) == DoubleValue(x)
  {
    hide Fixed, Atof, PrintInt, Exponent, Times10;
    match x
    case Plain(q, d) => AtofFixed(q, d);
    case Scientific(q, d, e) =>
      ExponentPrinted(e);
      AtofNumber(q, d, "E" + PrintInt(e));
  }

  // ---------------------------------------------------------------- fields

  /** The first place of c in s; the length of s when there is none. */
  function IndexOf(s: string, c: char): (k: nat)
    ensures k <= |s| && (k < |s| ==> s[k] == c) && forall i :: 0 <= i < k ==> s[i] != c
  {
    if s == [] || s[0] == c then 0 else 1 + IndexOf(s[1..], c)
  }

  function Split(s: string, sep: char): (parts: seq<string>)
    ensures |parts| >= 1
    decreases |s|
  {
    var k := IndexOf(s, sep);
    if k == |s| then [s] else [s[..k]] + Split(s[k + 1..], sep)
  }

  lemma IndexOfCut(key: string, c: char, val: string)
    requires c !in key
    ensures var s := key + [c] + val;
      IndexOf(s, c) == |key| && s[..|key|] == key && s[|key| + 1..] == val
  {
    var s := key + [c] + val;
    assert s[|key|] == c;
    assert forall i :: 0 <= i < |key| ==> s[i] == key[i] && key[i] in key;
  }

  lemma SplitCons(a: string, sep: char, rest: string)
    requires sep !in a
    ensures Split(a + [sep] + rest, sep) == [a] + Split(rest, sep)
  {
    hide IndexOf;
    IndexOfCut(a, sep, rest);
  }

  lemma SplitNone(a: string, sep: char)
    requires sep !in a
    ensures Split(a, sep) == [a]
  {
    assert forall i :: 0 <= i < |a| ==> a[i] in a;
  }

  /** One more separator and field at the end. */
  lemma {:induction false} SplitSnoc(s: string, sep: char, field: string)
    requires sep !in field
    ensures Split(s + [sep] + field, sep) == Split(s, sep) + [field]
    decreases |s|
  {
    var k := IndexOf(s, sep);
    if k == |s| {
      assert forall i :: 0 <= i < |s| ==> s[i] != sep;
      SplitCons(s, sep, field);
      SplitNone(field, sep);
    } else {
      assert s == s[..k] + [sep] + s[k + 1..];
      assert s + [sep] + field == s[..k] + [sep] + (s[k + 1..] + [sep] + field);
      SplitCons(s[..k], sep, s[k + 1..] + [sep] + field);
      SplitSnoc(s[k + 1..], sep, field);
    }
  }

  function Join(parts: seq<string>, sep: char): string
    requires |parts| >= 1
  {
    if |parts| == 1 then parts[0] else parts[0] + [sep] + Join(parts[1..], sep)
  }

  lemma {:induction false} SplitJoin(parts: seq<string>, sep: char)
    requires |parts| >= 1 && forall i :: 0 <= i < |parts| ==> sep !in parts[i]
    ensures Split(Join(parts, sep), sep) == parts
  {
    if |parts| == 1 {
      SplitNone(parts[0], sep);
    } else {
      assert forall i :: 0 <= i < |parts[1..]| ==> parts[1..][i] == parts[i + 1];
      SplitJoin(parts[1..], sep);
      SplitCons(parts[0], sep, Join(parts[1..], sep));
    }
  }

  /** Only the characters of printed numbers. */
  predicate Numeric(s: string) { forall i :: 0 <= i < |s| ==> IsDigit(s[i]) || s[i] == '-' || s[i] == '.' }

  lemma PrintedIsNumeric(z: int, d: nat)
    ensures Numeric(PrintInt(z)) && |PrintInt(z)| >= 1 && Numeric(Fixed(z, d)) && |Fixed(z, d)| >= 1
  {
    hide Print, LastDigits, Without, Number;
    PrintNumber(if z < 0 then -z else z);
    FixedDigits(if z < 0 then -z else z, d);
  }
}
