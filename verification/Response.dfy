/**
 * The server's replies (QueryService.cpp) against their two readers: the app's parseResponse (ServerClient.kt) and the
 * load generator's field scan (loadgen.cpp). Ratios are printed from millionths.
 */
module Response {
  import opened Options
  import opened Text
  import CongestionRouter

  type Level = CongestionRouter.Level

  const SHED_INTERVAL_HINT := 30

  // ---------------------------------------------------------------- the server's side

  function LevelString(l: Level): string {
    match l
    case Relaxed => "RELAXED"
    case Moderate => "MODERATE"
    case Crowded => "CROWDED"
  }

  /** The crowdedness tells the app how often to report. */
  function IntervalHint(l: Level): int {
    match l
    case Crowded => 30
    case Moderate => 15
    case Relaxed => 10
  }

  datatype Answer = Answer(level: Level, millionths: int)

  function Head(level: string, ratio: string, interval: int): seq<string> {
    [level, ratio, "interval=" + PrintInt(interval)]
  }

  function IdField(reqId: nat): seq<string> { if reqId > 0 then ["id=" + PrintInt(reqId)] else [] }

  /** The fields of process()'s reply; no answer means that the coordinates are outside every zone. */
  function ProcessFields(answer: Option<Answer>, reqId: nat, q: int, s: int, experiment: bool): seq<string> {
    (match answer
     case None => Head("RELAXED", "0.0", 10)
     case Some(a) => Head(LevelString(a.level), Fixed(a.millionths, 6), IntervalHint(a.level)))
    + if experiment then IdField(reqId) + ["q=" + PrintInt(q), "s=" + PrintInt(s)] else []
  }

  /** staleLine: the reply to a shed or expired query; a production build without a stale entry sends none. */
  function StaleFields(stale: Option<Answer>, reqId: nat, tag: char, waitUs: int, experiment: bool): seq<string> {
    (match stale
     case Some(a) => Head(LevelString(a.level), Fixed(a.millionths, 6), SHED_INTERVAL_HINT)
     case None => if experiment then Head("NONE", "0", SHED_INTERVAL_HINT) else [])
    + if experiment
      then IdField(reqId) + (if waitUs >= 0 then ["q=" + PrintInt(waitUs)] else []) + ["x=" + [tag]]
      else []
  }

  function Line(fields: seq<string>): string
    requires |fields| >= 1
  {
    Join(fields, '|')
  }

  // ---------------------------------------------------------------- trimming

  predicate AllSpace(s: string) { forall i :: 0 <= i < |s| ==> IsSpace(s[i]) }

  function TrimLeft(s: string): (r: string)
    ensures r == [] || !IsSpace(r[0])
  {
    if s != [] && IsSpace(s[0]) then TrimLeft(s[1..]) else s
  }

  function TrimRight(s: string): (r: string)
    ensures r == [] || !IsSpace(r[|r| - 1])
  {
    if s != [] && IsSpace(s[|s| - 1]) then TrimRight(s[..|s| - 1]) else s
  }

  function Trim(s: string): string { TrimRight(TrimLeft(s)) }

  lemma {:induction false} TrimLeftStops(a: string, c: char, b: string)
    requires !IsSpace(c)
    ensures TrimLeft(a + [c] + b) == TrimLeft(a) + [c] + b
  {
    if a != [] && IsSpace(a[0]) {
      TrimLeftStops(a[1..], c, b);
      assert (a + [c] + b)[1..] == a[1..] + [c] + b;
    }
  }

  lemma {:induction false} TrimRightStops(a: string, c: char, b: string)
    requires !IsSpace(c)
    ensures TrimRight(a + [c] + b) == a + [c] + TrimRight(b)
  {
    var s := a + [c] + b;
    if b != [] && IsSpace(b[|b| - 1]) {
      TrimRightStops(a, c, b[..|b| - 1]);
      assert s[..|s| - 1] == a + [c] + b[..|b| - 1];
    } else {
      assert s[|s| - 1] == if b == [] then c else b[|b| - 1];
    }
  }

  /** Trimming an end first makes no difference. */
  lemma {:induction false} TrimAgain(s: string)
    ensures Trim(TrimLeft(s)) == Trim(s) && Trim(TrimRight(s)) == Trim(s) && Trim(s + "\n") == Trim(s)
  {
    assert TrimLeft(TrimLeft(s)) == TrimLeft(s);
    RightThenLeft(s);
    RightThenLeft(s + "\n");
    assert (s + "\n")[..|s|] == s;
  }

  lemma {:induction false} RightThenLeft(s: string)
    ensures Trim(TrimRight(s)) == Trim(s)
  {
    if s != [] && IsSpace(s[|s| - 1]) {
      var init := s[..|s| - 1];
      RightThenLeft(init);
      DropLastSpace(init, s[|s| - 1]);
      assert init + [s[|s| - 1]] == s;
    }
  }

  lemma {:induction false} DropLastSpace(s: string, c: char)
    requires IsSpace(c)
    ensures Trim(s + [c]) == Trim(s)
  {
    if s != [] && IsSpace(s[0]) {
      DropLastSpace(s[1..], c);
      assert (s + [c])[1..] == s[1..] + [c];
    } else if s == [] {
      assert ([] + [c])[1..] == [];
    } else {
      assert (s + [c])[..|s|] == s;
    }
  }

  // ---------------------------------------------------------------- the app's side

  /** toIntOrNull. */
  function ToInt(s: string): Option<int> {
    var signed := s != [] && (s[0] == '-' || s[0] == '+');
    var body := if signed then s[1..] else s;
    if body == [] || Digits(body) < |body| then None
    else
      var n: int := Number(body[..Digits(body)]);
      var v := if signed && s[0] == '-' then -n else n;
      if INT32_MIN <= v <= INT32_MAX then Some(v) else None
  }

  /** toDoubleOrNull on decimal text: an optional sign, and a number that with its suffix uses up all the text. */
  function ToDouble(s: string): Option<real> {
    if s != [] && s[0] == '+' then Unsigned(s[1..])
    else if s != [] && s[0] == '-' then Minus(Unsigned(s[1..]))
    else Unsigned(s)
  }

  function Minus(x: Option<real>): Option<real> { if x.Some? then Some(-x.value) else None }

  /** Digits, a point, an exponent, and perhaps one of the letters that mark a float or double. */
  function Unsigned(s: string): Option<real> {
    var rest := s[MantissaLength(s)..];
    var tail := rest[ExponentLength(rest)..];
    if Digits(s) + |Fraction(s)| == 0 || tail !in {"", "f", "F", "d", "D"} then None else Some(Decimal(s))
  }

  datatype Reading = Reading(level: string, ratio: real, interval: Option<int>)

  const INTERVAL := "interval="

  /** The interval after looking at some more fields: the last one that starts with "interval=" decides. */
  function LastInterval(before: Option<int>, fields: seq<string>): Option<int> {
    if fields == [] then before
    else
      var f := Trim(fields[|fields| - 1]);
      if INTERVAL <= f then ToInt(f[|INTERVAL|..]) else LastInterval(before, fields[..|fields| - 1])
  }

  function RatioOf(s: string): real {
    match ToDouble(Trim(s))
    case Some(x) => x
    case None => 0.0
  }

  function ReadParts(parts: seq<string>): Option<Reading> {
    if |parts| < 2 then None
    else Some(Reading(Trim(parts[0]), RatioOf(parts[1]), LastInterval(None, parts[2..])))
  }

  /** parseResponse: null, or the level, the ratio, and the interval if some field gives one. */
  method ParseResponse(response: string) returns (r: Option<Reading>)
    ensures r == ReadParts(Split(Trim(response), '|'))
  {
    hide Split, Trim, ToInt, RatioOf;
    var parts := Split(Trim(response), '|');
    if |parts| < 2 { return None; }
    var interval: Option<int> := None;
    var i := 2;
    while i < |parts|
      invariant 2 <= i <= |parts|
      invariant interval == LastInterval(None, parts[2..i])
    {
      var field := Trim(parts[i]);
      assert parts[2..i + 1][..i - 2] == parts[2..i];
      if INTERVAL <= field { interval := ToInt(field[|INTERVAL|..]); }
      i := i + 1;
    }
    assert parts[2..i] == parts[2..];
    return Some(Reading(Trim(parts[0]), RatioOf(parts[1]), interval));
  }

  /** The parts of a trimmed reply are the server's fields, the outer two trimmed at one end. */
  lemma TrimmedParts(fields: seq<string>)
    requires |fields| >= 2 && forall i :: 0 <= i < |fields| ==> '|' !in fields[i]
    ensures var n := |fields| - 1;
      Split(Trim(Line(fields) + "\n"), '|') == [TrimLeft(fields[0])] + fields[1..n] + [TrimRight(fields[n] + "\n")]
  {
    hide Split, Join, TrimLeft, TrimRight;
    var n := |fields| - 1;
    var last := fields[n] + "\n";
    var all := fields[..n] + [last];
    JoinNewline(fields);
    TrimJoinLeft(all);
    var left := [TrimLeft(fields[0])] + all[1..];
    TrimJoinRight(left);
    var both := [TrimLeft(fields[0])] + fields[1..n] + [TrimRight(last)];
    assert left[..n] + [TrimRight(last)] == both;
    TrimLeftPlain(fields[0], '|');
    TrimRightPlain(last, '|');
    forall i | 0 <= i < |both| ensures '|' !in both[i] {
      if 0 < i < n { assert both[i] == fields[i]; }
    }
    SplitJoin(both, '|');
  }

  lemma {:induction false} JoinNewline(fields: seq<string>)
    requires |fields| >= 1
    ensures var n := |fields| - 1; Line(fields) + "\n" == Join(fields[..n] + [fields[n] + "\n"], '|')
  {
    var n := |fields| - 1;
    var all := fields[..n] + [fields[n] + "\n"];
    if n > 0 {
      JoinNewline(fields[1..]);
      assert all[1..] == fields[1..][..n - 1] + [fields[1..][n - 1] + "\n"];
    }
  }

  lemma TrimJoinLeft(fields: seq<string>)
    requires |fields| >= 2
    ensures TrimLeft(Join(fields, '|')) == Join([TrimLeft(fields[0])] + fields[1..], '|')
  {
    TrimLeftStops(fields[0], '|', Join(fields[1..], '|'));
    assert ([TrimLeft(fields[0])] + fields[1..])[1..] == fields[1..];
  }

  lemma {:induction false} TrimJoinRight(fields: seq<string>)
    requires |fields| >= 2
    ensures var n := |fields| - 1; TrimRight(Join(fields, '|')) == Join(fields[..n] + [TrimRight(fields[n])], '|')
  {
    var n := |fields| - 1;
    var trimmed := fields[..n] + [TrimRight(fields[n])];
    assert trimmed[1..] == fields[1..][..n - 1] + [TrimRight(fields[1..][n - 1])];
    if n == 1 {
      TrimRightStops(fields[0], '|', fields[1]);
    } else {
      TrimJoinRight(fields[1..]);
      JoinSolid(fields[1..]);
      TrimRightOver(fields[0] + ['|'], Join(fields[1..], '|'));
    }
  }

  /** Text with a separator in it is not all blanks. */
  lemma JoinSolid(fields: seq<string>)
    requires |fields| >= 2
    ensures !AllSpace(Join(fields, '|'))
  {
    assert Join(fields, '|')[|fields[0]|] == '|';
  }

  lemma {:induction false} TrimRightOver(a: string, b: string)
    requires !AllSpace(b)
    ensures TrimRight(a + b) == a + TrimRight(b)
  {
    if IsSpace(b[|b| - 1]) {
      assert (a + b)[..|a + b| - 1] == a + b[..|b| - 1];
      TrimRightOver(a, b[..|b| - 1]);
    }
  }

  lemma {:induction false} TrimLeftPlain(s: string, c: char)
    requires c !in s
    ensures c !in TrimLeft(s)
  {
    if s != [] { TrimLeftPlain(s[1..], c); }
  }

  lemma {:induction false} TrimRightPlain(s: string, c: char)
    requires c !in s
    ensures c !in TrimRight(s)
  {
    if s != [] { TrimRightPlain(s[..|s| - 1], c); }
  }

  /** A field that the app neither splits nor takes for an interval. */
  predicate Foreign(f: string) { '|' !in f && !(INTERVAL <= Trim(f)) }

  /** What the app reads depends on the trimmed fields alone: the newline and outer blanks do not matter. */
  lemma AppReadsFields(fields: seq<string>)
    requires |fields| >= 2 && forall i :: 0 <= i < |fields| ==> '|' !in fields[i]
    ensures ReadParts(Split(Trim(Line(fields) + "\n"), '|')) ==
      Some(Reading(Trim(fields[0]), RatioOf(fields[1]), LastInterval(None, fields[2..])))
  {
    hide Split, Join, Trim, TrimLeft, TrimRight, ToInt, ToDouble;
    TrimmedParts(fields);
    var n := |fields| - 1;
    var last := TrimRight(fields[n] + "\n");
    var parts := [TrimLeft(fields[0])] + fields[1..n] + [last];
    TrimAgain(fields[0]);
    TrimAgain(fields[n]);
    TrimAgain(fields[n] + "\n");
    assert Trim(last) == Trim(fields[n]);
    if n >= 2 {
      assert parts[2..] == fields[2..n] + [last] && fields[2..] == fields[2..n] + [fields[n]];
      assert (fields[2..n] + [last])[..n - 2] == fields[2..n] == (fields[2..n] + [fields[n]])[..n - 2];
      assert parts[1] == fields[1];
    } else {
      assert parts[2..] == fields[2..] == [];
    }
  }

  lemma {:induction false} ForeignIgnored(fields: seq<string>, extras: seq<string>)
    requires forall i :: 0 <= i < |extras| ==> Foreign(extras[i])
    ensures LastInterval(None, fields + extras) == LastInterval(None, fields)
  {
    hide Trim, ToInt;
    if extras == [] {
      assert fields + [] == fields;
    } else {
      var n := |extras| - 1;
      ForeignIgnored(fields, extras[..n]);
      assert (fields + extras)[..|fields| + n] == fields + extras[..n];
    }
  }

  lemma Solid(s: string)
    requires s != [] && !IsSpace(s[0]) && !IsSpace(s[|s| - 1])
    ensures Trim(s) == s
  {}

  lemma ReadBack(n: int)
    requires INT32_MIN <= n <= INT32_MAX
    ensures ToInt(PrintInt(n)) == Some(n)
  {
    hide Print, Number, Digits;
    var a: nat := if n < 0 then -n else n;
    PrintNumber(a);
    DigitsOf(Print(a), []);
    assert Print(a) + [] == Print(a) && Print(a)[..|Print(a)|] == Print(a);
    if n < 0 { assert PrintInt(n)[1..] == Print(a); } else { assert IsDigit(PrintInt(n)[0]); }
  }

  lemma IntervalField(n: int)
    requires INT32_MIN <= n <= INT32_MAX
    ensures '|' !in INTERVAL + PrintInt(n) && LastInterval(None, [INTERVAL + PrintInt(n)]) == Some(n)
  {
    hide PrintInt, ToInt, Trim;
    var f := INTERVAL + PrintInt(n);
    PrintedIsNumeric(n, 1);
    Solid(f);
    assert f[|INTERVAL|..] == PrintInt(n);
    ReadBack(n);
  }

  /**
   * Forward compatibility: a reply that starts with level, ratio and interval reads as these three, whatever other
   * fields follow.
   */
  lemma AppReadsAny(level: string, ratio: string, n: int, extras: seq<string>)
    requires '|' !in level && '|' !in ratio && INT32_MIN <= n <= INT32_MAX
    requires forall i :: 0 <= i < |extras| ==> Foreign(extras[i])
    ensures ReadParts(Split(Trim(Line(Head(level, ratio, n) + extras) + "\n"), '|')) ==
      Some(Reading(Trim(level), RatioOf(ratio), Some(n)))
  {
    hide Split, Join, Trim, PrintInt, LastInterval, ReadParts, RatioOf;
    var fields := Head(level, ratio, n) + extras;
    IntervalField(n);
    assert INTERVAL == "interval=";
    AppReadsFields(fields);
    assert fields[2..] == [INTERVAL + PrintInt(n)] + extras;
    ForeignIgnored([INTERVAL + PrintInt(n)], extras);
  }

  lemma NumericIsSolid(s: string)
    requires Numeric(s) && s != []
    ensures Trim(s) == s && '|' !in s
  {
    hide Trim;
    Solid(s);
  }

  lemma ReadFixed(q: int, d: nat)
    ensures RatioOf(Fixed(q, d)) == q as real / Ten(d) as real && '|' !in Fixed(q, d)
  {
    hide Trim, Fixed, ToDouble, Numeric, Ten;
    PrintedIsNumeric(q, d);
    NumericIsSolid(Fixed(q, d));
    SignedFixed(q, d);
  }

  lemma SignedFixed(q: int, d: nat)
    ensures ToDouble(Fixed(q, d)) == Some(q as real / Ten(d) as real)
  {
    hide Print, LastDigits, Without, Ten, Unsigned;
    var a: nat := if q < 0 then -q else q;
    var body := Print(Without(a, d)) + "." + LastDigits(a, d);
    UnsignedFixed(a, d);
    if q < 0 {
      assert Fixed(q, d) == "-" + body && Fixed(q, d)[1..] == body;
      Negated(a as real, Ten(d) as real);
    } else {
      assert Fixed(q, d) == body;
    }
  }

  lemma UnsignedFixed(a: nat, d: nat)
    ensures var body := Print(Without(a, d)) + "." + LastDigits(a, d);
      IsDigit(body[0]) && Unsigned(body) == Some(a as real / Ten(d) as real)
  {
    hide Print, LastDigits, Without, Digits, Mantissa, MantissaLength, Exponent, ExponentLength, Times10, Ten;
    var body := Print(Without(a, d)) + "." + LastDigits(a, d);
    MantissaFixed(a, d, []);
    NoExponent(a as real / Ten(d) as real);
    assert body + [] == body && body[|body|..] == [];
  }

  lemma ReadZeros()
    ensures RatioOf("0.0") == 0.0 && RatioOf("0") == 0.0
  {
    hide RatioOf, Fixed;
    ReadFixed(0, 1);
    FixedZero();
    PlainZero();
  }

  lemma FixedZero()
    ensures Fixed(0, 1) == "0.0"
  {
    assert Print(0) == "0" && LastDigits(0, 1) == "0";
  }

  lemma PlainZero()
    ensures RatioOf("0") == 0.0
  {
    hide Trim, Digits, Number;
    Solid("0");
    DigitsOf("0", []);
    assert "0" + [] == "0" && "0"[..1] == "0" && "0"[1..] == [];
    assert Fraction("0") == [] && "0" + Fraction("0") == "0";
    PrintNumber(0);
    assert Print(0) == "0";
    NoExponent(0.0);
  }

  lemma LevelIsPlain(l: Level)
    ensures Trim(LevelString(l)) == LevelString(l) && '|' !in LevelString(l)
  {
    Solid(LevelString(l));
  }

  /** The server's own optional fields are foreign to the app. */
  lemma KeyedIsForeign(key: string, value: string)
    requires key in {"id=", "q=", "s=", "x="} && value != [] && '|' !in value && !IsSpace(value[|value| - 1])
    ensures Foreign(key + value)
  {
    hide Trim;
    Solid(key + value);
    assert (key + value)[0] != INTERVAL[0] || (key + value)[1] != INTERVAL[1];
  }

  lemma NumberIsForeign(key: string, z: int)
    requires key in {"id=", "q=", "s="}
    ensures Foreign(key + PrintInt(z))
  {
    hide PrintInt, Foreign;
    PrintedIsNumeric(z, 1);
    KeyedIsForeign(key, PrintInt(z));
  }

  /** What the app should read of an answer. */
  function AnswerReading(a: Option<Answer>): Reading {
    match a
    case None => Reading("RELAXED", 0.0, Some(10))
    case Some(Answer(Relaxed, n)) => Reading("RELAXED", n as real / 1000000.0, Some(10))
    case Some(Answer(Moderate, n)) => Reading("MODERATE", n as real / 1000000.0, Some(15))
    case Some(Answer(Crowded, n)) => Reading("CROWDED", n as real / 1000000.0, Some(30))
  }

  /** The app recovers level, ratio and interval from every reply of process(), in either build and with any
      further fields. */
  lemma AppReadsProcess(a: Option<Answer>, reqId: nat, q: int, s: int, experiment: bool, extras: seq<string>)
    requires forall i :: 0 <= i < |extras| ==> Foreign(extras[i])
    ensures ReadParts(Split(Trim(Line(ProcessFields(a, reqId, q, s, experiment) + extras) + "\n"), '|')) ==
      Some(AnswerReading(a))
  {
    hide Split, Join, Trim, PrintInt, Fixed, ReadParts, RatioOf, Foreign;
    var own := if experiment then IdField(reqId) + ["q=" + PrintInt(q), "s=" + PrintInt(s)] else [];
    NumberIsForeign("id=", reqId);
    NumberIsForeign("q=", q);
    NumberIsForeign("s=", s);
    forall i | 0 <= i < |own + extras| ensures Foreign((own + extras)[i]) {}
    match a
    case None =>
      ReadZeros();
      Solid("RELAXED");
      AppReadsAny("RELAXED", "0.0", 10, own + extras);
      assert Head("RELAXED", "0.0", 10) + own + extras == Head("RELAXED", "0.0", 10) + (own + extras);
    case Some(x) =>
      var head := Head(LevelString(x.level), Fixed(x.millionths, 6), IntervalHint(x.level));
      LevelIsPlain(x.level);
      ReadFixed(x.millionths, 6);
      assert Ten(6) == 1000000;
      AppReadsAny(LevelString(x.level), Fixed(x.millionths, 6), IntervalHint(x.level), own + extras);
      assert ProcessFields(a, reqId, q, s, experiment) + extras == head + (own + extras);
      assert RatioOf(Fixed(x.millionths, 6)) == x.millionths as real / 1000000.0;
  }

  function StaleReading(a: Option<Answer>): Reading {
    match a
    case None => Reading("NONE", 0.0, Some(30))
    case Some(Answer(Relaxed, n)) => Reading("RELAXED", n as real / 1000000.0, Some(30))
    case Some(Answer(Moderate, n)) => Reading("MODERATE", n as real / 1000000.0, Some(30))
    case Some(Answer(Crowded, n)) => Reading("CROWDED", n as real / 1000000.0, Some(30))
  }

  /** The same for every shed or expired query that is answered; the interval is then the shedding hint. */
  lemma AppReadsStale(a: Option<Answer>, reqId: nat, tag: char, waitUs: int, experiment: bool, extras: seq<string>)
    requires (experiment || a.Some?) && tag in {'S', 'D'}
    requires forall i :: 0 <= i < |extras| ==> Foreign(extras[i])
    ensures ReadParts(Split(Trim(Line(StaleFields(a, reqId, tag, waitUs, experiment) + extras) + "\n"), '|')) ==
      Some(StaleReading(a))
  {
    hide Split, Join, Trim, PrintInt, Fixed, ReadParts, RatioOf, Foreign;
    var own := if experiment
      then IdField(reqId) + (if waitUs >= 0 then ["q=" + PrintInt(waitUs)] else []) + ["x=" + [tag]]
      else [];
    NumberIsForeign("id=", reqId);
    NumberIsForeign("q=", waitUs);
    KeyedIsForeign("x=", [tag]);
    forall i | 0 <= i < |own + extras| ensures Foreign((own + extras)[i]) {}
    match a
    case None =>
      ReadZeros();
      Solid("NONE");
      AppReadsAny("NONE", "0", SHED_INTERVAL_HINT, own + extras);
      assert Head("NONE", "0", SHED_INTERVAL_HINT) + own + extras ==
        Head("NONE", "0", SHED_INTERVAL_HINT) + (own + extras);
    case Some(x) =>
      var head := Head(LevelString(x.level), Fixed(x.millionths, 6), SHED_INTERVAL_HINT);
      LevelIsPlain(x.level);
      ReadFixed(x.millionths, 6);
      assert Ten(6) == 1000000;
      AppReadsAny(LevelString(x.level), Fixed(x.millionths, 6), SHED_INTERVAL_HINT, own + extras);
      assert StaleFields(a, reqId, tag, waitUs, experiment) + extras == head + (own + extras);
      assert RatioOf(Fixed(x.millionths, 6)) == x.millionths as real / 1000000.0;
  }

  // ---------------------------------------------------------------- the load generator's side

  function FieldIn(parts: seq<string>, key: string): Option<nat> {
    if parts == [] then None
    else if |parts[0]| > |key| && key <= parts[0] then Some(Strtoull(parts[0][|key|..]))
    else FieldIn(parts[1..], key)
  }

  /** field: the number after the first '|'-separated part that is longer than the key and starts with it. */
  function Field(line: string, key: string): Option<nat> { FieldIn(Split(line, '|'), key) }

  const NO_TAG := '\0'

  /** The character after the first "x=" at the start of a part, searched from position i. */
  function TagFrom(p: string, i: nat): char
    decreases |p| - i
  {
    if i + 2 >= |p| then NO_TAG
    else if p[i] == 'x' && p[i + 1] == '=' && (i == 0 || p[i - 1] == '|') then p[i + 2]
    else TagFrom(p, i + 1)
  }

  function Tag(line: string): char { TagFrom(line, 0) }

  lemma {:induction false} FieldSkips(a: seq<string>, b: seq<string>, key: string)
    requires forall i :: 0 <= i < |a| ==> !(key <= a[i])
    ensures FieldIn(a + b, key) == FieldIn(b, key)
  {
    if a == [] {
      assert a + b == b;
    } else {
      assert (a + b)[1..] == a[1..] + b;
      FieldSkips(a[1..], b, key);
    }
  }

  /** Shifting the search by a part in front. */
  lemma {:induction false} TagShift(f: string, rest: string, j: nat)
    requires j > 0
    ensures TagFrom(f + ['|'] + rest, |f| + 1 + j) == TagFrom(rest, j)
    decreases |rest| - j
  {
    if j + 2 < |rest| { TagShift(f, rest, j + 1); }
  }

  lemma {:induction false} TagSkips(f: string, rest: string, i: nat)
    requires '|' !in f && !("x=" <= f) && i <= |f| + 1
    ensures TagFrom(f + ['|'] + rest, i) == Tag(rest)
    decreases |f| + 1 - i
  {
    var p := f + ['|'] + rest;
    if i == |f| + 1 {
      if |rest| > 2 { TagShift(f, rest, 1); }
    } else {
      if i < |f| { assert f[i] in f && (i > 0 ==> f[i - 1] in f && p[i - 1] == f[i - 1]); }
      if i == 0 && |f| >= 2 { assert f[..2] == [f[0], f[1]]; }
      if i + 2 < |p| {
        TagSkips(f, rest, i + 1);
      } else {
        assert |rest| <= 1;
      }
    }
  }

  ghost predicate NoTag(fields: seq<string>) {
    forall i :: 0 <= i < |fields| ==> '|' !in fields[i] && !("x=" <= fields[i])
  }

  /** Over whole lines: parts that are not tags are skipped. */
  lemma {:induction false} TagOfLine(a: seq<string>, b: seq<string>)
    requires NoTag(a) && |b| >= 1
    ensures Tag(Line(a + b)) == Tag(Line(b))
  {
    if a == [] {
      assert a + b == b;
    } else {
      assert (a + b)[1..] == a[1..] + b;
      TagSkips(a[0], Line(a[1..] + b), 0);
      TagOfLine(a[1..], b);
    }
  }

  lemma {:induction false} UntaggedPart(f: string, i: nat)
    requires '|' !in f && !("x=" <= f)
    ensures TagFrom(f, i) == NO_TAG
    decreases |f| - i
  {
    if i + 2 < |f| {
      assert i > 0 ==> f[i - 1] in f;
      if i == 0 { assert f[..2] == [f[0], f[1]]; }
      UntaggedPart(f, i + 1);
    }
  }

  /** No key of the generator starts the first three fields, and none of them is a tag. */
  lemma HeadHasNoKey(level: string, ratio: string, n: int)
    requires level in {"RELAXED", "MODERATE", "CROWDED", "NONE"} && Numeric(ratio) && ratio != []
    ensures NoTag(Head(level, ratio, n))
    ensures forall i :: 0 <= i < 3 ==> var f := Head(level, ratio, n)[i]; !("id=" <= f) && !("q=" <= f) && !("s=" <= f)
  {
    hide PrintInt;
    PrintedIsNumeric(n, 1);
    assert level[0] in {'R', 'M', 'C', 'N'} && '|' !in level;
    assert ratio[0] != 'i' && ratio[0] != 'q' && ratio[0] != 's' && ratio[0] != 'x' && '|' !in ratio;
    var f := "interval=" + PrintInt(n);
    assert f[0] == 'i' && f[1] == 'n' && '|' !in f;
  }

  lemma KeyedNumber(key: string, n: nat)
    requires n <= UINT64_MAX
    ensures '|' !in PrintInt(n) && |PrintInt(n)| > 0 && Strtoull(PrintInt(n)) == n
    ensures (key + PrintInt(n))[|key|..] == PrintInt(n)
  {
    hide PrintInt, Strtoull;
    PrintedIsNumeric(n, 1);
    StrtoullPrintInt(n);
  }

  lemma StrtoullPrintInt(n: nat)
    requires n <= UINT64_MAX
    ensures Strtoull(PrintInt(n)) == n
  {
    hide Strtoull;
    StrtoullPrint(n, []);
    assert Print(n) + [] == Print(n);
  }

  lemma FieldStep(p: string, rest: seq<string>, key: string)
    ensures FieldIn([p] + rest, key) ==
      if |p| > |key| && key <= p then Some(Strtoull(p[|key|..])) else FieldIn(rest, key)
  {
    assert ([p] + rest)[1..] == rest;
  }

  /** One "key=number" part, looked up under its own key and under another one. */
  lemma KeyedStep(key: string, n: nat, rest: seq<string>, other: string)
    requires key in {"id=", "q=", "s="} && n <= UINT64_MAX && other in {"id=", "q=", "s="}
    ensures var f := key + PrintInt(n);
      && FieldIn([f] + rest, key) == Some(n) && '|' !in f && !("x=" <= f)
      && (other != key ==> FieldIn([f] + rest, other) == FieldIn(rest, other))
  {
    hide PrintInt, Strtoull, FieldIn;
    var f := key + PrintInt(n);
    KeyedNumber(key, n);
    FieldStep(f, rest, key);
    FieldStep(f, rest, other);
    assert f[0] == key[0];
  }

  lemma NoField(key: string)
    ensures FieldIn([], key) == None
  {}

  lemma HeadOf(a: Option<Answer>, interval: int, head: seq<string>)
    requires match a
             case None => head == Head("RELAXED", "0.0", interval) || head == Head("NONE", "0", interval)
             case Some(x) => head == Head(LevelString(x.level), Fixed(x.millionths, 6), interval)
    ensures NoTag(head)
    ensures forall i :: 0 <= i < |head| ==> !("id=" <= head[i]) && !("q=" <= head[i]) && !("s=" <= head[i])
  {
    hide PrintInt, Fixed;
    match a
    case None =>
      HeadHasNoKey("RELAXED", "0.0", interval);
      HeadHasNoKey("NONE", "0", interval);
    case Some(x) =>
      PrintedIsNumeric(x.millionths, 6);
      HeadHasNoKey(LevelString(x.level), Fixed(x.millionths, 6), interval);
  }

  /** The three lookups skip the head of a reply. */
  lemma LookupsSkip(head: seq<string>, own: seq<string>)
    requires NoTag(head) && |head + own| >= 1 && forall i :: 0 <= i < |own| ==> '|' !in own[i]
    requires forall i :: 0 <= i < |head| ==> !("id=" <= head[i]) && !("q=" <= head[i]) && !("s=" <= head[i])
    ensures var line := Line(head + own);
      && Field(line, "id=") == FieldIn(own, "id=") && Field(line, "q=") == FieldIn(own, "q=")
      && Field(line, "s=") == FieldIn(own, "s=")
  {
    hide Split, Join;
    SplitJoin(head + own, '|');
    FieldSkips(head, own, "id=");
    FieldSkips(head, own, "q=");
    FieldSkips(head, own, "s=");
  }

  lemma UntaggedLine(fields: seq<string>)
    requires |fields| >= 1 && NoTag(fields)
    ensures Tag(Line(fields)) == NO_TAG
  {
    var n := |fields| - 1;
    assert fields == fields[..n] + [fields[n]];
    TagOfLine(fields[..n], [fields[n]]);
    UntaggedPart(fields[n], 0);
  }

  /**
   * Every reply of process() in an experiment build tells the generator its request number, queueing and service
   * time, and carries no tag.
   */
  lemma GeneratorReadsProcess(a: Option<Answer>, reqId: nat, q: nat, s: nat)
    requires reqId <= UINT64_MAX && q <= UINT64_MAX && s <= UINT64_MAX
    ensures var line := Line(ProcessFields(a, reqId, q, s, true));
      && Field(line, "id=") == (if reqId > 0 then Some(reqId) else None)
      && Field(line, "q=") == Some(q) && Field(line, "s=") == Some(s) && Tag(line) == NO_TAG
  {
    hide PrintInt, Fixed, Strtoull, Line, Field, Tag, FieldIn, IdField;
    var head := ProcessFields(a, reqId, q, s, true)[..3];
    var times := ["q=" + PrintInt(q)] + ["s=" + PrintInt(s)];
    var own := IdField(reqId) + times;
    assert ProcessFields(a, reqId, q, s, true) == head + own;
    HeadOf(a, match a case None => 10 case Some(x) => IntervalHint(x.level), head);
    TimesAre(q, s);
    IdIs(reqId, times);
    UntaggedKeys(reqId, q);
    LookupsSkip(head, own);
    UntaggedLine(head + own);
  }

  lemma TimesAre(q: nat, s: nat)
    requires q <= UINT64_MAX && s <= UINT64_MAX
    ensures var times := ["q=" + PrintInt(q)] + ["s=" + PrintInt(s)];
      && FieldIn(times, "id=") == None && FieldIn(times, "q=") == Some(q)
      && FieldIn(times, "s=") == Some(s) && NoTag(times)
  {
    hide PrintInt, FieldIn;
    var last := ["s=" + PrintInt(s)];
    KeyedStep("q=", q, last, "id=");
    KeyedStep("q=", q, last, "s=");
    KeyedStep("s=", s, [], "id=");
    NoField("id=");
    assert last + [] == last;
  }

  lemma IdIs(reqId: nat, rest: seq<string>)
    requires reqId <= UINT64_MAX && FieldIn(rest, "id=") == None
    ensures var own := IdField(reqId) + rest;
      && FieldIn(own, "id=") == (if reqId > 0 then Some(reqId) else None)
      && FieldIn(own, "q=") == FieldIn(rest, "q=") && FieldIn(own, "s=") == FieldIn(rest, "s=")
  {
    hide PrintInt, FieldIn;
    if reqId > 0 {
      KeyedStep("id=", reqId, rest, "q=");
      KeyedStep("id=", reqId, rest, "s=");
    } else {
      assert IdField(reqId) + rest == rest;
    }
  }

  /** A shed or expired query's reply gives its request number, its wait if it has one, and its tag. */
  lemma GeneratorReadsStale(a: Option<Answer>, reqId: nat, tag: char, waitUs: int)
    requires reqId <= UINT64_MAX && waitUs <= UINT64_MAX && tag in {'S', 'D'}
    ensures var line := Line(StaleFields(a, reqId, tag, waitUs, true));
      && Field(line, "id=") == (if reqId > 0 then Some(reqId) else None)
      && Field(line, "q=") == (if waitUs >= 0 then Some(waitUs as nat) else None) && Tag(line) == tag
  {
    hide PrintInt, Fixed, Strtoull, Line, Field, Tag, FieldIn, NoTag, IdField;
    var fields := StaleFields(a, reqId, tag, waitUs, true);
    var head, id, last := fields[..3], IdField(reqId), ["x=" + [tag]];
    var wait := if waitUs >= 0 then ["q=" + PrintInt(waitUs)] else [];
    HeadOf(a, SHED_INTERVAL_HINT, head);
    WaitIs(waitUs, tag);
    IdIs(reqId, wait + last);
    UntaggedKeys(reqId, waitUs);
    NoBars(id, wait, tag);
    assert fields == head + (id + (wait + last));
    LookupsSkip(head, id + (wait + last));
    NoTagAppend(head, id);
    NoTagAppend(head + id, wait);
    TagOfLine(head + id + wait, last);
    assert fields == head + id + wait + last;
    LastTag(tag);
  }

  lemma NoTagAppend(a: seq<string>, b: seq<string>)
    requires NoTag(a) && NoTag(b)
    ensures NoTag(a + b)
  {}

  lemma NoBars(a: seq<string>, b: seq<string>, tag: char)
    requires NoTag(a) && NoTag(b) && tag != '|'
    ensures var own := a + (b + ["x=" + [tag]]); forall i :: 0 <= i < |own| ==> '|' !in own[i]
  {}

  lemma LastTag(tag: char)
    ensures Tag(Line(["x=" + [tag]])) == tag
  {}

  lemma UntaggedKeys(reqId: nat, waitUs: int)
    ensures NoTag(IdField(reqId)) && NoTag(if waitUs >= 0 then ["q=" + PrintInt(waitUs)] else [])
  {
    hide PrintInt;
    PrintedIsNumeric(reqId, 1);
    PrintedIsNumeric(waitUs, 1);
    assert ("id=" + PrintInt(reqId))[0] == 'i' && ("q=" + PrintInt(waitUs))[0] == 'q';
  }

  lemma WaitIs(waitUs: int, tag: char)
    requires waitUs <= UINT64_MAX
    ensures var times := (if waitUs >= 0 then ["q=" + PrintInt(waitUs)] else []) + ["x=" + [tag]];
      FieldIn(times, "id=") == None && FieldIn(times, "q=") == if waitUs >= 0 then Some(waitUs as nat) else None
  {
    hide PrintInt, FieldIn;
    var f := "x=" + [tag];
    FieldStep(f, [], "id=");
    FieldStep(f, [], "q=");
    NoField("id=");
    NoField("q=");
    assert [f] + [] == [f] && [] + [f] == [f] && f[0] == 'x';
    if waitUs >= 0 { KeyedStep("q=", waitUs, [f], "id="); }
  }
}
