/**
 * The text that app and load generator send to the server: the printers (LocationRepository.kt, loadgen.cpp) against
 * the server's parseLine (EpollServer.cpp). Coordinates are printed from fixed-point numbers.
 */
module Wire {
  import opened Text
  import Framing

  const MAX_WORK_US: nat := 100000

  /** What a line asks the server to do. */
  datatype Msg =
    | Ignored
    | ZoneReport(zone: int, density: int)
    | Location(user: int, lat: real, lon: real, ble: int)
    | Query(lat: real, lon: real, workUs: int, reqId: int)

  // ---------------------------------------------------------------- the grammar

  /** The optional fields after the coordinates. */
  datatype Extra = Extra(ble: int, workUs: int, reqId: int)

  const NO_EXTRA := Extra(0, 0, 0)

  function Min(a: int, b: int): int { if a < b then a else b }

  /** One ",key=value" field; w and id are read in experiment builds only, other keys are ignored. */
  function Apply(x: Extra, field: string, experiment: bool): Extra {
    var eq := IndexOf(field, '=');
    if eq == |field| then x
    else
      var key, val := field[..eq], field[eq + 1..];
      if key == "ble" then x.(ble := FromChars(val, true, INT32_MIN, INT32_MAX, x.ble))
      else if experiment && key == "w" then
        x.(workUs := Min(FromChars(val, false, 0, UINT32_MAX, x.workUs), MAX_WORK_US))
      else if experiment && key == "id" then x.(reqId := FromChars(val, false, 0, UINT64_MAX, x.reqId))
      else x
  }

  function ApplyAll(x: Extra, fields: seq<string>, experiment: bool): Extra
    decreases |fields|
  {
    if fields == [] then x else ApplyAll(Apply(x, fields[0], experiment), fields[1..], experiment)
  }

  function ParseZone(rest: string): Msg {
    var k := IndexOf(rest, ',');
    if k == |rest| || !("density=" <= rest[k + 1..]) then Ignored
    else
      var zone := FromChars(rest[..k], true, INT32_MIN, INT32_MAX, -1);
      var density := FromChars(rest[k + 1..][8..], true, INT32_MIN, INT32_MAX, 0);
      if zone >= 0 && density > 0 then ZoneReport(zone, density) else Ignored
  }

  function Meaning(user: int, lat: real, lon: real, x: Extra): Msg {
    if user != 0 then Location(user, lat, lon, x.ble) else Query(lat, lon, x.workUs, x.reqId)
  }

  function ParseFields(parts: seq<string>, experiment: bool): Msg {
    if |parts| < 3 then Ignored
    else Meaning(FromChars(parts[0], true, INT32_MIN, INT32_MAX, 0), Atof(parts[1]), Atof(parts[2]),
                 ApplyAll(NO_EXTRA, parts[3..], experiment))
  }

  function Parse(line: string, experiment: bool): Msg {
    if line == "" then Ignored
    else if "zone=" <= line then ParseZone(line[5..])
    else ParseFields(Split(line, ','), experiment)
  }

  // ---------------------------------------------------------------- parseLine as it is written

  const NPOS: int := -1

  /** string_view::find. */
  function FindFrom(s: string, c: char, from: nat): (r: int)
    requires from <= |s|
    ensures r == NPOS || from <= r < |s|
  {
    var k := IndexOf(s[from..], c);
    if from + k == |s| then NPOS else from + k
  }

  /** Splitting what follows a position is finding the next separator and splitting what follows that. */
  lemma SplitFrom(s: string, c: char, from: nat)
    requires from <= |s|
    ensures var r := FindFrom(s, c, from);
      Split(s[from..], c) == if r == NPOS then [s[from..]] else [s[from..r]] + Split(s[r + 1..], c)
  {
    hide IndexOf;
    var k := IndexOf(s[from..], c);
    assert s[from..][..k] == s[from..from + k];
    if k < |s[from..]| { assert s[from..][k + 1..] == s[from + k + 1..]; }
  }

  /** Positions instead of parts: the first two commas, then one field after the other. */
  method ParseLine(line: string, experiment: bool) returns (msg: Msg)
    ensures msg == Parse(line, experiment)
    ensures var parts := Split(line, ',');
      line != "" && !("zone=" <= line) && |parts| >= 3 ==>
      var user, lat, lon := FromChars(parts[0], true, INT32_MIN, INT32_MAX, 0), Atof(parts[1]), Atof(parts[2]);
      var x := ApplyAll(NO_EXTRA, parts[3..], experiment);
      if user == 0 then msg == Query(lat, lon, x.workUs, x.reqId) else msg == Location(user, lat, lon, x.ble)
    ensures line == "" || (!("zone=" <= line) && |Split(line, ',')| < 3) ==> msg == Ignored
  {
    hide Split, Atof, FromChars, Apply, ParseZone, FindFrom, IndexOf, Following, ApplyAll;
    if line == "" { return Ignored; }
    if "zone=" <= line {
      msg := ParseZone(line[5..]);
      return;
    }
    var comma1 := FindFrom(line, ',', 0);
    var comma2 := FindFrom(line, ',', comma1 + 1);
    if comma1 == NPOS || comma2 == NPOS {
      FewParts(line, comma1, comma2);
      return Ignored;
    }
    var comma3 := FindFrom(line, ',', comma2 + 1);
    ManyParts(line, comma1, comma2, comma3);
    var lonText := if comma3 == NPOS then line[comma2 + 1..] else line[comma2 + 1..comma3];
    var user := FromChars(line[..comma1], true, INT32_MIN, INT32_MAX, 0);
    var lat, lon := Atof(line[comma1 + 1..comma2]), Atof(lonText);
    var x := ParseExtras(line, comma3, experiment);
    msg := Meaning(user, lat, lon, x);
  }

  lemma FewParts(line: string, comma1: int, comma2: int)
    requires comma1 == FindFrom(line, ',', 0) && comma2 == FindFrom(line, ',', comma1 + 1)
    requires comma1 == NPOS || comma2 == NPOS
    ensures |Split(line, ',')| < 3
  {
    hide Split, FindFrom, IndexOf;
    assert line[0..] == line;
    SplitFrom(line, ',', 0);
    SplitFrom(line, ',', comma1 + 1);
  }

  lemma ManyParts(line: string, comma1: nat, comma2: nat, comma3: int)
    requires comma1 == FindFrom(line, ',', 0) && comma1 + 1 <= comma2 == FindFrom(line, ',', comma1 + 1)
    requires comma3 == FindFrom(line, ',', comma2 + 1)
    ensures Split(line, ',') ==
      [line[..comma1], line[comma1 + 1..comma2],
       if comma3 == NPOS then line[comma2 + 1..] else line[comma2 + 1..comma3]]
      + Following(line, comma3)
  {
    hide Split, FindFrom, IndexOf;
    assert line[0..] == line;
    SplitFrom(line, ',', 0);
    SplitFrom(line, ',', comma1 + 1);
    SplitFrom(line, ',', comma2 + 1);
  }

  /** The fields after a separator position. */
  ghost function Following(line: string, pos: int): seq<string>
    requires pos == NPOS || 0 <= pos < |line|
  {
    if pos == NPOS then [] else Split(line[pos + 1..], ',')
  }

  method ParseExtras(line: string, start: int, experiment: bool) returns (x: Extra)
    requires start == NPOS || 0 <= start < |line|
    ensures x == ApplyAll(NO_EXTRA, Following(line, start), experiment)
  {
    hide Split, Apply;
    x := NO_EXTRA;
    var pos := start;
    while pos != NPOS
      invariant pos == NPOS || 0 <= pos < |line|
      invariant ApplyAll(x, Following(line, pos), experiment) == ApplyAll(NO_EXTRA, Following(line, start), experiment)
      decreases if pos == NPOS then 0 else |line| - pos
    {
      SplitFrom(line, ',', pos + 1);
      var next := FindFrom(line, ',', pos + 1);
      var field := if next == NPOS then line[pos + 1..] else line[pos + 1..next];
      assert Following(line, pos) == [field] + Following(line, next);
      assert ([field] + Following(line, next))[1..] == Following(line, next);
      x := Apply(x, field, experiment);
      pos := next;
    }
  }

  // ---------------------------------------------------------------- what the app prints

  function LocationParts(user: int, lat5: int, lon5: int, ble: int): seq<string> {
    [PrintInt(user), Fixed(lat5, 5), Fixed(lon5, 5)] + if ble > 0 then ["ble=" + PrintInt(ble)] else []
  }

  /** appendLocationLine, without its newline: coordinates in units of 1e-5 degrees. */
  function LocationLine(user: int, lat5: int, lon5: int, ble: int): string {
    Join(LocationParts(user, lat5, lon5, ble), ',')
  }

  /** A zone report, as relayed for another phone; the phone's own reports are raised to a density of 1. */
  function RelayLine(zone: int, density: int): string {
    "zone=" + PrintInt(zone) + [','] + ("density=" + PrintInt(density))
  }

  function ZoneLine(zone: int, ble: int): string { RelayLine(zone, if ble < 1 then 1 else ble) }

  /** Every part is a number, or key=number. */
  lemma PartsArePlain(user: int, lat5: int, lon5: int, ble: int)
    ensures var parts := LocationParts(user, lat5, lon5, ble);
      && (forall i :: 0 <= i < |parts| ==> ',' !in parts[i] && '\n' !in parts[i] && '\r' !in parts[i])
      && |parts[0]| >= 1 && parts[0][0] != 'z'
  {
    hide PrintInt, Fixed;
    PrintedIsNumeric(user, 5);
    PrintedIsNumeric(lat5, 5);
    PrintedIsNumeric(lon5, 5);
    PrintedIsNumeric(ble, 5);
  }

  lemma ReadInt(z: int, before: int)
    requires INT32_MIN <= z <= INT32_MAX
    ensures FromChars(PrintInt(z), true, INT32_MIN, INT32_MAX, before) == z
  {
    FromCharsPrint(z, [], true, INT32_MIN, INT32_MAX, before);
    assert PrintInt(z) + [] == PrintInt(z);
  }

  lemma ReadNat(n: nat, hi: int, before: int)
    requires n <= hi
    ensures FromChars(PrintInt(n), false, 0, hi, before) == n
  {
    FromCharsPrint(n, [], false, 0, hi, before);
    assert PrintInt(n) + [] == PrintInt(n);
  }

  lemma ApplyOne(x: Extra, field: string, experiment: bool)
    ensures ApplyAll(x, [field], experiment) == Apply(x, field, experiment)
  {
    assert [field][1..] == [];
  }

  /** A printed location line, in any build, means its user, coordinates and device count; user 0 asks a question. */
  lemma LocationRoundTrip(user: int, lat5: int, lon5: int, ble: int, experiment: bool)
    requires INT32_MIN <= user <= INT32_MAX && ble <= INT32_MAX
    ensures var lat, lon := lat5 as real / 100000.0, lon5 as real / 100000.0;
      Parse(LocationLine(user, lat5, lon5, ble), experiment) ==
      if user == 0 then Query(lat, lon, 0, 0) else Location(user, lat, lon, if ble > 0 then ble else 0)
  {
    hide PrintInt, Fixed, Atof, FromChars, Split, Apply;
    var parts := LocationParts(user, lat5, lon5, ble);
    PartsArePlain(user, lat5, lon5, ble);
    SplitJoin(parts, ',');
    assert LocationLine(user, lat5, lon5, ble)[0] == parts[0][0];
    ReadInt(user, 0);
    AtofFixed(lat5, 5);
    AtofFixed(lon5, 5);
    assert Ten(5) == 100000;
    if ble > 0 {
      BleField(NO_EXTRA, ble, experiment);
      ApplyOne(NO_EXTRA, "ble=" + PrintInt(ble), experiment);
      assert parts[3..] == ["ble=" + PrintInt(ble)];
    } else {
      assert parts[3..] == [];
    }
  }

  lemma BleField(x: Extra, ble: int, experiment: bool)
    requires INT32_MIN <= ble <= INT32_MAX
    ensures Apply(x, "ble=" + PrintInt(ble), experiment) == x.(ble := ble)
  {
    hide PrintInt, FromChars, IndexOf;
    IndexOfCut("ble", '=', PrintInt(ble));
    assert "ble" + ['='] + PrintInt(ble) == "ble=" + PrintInt(ble);
    ReadInt(ble, x.ble);
  }

  /** A relayed report counts if and only if its zone is not negative and its density is positive. */
  lemma RelayRoundTrip(zone: int, density: int, experiment: bool)
    requires INT32_MIN <= zone <= INT32_MAX && INT32_MIN <= density <= INT32_MAX
    ensures Parse(RelayLine(zone, density), experiment) ==
      if zone >= 0 && density > 0 then ZoneReport(zone, density) else Ignored
  {
    hide PrintInt, ParseZone;
    assert RelayLine(zone, density)[5..] == PrintInt(zone) + [','] + ("density=" + PrintInt(density));
    ZoneRest(zone, density);
  }

  /** A printed zone report means its zone and a density of at least one. */
  lemma ZoneRoundTrip(zone: int, ble: int, experiment: bool)
    requires 0 <= zone <= INT32_MAX && ble <= INT32_MAX
    ensures Parse(ZoneLine(zone, ble), experiment) == ZoneReport(zone, if ble < 1 then 1 else ble)
  {
    hide Parse, RelayLine;
    RelayRoundTrip(zone, if ble < 1 then 1 else ble, experiment);
  }

  lemma ZoneRest(zone: int, density: int)
    requires INT32_MIN <= zone <= INT32_MAX && INT32_MIN <= density <= INT32_MAX
    ensures ParseZone(PrintInt(zone) + [','] + ("density=" + PrintInt(density))) ==
      if zone >= 0 && density > 0 then ZoneReport(zone, density) else Ignored
  {
    hide PrintInt, FromChars, IndexOf;
    PrintedIsNumeric(zone, 5);
    assert ',' !in PrintInt(zone);
    IndexOfCut(PrintInt(zone), ',', "density=" + PrintInt(density));
    assert ("density=" + PrintInt(density))[8..] == PrintInt(density);
    ReadInt(zone, -1);
    ReadInt(density, 0);
  }

  /** The app's question: raw doubles as Double.toString prints them. */
  function QuestionLine(lat: DoubleText, lon: DoubleText): string {
    Join(["0", PrintDouble(lat), PrintDouble(lon)], ',')
  }

  lemma DoubleIsPlain(x: DoubleText)
    ensures ',' !in PrintDouble(x)
  {
    hide PrintInt, Fixed;
    PrintedIsNumeric(x.q, x.d);
    if x.Scientific? { PrintedIsNumeric(x.e, 1); }
  }

  /** A printed question means its place in every build, in plain or scientific notation. */
  lemma QuestionRoundTrip(lat: DoubleText, lon: DoubleText, experiment: bool)
    ensures Parse(QuestionLine(lat, lon), experiment) == Query(DoubleValue(lat), DoubleValue(lon), 0, 0)
  {
    hide PrintDouble, DoubleValue, PrintInt, Atof, FromChars, Split, Apply;
    var parts := ["0", PrintDouble(lat), PrintDouble(lon)];
    DoubleIsPlain(lat);
    DoubleIsPlain(lon);
    SplitJoin(parts, ',');
    assert QuestionLine(lat, lon)[0] == '0';
    ZeroPrints();
    ReadInt(0, 0);
    AtofDouble(lat);
    AtofDouble(lon);
    assert parts[3..] == [];
  }

  // ---------------------------------------------------------------- what the load generator prints

  function QueryParts(lat6: int, lon6: int, id: nat, work: int): seq<string> {
    ["0", Fixed(lat6, 6), Fixed(lon6, 6), "id=" + PrintInt(id)] + if work > 0 then ["w=" + PrintInt(work)] else []
  }

  /** A query line: coordinates in units of 1e-6 degrees, and for a complex query its work in microseconds. */
  function QueryLine(lat6: int, lon6: int, id: nat, work: int): string { Join(QueryParts(lat6, lon6, id, work), ',') }

  lemma QueryPartsArePlain(lat6: int, lon6: int, id: nat, work: int)
    ensures forall i :: 0 <= i < |QueryParts(lat6, lon6, id, work)| ==> ',' !in QueryParts(lat6, lon6, id, work)[i]
  {
    hide PrintInt, Fixed;
    PrintedIsNumeric(lat6, 6);
    PrintedIsNumeric(lon6, 6);
    PrintedIsNumeric(id, 6);
    PrintedIsNumeric(work, 6);
  }

  lemma ExperimentField(x: Extra, n: nat, experiment: bool)
    requires n <= UINT64_MAX
    ensures Apply(x, "id=" + PrintInt(n), experiment) == if experiment then x.(reqId := n) else x
    ensures n <= UINT32_MAX ==>
      Apply(x, "w=" + PrintInt(n), experiment) == if experiment then x.(workUs := Min(n, MAX_WORK_US)) else x
  {
    hide PrintInt, FromChars, IndexOf;
    IndexOfCut("id", '=', PrintInt(n));
    IndexOfCut("w", '=', PrintInt(n));
    assert "id" + ['='] + PrintInt(n) == "id=" + PrintInt(n);
    assert "w" + ['='] + PrintInt(n) == "w=" + PrintInt(n);
    ReadNat(n, UINT64_MAX, x.reqId);
    if n <= UINT32_MAX { ReadNat(n, UINT32_MAX, x.workUs); }
  }

  /** An experiment build reads the request number and the capped work; a production build ignores both. */
  lemma QueryRoundTrip(lat6: int, lon6: int, id: nat, work: int, experiment: bool)
    requires id <= UINT64_MAX && work <= UINT32_MAX
    ensures Parse(QueryLine(lat6, lon6, id, work), experiment) ==
      Query(lat6 as real / 1000000.0, lon6 as real / 1000000.0,
            if experiment && work > 0 then (if work < 100000 then work else 100000) else 0,
            if experiment then id else 0)
  {
    hide PrintInt, Fixed, Atof, FromChars, Split, Apply;
    var parts := QueryParts(lat6, lon6, id, work);
    QueryPartsArePlain(lat6, lon6, id, work);
    SplitJoin(parts, ',');
    assert QueryLine(lat6, lon6, id, work)[0] == '0';
    assert PrintInt(0) == "0" by { ZeroPrints(); }
    ReadInt(0, 0);
    AtofFixed(lat6, 6);
    AtofFixed(lon6, 6);
    assert Ten(6) == 1000000;
    ExperimentField(NO_EXTRA, id, experiment);
    var x := Apply(NO_EXTRA, "id=" + PrintInt(id), experiment);
    if work > 0 {
      ExperimentField(x, work, experiment);
      ApplyOne(x, "w=" + PrintInt(work), experiment);
      assert parts[3..] == ["id=" + PrintInt(id), "w=" + PrintInt(work)];
      assert parts[3..][1..] == ["w=" + PrintInt(work)];
    } else {
      ApplyOne(NO_EXTRA, "id=" + PrintInt(id), experiment);
      assert parts[3..] == ["id=" + PrintInt(id)];
    }
  }

  lemma ZeroPrints()
    ensures PrintInt(0) == "0"
  {
    assert Print(0) == [DigitOf(0)];
    assert DigitOf(0) == '0';
  }

  // ---------------------------------------------------------------- unknown fields

  predicate Unknown(field: string) {
    var eq := IndexOf(field, '=');
    eq == |field| || (field[..eq] != "ble" && field[..eq] != "w" && field[..eq] != "id")
  }

  lemma {:induction false} ApplySnoc(x: Extra, fields: seq<string>, field: string, experiment: bool)
    ensures ApplyAll(x, fields + [field], experiment) == Apply(ApplyAll(x, fields, experiment), field, experiment)
    decreases |fields|
  {
    if fields == [] {
      ApplyOne(x, field, experiment);
      assert [] + [field] == [field];
    } else {
      assert (fields + [field])[1..] == fields[1..] + [field];
      ApplySnoc(Apply(x, fields[0], experiment), fields[1..], field, experiment);
    }
  }

  /** A field with a key the server does not know changes nothing, so newer apps can talk to older servers. */
  lemma UnknownFieldIgnored(line: string, field: string, experiment: bool)
    requires ',' !in field && Unknown(field)
    requires |Split(line, ',')| >= 3 && !("zone=" <= line)
    ensures Parse(line + "," + field, experiment) == Parse(line, experiment)
  {
    hide FromChars, Atof, ApplyAll;
    var longer := line + [','] + field;
    SplitSnoc(line, ',', field);
    var parts := Split(line, ',');
    assert (parts + [field])[3..] == parts[3..] + [field];
    ApplySnoc(NO_EXTRA, parts[3..], field, experiment);
    assert |line| < 5 ==> longer[|line|] == ',';
    assert |line| >= 5 ==> longer[..5] == line[..5];
    assert line != "" by { if line == "" { SplitNone(line, ','); } }
    assert longer == line + "," + field;
  }

  // ---------------------------------------------------------------- a whole batch

  datatype Report = Fix(user: int, lat5: int, lon5: int, ble: int) | Zone(zone: int, ble: int)

  predicate Sendable(r: Report) {
    && r.ble <= INT32_MAX
    && match r
       case Fix(user, _, _, _) => INT32_MIN <= user <= INT32_MAX
       case Zone(zone, _) => 0 <= zone <= INT32_MAX
  }

  function Line(r: Report): string {
    match r
    case Fix(user, lat5, lon5, ble) => LocationLine(user, lat5, lon5, ble)
    case Zone(zone, ble) => ZoneLine(zone, ble)
  }

  function Meant(r: Report): Msg {
    match r
    case Fix(user, lat5, lon5, ble) =>
      var lat, lon := lat5 as real / 100000.0, lon5 as real / 100000.0;
      if user == 0 then Query(lat, lon, 0, 0) else Location(user, lat, lon, if ble > 0 then ble else 0)
    case Zone(zone, ble) => ZoneReport(zone, if ble < 1 then 1 else ble)
  }

  /** The send buffer of one batch. */
  function Batch(rs: seq<Report>): string {
    if rs == [] then [] else Line(rs[0]) + ['\n'] + Batch(rs[1..])
  }

  lemma {:induction false} JoinIsPlain(parts: seq<string>, c: char)
    requires |parts| >= 1 && c != ',' && forall i :: 0 <= i < |parts| ==> c !in parts[i]
    ensures c !in Join(parts, ',')
  {
    if |parts| > 1 {
      assert forall i :: 0 <= i < |parts[1..]| ==> parts[1..][i] == parts[i + 1];
      JoinIsPlain(parts[1..], c);
    }
  }

  lemma LineIsPlain(r: Report)
    ensures '\n' !in Line(r) && '\r' !in Line(r)
  {
    hide PrintInt, Fixed, Join;
    match r
    case Fix(user, lat5, lon5, ble) =>
      PartsArePlain(user, lat5, lon5, ble);
      JoinIsPlain(LocationParts(user, lat5, lon5, ble), '\n');
      JoinIsPlain(LocationParts(user, lat5, lon5, ble), '\r');
    case Zone(zone, ble) =>
      PrintedIsNumeric(zone, 5);
      PrintedIsNumeric(if ble < 1 then 1 else ble, 5);
  }

  lemma LineMeans(r: Report, experiment: bool)
    requires Sendable(r)
    ensures Parse(Line(r), experiment) == Meant(r)
  {
    match r
    case Fix(user, lat5, lon5, ble) => LocationRoundTrip(user, lat5, lon5, ble, experiment);
    case Zone(zone, ble) => ZoneRoundTrip(zone, ble, experiment);
  }

  lemma {:induction false} BatchLines(rs: seq<Report>)
    ensures |Framing.Lines(Batch(rs))| == |rs|
    ensures forall i :: 0 <= i < |rs| ==> Framing.Lines(Batch(rs))[i] == Line(rs[i])
  {
    hide Line;
    if rs != [] {
      BatchLines(rs[1..]);
      LineIsPlain(rs[0]);
      IndexOfCut(Line(rs[0]), '\n', Batch(rs[1..]));
      assert Framing.Lines(Batch(rs)) == [Line(rs[0])] + Framing.Lines(Batch(rs[1..]));
    }
  }

  /**
   * However the network cuts a batch into packets: once no complete line waits in the buffer, the server has been
   * told exactly the reports the app put in, in order.
   */
  lemma ReportsArrive(rs: seq<Report>, h: seq<Framing.Recv>, experiment: bool)
    requires forall i :: 0 <= i < |rs| ==> Sendable(rs[i])
    requires Framing.Received(h) == Batch(rs) && Framing.NoNewline(Framing.After(h).inbuf)
    ensures var handed := Framing.After(h).handed;
      |handed| == |rs| && forall i :: 0 <= i < |rs| ==> Parse(handed[i], experiment) == Meant(rs[i])
  {
    hide Line, Batch, Parse, Meant, Sendable;
    Framing.HandedIsPrefix(h);
    Framing.NoLine(Framing.After(h).inbuf);
    BatchLines(rs);
    forall i | 0 <= i < |rs| ensures Parse(Framing.After(h).handed[i], experiment) == Meant(rs[i]) {
      LineMeans(rs[i], experiment);
    }
  }
}
