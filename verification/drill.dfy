/** `read_gerber_holes.parse_file_lines`: the holes of an Excellon drill file
    as EasyEDA writes it. Tool definitions `TnnCd.ddd` give diameters in mm, a
    line `Tnn` selects a tool, and `XxxxxxxYyyyyyy` places a hole at
    coordinates in thousandths of a mm. The Python exceptions the scan can
    raise are `Err` values naming the line. */
module Drill {
  import opened Wrappers
  import opened Numerals

  datatype Hole = Hole(x: real, y: real, d: real)

  /** What goes wrong on a line: `line[0]` of an empty line (IndexError), a
      field `int()` or `float()` rejects (ValueError), a tool with no diameter
      (KeyError), and reading the current tool before any line assigned it
      (UnboundLocalError). */
  datatype Fault = EmptyLine | BadInt | BadFloat | NoDiameter | Unbound

  datatype Error = Error(line: nat, fault: Fault)

  /** The scan's variables: the diameter table, the last tool number read,
      the tool holes are drilled with (unassigned until a line without a
      diameter definition), and the holes so far. */
  datatype Scan = Scan(diameters: map<int, real>, tool: int, current: Option<int>, holes: seq<Hole>)

  const Start := Scan(map[], -1, None, [])

  /** `line.find(c)`: the first index of `c`, or -1. */
  function Find(line: string, c: char): (r: int)
    ensures r == -1 <==> c !in line
    ensures r != -1 ==> 0 <= r < |line| && line[r] == c && c !in line[..r]
  {
    if line == [] then -1
    else if line[0] == c then 0
    else
      var r := Find(line[1..], c);
      if r == -1 then -1
      else
        assert line[..r + 1] == [line[0]] + line[1..][..r];
        r + 1
  }

  /** `line[a:b]` for 0 <= a <= b: each bound is clipped to the line. */
  function Slice(line: string, a: nat, b: nat): (r: string)
    requires a <= b
    ensures |r| <= b - a
    ensures b <= |line| ==> r == line[a..b]
    ensures a <= |line| < b ==> r == line[a..]
    ensures |line| <= a ==> r == []
  {
    var hi := if b < |line| then b else |line|;
    var lo := if a < hi then a else hi;
    line[lo..hi]
  }

  /** A tool definition: the diameter field starts right after a 'C' that is
      the first one on the line and sits at index 3. */
  predicate Defines(line: string) {
    Find(line, 'C') == 3
  }

  /** One iteration of the loop over the lines. */
  function Step(st: Scan, line: string): (r: Result<Scan, Fault>)
    ensures line == [] ==> r == Err(EmptyLine)
    ensures r.Ok? ==> st.holes <= r.value.holes && |r.value.holes| <= |st.holes| + 1
    ensures r.Ok? ==> (|r.value.holes| == |st.holes| + 1 <==> line[0] == 'X' && r.value.current != Some(-1))
    ensures r.Ok? && |r.value.holes| > |st.holes| ==>
      && r.value.current.Some?
      && r.value.current.value in r.value.diameters
      && r.value.holes[|st.holes|].d == r.value.diameters[r.value.current.value]
    ensures r.Ok? ==> forall k :: k in st.diameters && k != r.value.tool ==>
      k in r.value.diameters && r.value.diameters[k] == st.diameters[k]
    ensures r.Ok? && !Defines(line) ==> r.value.diameters == st.diameters && r.value.current == Some(r.value.tool)
    ensures r.Ok? && line[0] != 'T' ==> r.value.tool == st.tool
    ensures r == Err(Unbound) ==> line != [] && line[0] == 'X' && Defines(line) && st.current.None?
  {
    if line == [] then Err(EmptyLine)
    else if line[0] == 'T' && ParseInt(Slice(line, 1, 3)).None? then Err(BadInt)
    else
      var tool := if line[0] == 'T' then ParseInt(Slice(line, 1, 3)).value else st.tool;
      if Defines(line) && ParseFloat(Slice(line, 4, |line|)).None? then Err(BadFloat)
      else
        var diameters := if Defines(line) then st.diameters[tool := ParseFloat(Slice(line, 4, |line|)).value] else st.diameters;
        var current := if Defines(line) then st.current else Some(tool);
        var next := Scan(diameters, tool, current, st.holes);
        if line[0] != 'X' then Ok(next)
        else if current.None? then Err(Unbound)
        else if current.value == -1 then Ok(next)
        else if ParseInt(Slice(line, 1, 7)).None? || ParseInt(Slice(line, 8, 14)).None? then Err(BadInt)
        else if current.value !in diameters then Err(NoDiameter)
        else
          var x := ParseInt(Slice(line, 1, 7)).value as real / 1000.0;
          var y := ParseInt(Slice(line, 8, 14)).value as real / 1000.0;
          Ok(next.(holes := st.holes + [Hole(x, y, diameters[current.value])]))
  }

  /** The loop over `lines` from the scan state `st`, stopping at the first
      line that raises. */
  function RunFrom(st: Scan, lines: seq<string>): Result<Scan, Error> {
    if lines == [] then Ok(st)
    else
      match RunFrom(st, lines[..|lines| - 1])
      case Err(e) => Err(e)
      case Ok(prev) =>
        match Step(prev, lines[|lines| - 1])
        case Ok(next) => Ok(next)
        case Err(f) => Err(Error(|lines| - 1, f))
  }

  function Run(lines: seq<string>): Result<Scan, Error> {
    RunFrom(Start, lines)
  }

  /** `parse_file_lines`: the holes in file order, or the first error. */
  function ParseFileLines(lines: seq<string>): Result<seq<Hole>, Error> {
    match Run(lines)
    case Ok(st) => Ok(st.holes)
    case Err(e) => Err(e)
  }

  /** A scan that gets through all the lines got through every prefix, and
      the holes of a prefix come first, unchanged. */
  lemma {:induction false} RunPrefix(st: Scan, lines: seq<string>, k: nat)
    requires k <= |lines| && RunFrom(st, lines).Ok?
    ensures RunFrom(st, lines[..k]).Ok? && RunFrom(st, lines[..k]).value.holes <= RunFrom(st, lines).value.holes
    decreases |lines|
  {
    if k < |lines| {
      var init := lines[..|lines| - 1];
      assert init[..k] == lines[..k];
      RunPrefix(st, init, k);
    } else {
      assert lines[..k] == lines;
    }
  }

  /** An error names the first line that raises: every line before it went
      through, and that line's step fails with the reported fault. */
  lemma {:induction false} FirstError(st: Scan, lines: seq<string>)
    requires RunFrom(st, lines).Err?
    ensures var e := RunFrom(st, lines).error;
      && e.line < |lines|
      && RunFrom(st, lines[..e.line]).Ok?
      && Step(RunFrom(st, lines[..e.line]).value, lines[e.line]) == Err(e.fault)
    decreases |lines|
  {
    var init := lines[..|lines| - 1];
    if RunFrom(st, init).Err? {
      FirstError(st, init);
      var e := RunFrom(st, init).error;
      assert init[..e.line] == lines[..e.line];
      assert init[e.line] == lines[e.line];
    } else {
      assert lines[..|lines| - 1] == init;
    }
  }

  /** At most one hole per line. */
  lemma {:induction false} HolesCounted(st: Scan, lines: seq<string>)
    requires RunFrom(st, lines).Ok?
    ensures |RunFrom(st, lines).value.holes| <= |st.holes| + |lines|
    decreases |lines|
  {
    if lines != [] {
      HolesCounted(st, lines[..|lines| - 1]);
    }
  }

  /** A line that goes through extends a scan that went through. */
  lemma RunSnoc(st: Scan, lines: seq<string>, line: string, mid: Scan, next: Scan)
    requires RunFrom(st, lines) == Ok(mid) && Step(mid, line) == Ok(next)
    ensures RunFrom(st, lines + [line]) == Ok(next)
  {
    var all := lines + [line];
    assert all[..|all| - 1] == lines;
  }

  /** Scanning two runs of lines one after the other is scanning them joined. */
  lemma {:induction false} RunAppend(st: Scan, a: seq<string>, mid: Scan, b: seq<string>)
    requires RunFrom(st, a) == Ok(mid) && RunFrom(mid, b).Ok?
    ensures RunFrom(st, a + b) == RunFrom(mid, b)
    decreases |b|
  {
    if b == [] {
      assert a + b == a;
    } else {
      var init := b[..|b| - 1];
      assert (a + b)[..|a + b| - 1] == a + init;
      assert (a + b)[|a + b| - 1] == b[|b| - 1];
      RunAppend(st, a, mid, init);
    }
  }

  /** A tool: its number (two digits) and its diameter in micrometres. */
  datatype Tool = Tool(num: nat, microns: nat)

  /** A hole position in micrometres, as the six-digit fields hold it. */
  datatype Spot = Spot(x: nat, y: nat)

  predicate ValidTool(t: Tool) {
    t.num < 100
  }

  predicate ValidSpot(p: Spot) {
    p.x < 1_000_000 && p.y < 1_000_000
  }

  /** `TnnCd.ddd`: a tool definition with the diameter in mm to three places. */
  function DefineLine(t: Tool): string
    requires ValidTool(t)
  {
    "T" + Pad(t.num, 2) + "C" + Millimetres(t.microns) + "\n"
  }

  /** A length in micrometres written in mm with three decimals. */
  function Millimetres(m: nat): string {
    Digits(m / 1000) + "." + Pad(m % 1000, 3)
  }

  /** `Tnn`: select a tool. */
  function SelectLine(n: nat): string
    requires n < 100
  {
    "T" + Pad(n, 2) + "\n"
  }

  /** `XxxxxxxYyyyyyy`: a hole. */
  function SpotLine(p: Spot): string
    requires ValidSpot(p)
  {
    "X" + Pad(p.x, 6) + "Y" + Pad(p.y, 6) + "\n"
  }

  function Micro(v: nat): real {
    v as real / 1000.0
  }

  /** A definition line records the tool's diameter and selects nothing. */
  lemma DefineStep(st: Scan, t: Tool)
    requires ValidTool(t)
    ensures Step(st, DefineLine(t)) == Ok(st.(diameters := st.diameters[t.num := Micro(t.microns)], tool := t.num))
  {
    DefineFields(t);
    StepDefine(st, DefineLine(t), t.num, Micro(t.microns));
  }

  /** The fields of a definition line read back as the tool's number and
      diameter. */
  lemma DefineFields(t: Tool)
    requires ValidTool(t)
    ensures var line := DefineLine(t);
      && line != [] && line[0] == 'T' && Defines(line)
      && ParseInt(Slice(line, 1, 3)) == Some(t.num as int)
      && ParseFloat(Slice(line, 4, |line|)) == Some(Micro(t.microns))
  {
    NoC(Pad(t.num, 2));
    DefineShape(Pad(t.num, 2), Millimetres(t.microns));
    ParsePad(t.num, 2);
    ParseMillimetres(t.microns);
  }

  /** `float()` reads a written diameter back, newline and all. */
  lemma ParseMillimetres(m: nat)
    ensures ParseFloat(Millimetres(m) + "\n") == Some(Micro(m))
  {
    ParseFraction(Digits(m / 1000), Pad(m % 1000, 3));
    DecimalOf(m / 1000, m % 1000, 3);
    MicroSplit(m);
  }

  /** Where the fields of `Ta` + `C` + `b` lie, for a two-character `a`. */
  lemma DefineShape(a: string, b: string)
    requires |a| == 2 && 'C' !in a
    ensures var line := "T" + a + "C" + b + "\n";
      && line[0] == 'T' && Find(line, 'C') == 3
      && Slice(line, 1, 3) == a && Slice(line, 4, |line|) == b + "\n"
  {
    var line := "T" + a + "C" + b + "\n";
    assert line[..3] == "T" + a;
    assert line[3] == 'C';
  }

  lemma NoC(s: string)
    requires AllDigits(s)
    ensures 'C' !in s
  {
    assert forall i :: 0 <= i < |s| ==> s[i] != 'C';
  }

  /** `Step` on any line whose fields define tool `n` with diameter `d`. */
  lemma StepDefine(st: Scan, line: string, n: int, d: real)
    requires line != [] && line[0] == 'T' && Defines(line)
    requires ParseInt(Slice(line, 1, 3)) == Some(n) && ParseFloat(Slice(line, 4, |line|)) == Some(d)
    ensures Step(st, line) == Ok(st.(diameters := st.diameters[n := d], tool := n))
  {
  }

  lemma MicroSplit(m: nat)
    ensures (m / 1000) as real + (m % 1000) as real / Pow10(3) as real == Micro(m)
  {
    assert Pow10(3) == 1000;
    assert m == 1000 * (m / 1000) + m % 1000;
  }

  /** A selection line makes its tool the current one. */
  lemma SelectStep(st: Scan, n: nat)
    requires n < 100
    ensures Step(st, SelectLine(n)) == Ok(st.(tool := n, current := Some(n)))
  {
    NoC(Pad(n, 2));
    SelectShape(Pad(n, 2));
    ParsePad(n, 2);
    StepSelect(st, SelectLine(n), n);
  }

  lemma SelectShape(a: string)
    requires |a| == 2 && 'C' !in a
    ensures var line := "T" + a + "\n";
      line[0] == 'T' && 'C' !in line && Slice(line, 1, 3) == a
  {
    var line := "T" + a + "\n";
    assert line == ['T', a[0], a[1], '\n'];
  }

  /** `Step` on any line that starts with 'T', has no 'C' and names tool `n`. */
  lemma StepSelect(st: Scan, line: string, n: int)
    requires line != [] && line[0] == 'T' && 'C' !in line && ParseInt(Slice(line, 1, 3)) == Some(n)
    ensures Step(st, line) == Ok(st.(tool := n, current := Some(n)))
  {
  }

  /** A hole line drills a hole with the current tool's diameter. */
  lemma SpotStep(st: Scan, p: Spot)
    requires ValidSpot(p) && 0 <= st.tool && st.tool in st.diameters
    ensures Step(st, SpotLine(p))
         == Ok(st.(current := Some(st.tool), holes := st.holes + [Hole(Micro(p.x), Micro(p.y), st.diameters[st.tool])]))
  {
    SpotFields(p);
    StepSpot(st, SpotLine(p), p.x, p.y);
  }

  /** The fields of a hole line read back as its coordinates. */
  lemma SpotFields(p: Spot)
    requires ValidSpot(p)
    ensures var line := SpotLine(p);
      && line != [] && line[0] == 'X' && 'C' !in line
      && ParseInt(Slice(line, 1, 7)) == Some(p.x as int) && ParseInt(Slice(line, 8, 14)) == Some(p.y as int)
  {
    NoC(Pad(p.x, 6));
    NoC(Pad(p.y, 6));
    SpotShape(Pad(p.x, 6), Pad(p.y, 6));
    ParsePad(p.x, 6);
    ParsePad(p.y, 6);
  }

  /** `Step` on any line that starts with 'X', has no 'C' and whose fields
      hold `x` and `y`, with a tool selected that has a diameter. */
  lemma StepSpot(st: Scan, line: string, x: int, y: int)
    requires line != [] && line[0] == 'X' && 'C' !in line
    requires ParseInt(Slice(line, 1, 7)) == Some(x) && ParseInt(Slice(line, 8, 14)) == Some(y)
    requires 0 <= st.tool && st.tool in st.diameters
    ensures Step(st, line)
         == Ok(st.(current := Some(st.tool), holes := st.holes + [Hole(x as real / 1000.0, y as real / 1000.0, st.diameters[st.tool])]))
  {
  }

  /** Where the fields of `Xa` + `Yb` lie, for six-character `a` and `b`. */
  lemma SpotShape(a: string, b: string)
    requires |a| == 6 && |b| == 6 && 'C' !in a && 'C' !in b
    ensures var line := "X" + a + "Y" + b + "\n";
      line[0] == 'X' && 'C' !in line && Slice(line, 1, 7) == a && Slice(line, 8, 14) == b
  {
    var line := "X" + a + "Y" + b + "\n";
    assert line[1..7] == a;
    assert line[8..14] == b;
    assert forall i :: 1 <= i < 7 ==> line[i] == a[i - 1];
    assert forall i :: 8 <= i < 14 ==> line[i] == b[i - 8];
    assert forall i :: 0 <= i < |line| ==> line[i] != 'C';
  }

  /** A block of holes drilled with one tool: its selection line, then one
      line per hole. */
  datatype Section = Section(tool: nat, spots: seq<Spot>)

  predicate ValidSection(sec: Section) {
    sec.tool < 100 && forall i :: 0 <= i < |sec.spots| ==> ValidSpot(sec.spots[i])
  }

  function DefineLines(ts: seq<Tool>): seq<string>
    requires forall i :: 0 <= i < |ts| ==> ValidTool(ts[i])
  {
    if ts == [] then [] else DefineLines(ts[..|ts| - 1]) + [DefineLine(ts[|ts| - 1])]
  }

  function SpotLines(ps: seq<Spot>): seq<string>
    requires forall i :: 0 <= i < |ps| ==> ValidSpot(ps[i])
  {
    if ps == [] then [] else SpotLines(ps[..|ps| - 1]) + [SpotLine(ps[|ps| - 1])]
  }

  function BodyLines(secs: seq<Section>): seq<string>
    requires forall i :: 0 <= i < |secs| ==> ValidSection(secs[i])
  {
    if secs == [] then []
    else
      assert ValidSection(secs[|secs| - 1]);
      BodyLines(secs[..|secs| - 1]) + SectionLines(secs[|secs| - 1])
  }

  /** A section's selection line and hole lines. */
  function SectionLines(sec: Section): seq<string>
    requires ValidSection(sec)
  {
    [SelectLine(sec.tool)] + SpotLines(sec.spots)
  }

  /** A drill file: the tool definitions, then the sections. */
  function DrillFile(ts: seq<Tool>, secs: seq<Section>): seq<string>
    requires forall i :: 0 <= i < |ts| ==> ValidTool(ts[i])
    requires forall i :: 0 <= i < |secs| ==> ValidSection(secs[i])
  {
    DefineLines(ts) + BodyLines(secs)
  }

  /** The diameter of each tool number, in mm: a later definition of the same
      number replaces an earlier one. */
  function Diameters(ts: seq<Tool>): map<int, real> {
    if ts == [] then map[]
    else
      var t := ts[|ts| - 1];
      Diameters(ts[..|ts| - 1])[t.num := Micro(t.microns)]
  }

  /** The holes of a section's spots, all drilled with diameter `d`. */
  function SpotHoles(ps: seq<Spot>, d: real): seq<Hole> {
    if ps == [] then [] else SpotHoles(ps[..|ps| - 1], d) + [Hole(Micro(ps[|ps| - 1].x), Micro(ps[|ps| - 1].y), d)]
  }

  /** The holes the sections describe, each with its section's diameter. */
  function BodyHoles(secs: seq<Section>, ds: map<int, real>): seq<Hole>
    requires forall i :: 0 <= i < |secs| ==> secs[i].tool in ds
  {
    if secs == [] then []
    else
      var sec := secs[|secs| - 1];
      BodyHoles(secs[..|secs| - 1], ds) + SpotHoles(sec.spots, ds[sec.tool])
  }

  /** The definitions fill the diameter table and change neither the
      current tool nor the holes. */
  lemma {:induction false} DefinesRun(st: Scan, ts: seq<Tool>)
    requires forall i :: 0 <= i < |ts| ==> ValidTool(ts[i])
    ensures RunFrom(st, DefineLines(ts)) == Ok(st.(diameters := st.diameters + Diameters(ts), tool := Last(st.tool, ts)))
    decreases |ts|
  {
    if ts == [] {
      assert st.diameters + Diameters(ts) == st.diameters;
    } else {
      DefinesRun(st, ts[..|ts| - 1]);
      DefinesSnoc(st, ts);
    }
  }

  /** The tool number the last definition selected, `tool` if there is none. */
  function Last(tool: int, ts: seq<Tool>): int {
    if ts == [] then tool else ts[|ts| - 1].num
  }

  lemma DefinesSnoc(st: Scan, ts: seq<Tool>)
    requires ts != [] && forall i :: 0 <= i < |ts| ==> ValidTool(ts[i])
    requires var init := ts[..|ts| - 1];
      RunFrom(st, DefineLines(init)) == Ok(st.(diameters := st.diameters + Diameters(init), tool := Last(st.tool, init)))
    ensures RunFrom(st, DefineLines(ts)) == Ok(st.(diameters := st.diameters + Diameters(ts), tool := Last(st.tool, ts)))
  {
    var init, t := ts[..|ts| - 1], ts[|ts| - 1];
    var mid := st.(diameters := st.diameters + Diameters(init), tool := Last(st.tool, init));
    DefineStep(mid, t);
    RunSnoc(st, DefineLines(init), DefineLine(t), mid, mid.(diameters := mid.diameters[t.num := Micro(t.microns)], tool := t.num));
    DiametersSnoc(st.diameters, ts);
  }

  lemma DiametersSnoc(m: map<int, real>, ts: seq<Tool>)
    requires ts != []
    ensures var t := ts[|ts| - 1];
      (m + Diameters(ts[..|ts| - 1]))[t.num := Micro(t.microns)] == m + Diameters(ts)
  {
  }

  /** The hole lines of a section each drill one hole with the selected tool. */
  lemma {:induction false} SpotsRun(st: Scan, ps: seq<Spot>)
    requires forall i :: 0 <= i < |ps| ==> ValidSpot(ps[i])
    requires 0 <= st.tool && st.tool in st.diameters && st.current == Some(st.tool)
    ensures RunFrom(st, SpotLines(ps)) == Ok(st.(holes := st.holes + SpotHoles(ps, st.diameters[st.tool])))
    decreases |ps|
  {
    if ps == [] {
      assert st.holes + SpotHoles(ps, st.diameters[st.tool]) == st.holes;
    } else {
      var init := ps[..|ps| - 1];
      var lines := SpotLines(ps);
      assert lines[..|lines| - 1] == SpotLines(init);
      SpotsRun(st, init);
      var d := st.diameters[st.tool];
      var mid := st.(holes := st.holes + SpotHoles(init, d));
      var h := Hole(Micro(ps[|ps| - 1].x), Micro(ps[|ps| - 1].y), d);
      SpotStep(mid, ps[|ps| - 1]);
      assert lines[|lines| - 1] == SpotLine(ps[|ps| - 1]);
      assert RunFrom(st, lines) == Ok(mid.(current := Some(st.tool), holes := mid.holes + [h]));
      assert SpotHoles(ps, d) == SpotHoles(init, d) + [h];
      assert mid.holes + [h] == st.holes + SpotHoles(ps, d);
    }
  }

  /** A section selects its tool and drills its holes with that tool's diameter. */
  lemma SectionRun(st: Scan, sec: Section)
    requires ValidSection(sec) && sec.tool in st.diameters
    ensures RunFrom(st, SectionLines(sec))
         == Ok(st.(tool := sec.tool, current := Some(sec.tool),
                   holes := st.holes + SpotHoles(sec.spots, st.diameters[sec.tool])))
  {
    var sel := st.(tool := sec.tool, current := Some(sec.tool));
    SelectStep(st, sec.tool);
    assert [SelectLine(sec.tool)][..0] == [];
    assert RunFrom(st, [SelectLine(sec.tool)]) == Ok(sel);
    SpotsRun(sel, sec.spots);
    RunAppend(st, [SelectLine(sec.tool)], sel, SpotLines(sec.spots));
  }

  /** The sections, in order, drill their holes; the diameter table is not
      touched. */
  lemma {:induction false} BodyRun(st: Scan, secs: seq<Section>)
    requires forall i :: 0 <= i < |secs| ==> ValidSection(secs[i]) && secs[i].tool in st.diameters
    ensures RunFrom(st, BodyLines(secs)) == Ok(Selected(st, secs).(holes := st.holes + BodyHoles(secs, st.diameters)))
    decreases |secs|
  {
    if secs == [] {
      assert st.holes + BodyHoles(secs, st.diameters) == st.holes;
    } else {
      BodyRun(st, secs[..|secs| - 1]);
      BodySnoc(st, secs);
    }
  }

  /** The scan with the last section's tool selected, `st` if there is none. */
  function Selected(st: Scan, secs: seq<Section>): Scan {
    if secs == [] then st
    else st.(tool := secs[|secs| - 1].tool, current := Some(secs[|secs| - 1].tool))
  }

  lemma BodySnoc(st: Scan, secs: seq<Section>)
    requires secs != [] && forall i :: 0 <= i < |secs| ==> ValidSection(secs[i]) && secs[i].tool in st.diameters
    requires var init := secs[..|secs| - 1];
      RunFrom(st, BodyLines(init)) == Ok(Selected(st, init).(holes := st.holes + BodyHoles(init, st.diameters)))
    ensures RunFrom(st, BodyLines(secs)) == Ok(Selected(st, secs).(holes := st.holes + BodyHoles(secs, st.diameters)))
  {
    var init, sec := secs[..|secs| - 1], secs[|secs| - 1];
    var mid := Selected(st, init).(holes := st.holes + BodyHoles(init, st.diameters));
    SectionRun(mid, sec);
    SectionState(st, secs);
    RunJoin(st, BodyLines(init), SectionLines(sec), mid,
            Selected(st, secs).(holes := st.holes + BodyHoles(secs, st.diameters)));
  }

  /** What a section does to the scan after the sections before it. */
  lemma SectionState(st: Scan, secs: seq<Section>)
    requires secs != [] && forall i :: 0 <= i < |secs| ==> secs[i].tool in st.diameters
    ensures var init, sec := secs[..|secs| - 1], secs[|secs| - 1];
      var mid := Selected(st, init).(holes := st.holes + BodyHoles(init, st.diameters));
      mid.(tool := sec.tool, current := Some(sec.tool), holes := mid.holes + SpotHoles(sec.spots, mid.diameters[sec.tool]))
      == Selected(st, secs).(holes := st.holes + BodyHoles(secs, st.diameters))
  {
    HolesSnoc(st.holes, secs, st.diameters);
  }

  /** Two scans that go through, one after the other. */
  lemma RunJoin(st: Scan, a: seq<string>, b: seq<string>, mid: Scan, last: Scan)
    requires RunFrom(st, a) == Ok(mid) && RunFrom(mid, b) == Ok(last)
    ensures RunFrom(st, a + b) == Ok(last)
  {
    RunAppend(st, a, mid, b);
  }

  lemma HolesSnoc(holes: seq<Hole>, secs: seq<Section>, ds: map<int, real>)
    requires secs != [] && forall i :: 0 <= i < |secs| ==> secs[i].tool in ds
    ensures var sec := secs[|secs| - 1];
      holes + BodyHoles(secs[..|secs| - 1], ds) + SpotHoles(sec.spots, ds[sec.tool]) == holes + BodyHoles(secs, ds)
  {
    var init, sec := secs[..|secs| - 1], secs[|secs| - 1];
    var a, b := BodyHoles(init, ds), SpotHoles(sec.spots, ds[sec.tool]);
    assert BodyHoles(secs, ds) == a + b;
    assert holes + a + b == holes + (a + b);
  }

  /** Round trip: a drill file written from tool definitions and sections
      that use only defined tools parses back to the holes of the sections, in
      order, each with the diameter its tool was last defined with. */
  lemma DrillRoundTrip(ts: seq<Tool>, secs: seq<Section>)
    requires forall i :: 0 <= i < |ts| ==> ValidTool(ts[i])
    requires forall i :: 0 <= i < |secs| ==> ValidSection(secs[i]) && secs[i].tool in Diameters(ts)
    ensures ParseFileLines(DrillFile(ts, secs)) == Ok(BodyHoles(secs, Diameters(ts)))
  {
    var mid := Start.(diameters := Start.diameters + Diameters(ts), tool := Last(Start.tool, ts));
    assert mid.diameters == Diameters(ts);
    DefinesRun(Start, ts);
    BodyRun(mid, secs);
    var last := Selected(mid, secs).(holes := mid.holes + BodyHoles(secs, mid.diameters));
    RunJoin(Start, DefineLines(ts), BodyLines(secs), mid, last);
    assert last.holes == BodyHoles(secs, Diameters(ts));
  }
}
