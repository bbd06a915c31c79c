/**
 * The parsing part of `get_gpu_metrics`: the telemetry tool prints one
 * comma-separated, header-less line per device; each line with at least
 * seven fields becomes one record, shorter lines are skipped, and a field
 * that does not convert to a number makes the whole call yield `None`.
 *
 * Running the tool is outside the model: its outcome is the `ToolResult`
 * input.  Python's `float()` is the parameter `parseNum`, so records are
 * generic in the number type `N`.
 */
module Telemetry {
  import opened Wrappers
  import opened Text

  /** Fields a line needs to become a record: index and six numeric readings. */
  const FieldCount := 7

  datatype DeviceMetrics<N> = DeviceMetrics(
    index: string,      // field 0, kept as text
    utilGpu: N,         // field 1
    memUsed: N,         // field 2
    memTotal: N,        // field 3
    powerDraw: N,       // field 4
    powerLimit: N,      // field 5
    temp: N)            // field 6

  /** What running the telemetry tool produced. */
  datatype ToolResult =
    | ToolMissing              // the executable is not on the search path
    | ToolFailed               // the run raised (non-zero exit, I/O error, ...)
    | ToolOutput(stdout: string)

  /** The numeric field a record took from position `j` (1 to 6) of its line. */
  function NumericField<N>(m: DeviceMetrics<N>, j: int): N
    requires 1 <= j < FieldCount
  {
    if j == 1 then m.utilGpu
    else if j == 2 then m.memUsed
    else if j == 3 then m.memTotal
    else if j == 4 then m.powerDraw
    else if j == 5 then m.powerLimit
    else m.temp
  }

  /** The comma-separated fields of one line, each stripped of surrounding whitespace. */
  function Fields(line: string): seq<string> {
    var raw := Split(line, ',');
    seq(|raw|, i requires 0 <= i < |raw| => Strip(raw[i]))
  }

  /**
   * A line has one more field than it has commas; no field holds a comma,
   * and none begins or ends with whitespace.
   */
  lemma FieldsShape(line: string)
    ensures |Fields(line)| == Occurrences(line, ',') + 1
    ensures forall i :: 0 <= i < |Fields(line)| ==> ',' !in Fields(line)[i]
    ensures forall i :: 0 <= i < |Fields(line)| ==>
      Fields(line)[i] == [] || (!IsSpace(Fields(line)[i][0]) && !IsSpace(Fields(line)[i][|Fields(line)[i]| - 1]))
  {
    var raw, parts := Split(line, ','), Fields(line);
    forall i | 0 <= i < |parts| ensures ',' !in parts[i] {
      var lead := LeadingSpaces(raw[i]);
      SliceAvoids(raw[i], ',', lead, lead + |parts[i]|);
    }
  }

  /** A line long enough to become a record. */
  predicate Complete(line: string) {
    |Fields(line)| >= FieldCount
  }

  /** The lines the parser works on: the stripped output split at newlines. */
  function Lines(stdout: string): (lines: seq<string>)
    ensures Join(lines, '\n') == Strip(stdout)
    ensures forall i :: 0 <= i < |lines| ==> '\n' !in lines[i]
  {
    JoinSplit(Strip(stdout), '\n');
    Split(Strip(stdout), '\n')
  }

  /**
   * One record from the fields of a complete line: present exactly when all
   * six numeric fields convert; it keeps field 0 unconverted and ignores any
   * field after the seventh.
   */
  function ParseRecord<N>(parts: seq<string>, parseNum: string -> Option<N>): (r: Option<DeviceMetrics<N>>)
    requires |parts| >= FieldCount
    ensures r.Some? <==> forall j :: 1 <= j < FieldCount ==> parseNum(parts[j]).Some?
    ensures r.Some? ==> r.value.index == parts[0]
    ensures r.Some? ==> forall j :: 1 <= j < FieldCount ==> parseNum(parts[j]) == Some(NumericField(r.value, j))
  {
    var u, mu, mt, pd, pl, t :=
      parseNum(parts[1]), parseNum(parts[2]), parseNum(parts[3]),
      parseNum(parts[4]), parseNum(parts[5]), parseNum(parts[6]);
    if u.Some? && mu.Some? && mt.Some? && pd.Some? && pl.Some? && t.Some? then
      Some(DeviceMetrics(parts[0], u.value, mu.value, mt.value, pd.value, pl.value, t.value))
    else
      None
  }

  /**
   * The records of `lines`, in order, or `None` if any complete line fails to
   * convert.  There are never more records than lines.
   */
  function ParseLines<N>(lines: seq<string>, parseNum: string -> Option<N>): (r: Option<seq<DeviceMetrics<N>>>)
    ensures r.Some? ==> |r.value| <= |lines|
    decreases |lines|
  {
    if |lines| == 0 then Some([])
    else if !Complete(lines[0]) then ParseLines(lines[1..], parseNum)
    else
      match ParseRecord(Fields(lines[0]), parseNum)
      case None => None
      case Some(m) => PrependAll([m], ParseLines(lines[1..], parseNum))
  }

  /**
   * The result of one telemetry query: `None` whenever the tool is missing or
   * fails, and otherwise at most one record per output line.
   */
  function Metrics<N>(tool: ToolResult, parseNum: string -> Option<N>): (r: Option<seq<DeviceMetrics<N>>>)
    ensures !tool.ToolOutput? ==> r.None?
    ensures r.Some? ==> tool.ToolOutput? && |r.value| <= |Lines(tool.stdout)|
  {
    match tool
    case ToolMissing => None
    case ToolFailed => None
    case ToolOutput(out) => ParseLines(Lines(out), parseNum)
  }

  /**
   * The positions, from `k` on, of the complete lines: increasing, and
   * holding every complete line at or after `k` and nothing else.
   */
  function KeptFrom(lines: seq<string>, k: nat): (pos: seq<nat>)
    requires k <= |lines|
    ensures |pos| <= |lines| - k
    ensures forall i :: 0 <= i < |pos| ==> k <= pos[i] < |lines| && Complete(lines[pos[i]])
    ensures forall i, j :: 0 <= i < j < |pos| ==> pos[i] < pos[j]
    ensures forall p :: k <= p < |lines| && Complete(lines[p]) ==> p in pos
    decreases |lines| - k
  {
    if k == |lines| then []
    else if Complete(lines[k]) then [k] + KeptFrom(lines, k + 1)
    else KeptFrom(lines, k + 1)
  }

  /** What `ParseLines` does with the line at position `k`. */
  lemma ParseLinesStep<N>(lines: seq<string>, k: nat, parseNum: string -> Option<N>)
    requires k < |lines|
    ensures !Complete(lines[k]) ==> ParseLines(lines[k..], parseNum) == ParseLines(lines[k + 1..], parseNum)
    ensures Complete(lines[k]) && ParseRecord(Fields(lines[k]), parseNum).None? ==>
      ParseLines(lines[k..], parseNum).None?
    ensures Complete(lines[k]) && ParseRecord(Fields(lines[k]), parseNum).Some? ==>
      ParseLines(lines[k..], parseNum) ==
      PrependAll([ParseRecord(Fields(lines[k]), parseNum).value], ParseLines(lines[k + 1..], parseNum))
  {
    assert lines[k..][0] == lines[k];
    assert lines[k..][1..] == lines[k + 1..];
  }

  /**
   * A successful parse has one record per complete line, in line order, each
   * built from that line's fields; so there are never more records than lines.
   */
  lemma {:induction false} ParsedRecordsFollowLines<N>(lines: seq<string>, k: nat, parseNum: string -> Option<N>)
    requires k <= |lines|
    requires ParseLines(lines[k..], parseNum).Some?
    ensures var rs, pos := ParseLines(lines[k..], parseNum).value, KeptFrom(lines, k);
      && |rs| == |pos| <= |lines| - k
      && forall i :: 0 <= i < |rs| ==> ParseRecord(Fields(lines[pos[i]]), parseNum) == Some(rs[i])
    decreases |lines| - k
  {
    if k < |lines| {
      ParseLinesStep(lines, k, parseNum);
      ParsedRecordsFollowLines(lines, k + 1, parseNum);
      var rest, pos := ParseLines(lines[k + 1..], parseNum).value, KeptFrom(lines, k + 1);
      if Complete(lines[k]) {
        var m := ParseRecord(Fields(lines[k]), parseNum).value;
        assert ParseLines(lines[k..], parseNum).value == [m] + rest;
        assert KeptFrom(lines, k) == [k] + pos;
      }
    }
  }

  /** The whole query fails exactly when some complete line has a field that does not convert. */
  lemma {:induction false} ParseFailsOnBadField<N>(lines: seq<string>, parseNum: string -> Option<N>)
    ensures ParseLines(lines, parseNum).None? <==>
      exists k :: 0 <= k < |lines| && Complete(lines[k]) && ParseRecord(Fields(lines[k]), parseNum).None?
    decreases |lines|
  {
    if |lines| > 0 {
      ParseFailsOnBadField(lines[1..], parseNum);
      if exists k :: 1 <= k < |lines| && Complete(lines[k]) && ParseRecord(Fields(lines[k]), parseNum).None? {
        var k :| 1 <= k < |lines| && Complete(lines[k]) && ParseRecord(Fields(lines[k]), parseNum).None?;
        assert lines[1..][k - 1] == lines[k];
      }
      if exists k :: 0 <= k < |lines| - 1 && Complete(lines[1..][k]) && ParseRecord(Fields(lines[1..][k]), parseNum).None? {
        var k :| 0 <= k < |lines| - 1 && Complete(lines[1..][k]) && ParseRecord(Fields(lines[1..][k]), parseNum).None?;
        assert lines[1..][k] == lines[k + 1];
      }
    }
  }

  /**
   * A query yields `None` exactly when the tool is missing or fails, or when
   * a complete line of its output has a field that does not convert.
   */
  lemma QueryFailsExactly<N>(tool: ToolResult, parseNum: string -> Option<N>)
    ensures Metrics(tool, parseNum).None? <==>
      || !tool.ToolOutput?
      || exists k :: 0 <= k < |Lines(tool.stdout)| && Complete(Lines(tool.stdout)[k])
                     && ParseRecord(Fields(Lines(tool.stdout)[k]), parseNum).None?
  {
    if tool.ToolOutput? {
      ParseFailsOnBadField(Lines(tool.stdout), parseNum);
    }
  }

  /** A batch without a single complete line yields an empty list, not `None`. */
  lemma {:induction false} NoCompleteLineNoRecords<N>(lines: seq<string>, parseNum: string -> Option<N>)
    requires forall k :: 0 <= k < |lines| ==> !Complete(lines[k])
    ensures ParseLines(lines, parseNum) == Some([])
    decreases |lines|
  {
    if |lines| > 0 {
      assert forall k :: 0 <= k < |lines| - 1 ==> lines[1..][k] == lines[k + 1];
      NoCompleteLineNoRecords(lines[1..], parseNum);
    }
  }

  /** A line too short to be a record changes nothing, wherever it stands among the others. */
  lemma {:induction false} ShortLineIgnored<N>(before: seq<string>, line: string, after: seq<string>, parseNum: string -> Option<N>)
    requires !Complete(line)
    ensures ParseLines(before + [line] + after, parseNum) == ParseLines(before + after, parseNum)
    decreases |before|
  {
    if |before| == 0 {
      assert (before + [line] + after)[1..] == after;
      assert before + after == after;
    } else {
      ShortLineIgnored(before[1..], line, after, parseNum);
      assert (before + [line] + after)[1..] == before[1..] + [line] + after;
      assert (before + after)[1..] == before[1..] + after;
    }
  }

  /** Output that is empty or all whitespace yields an empty list, not `None`. */
  lemma BlankOutputHasNoRecords<N>(stdout: string, parseNum: string -> Option<N>)
    requires AllSpace(stdout)
    ensures Metrics(ToolOutput(stdout), parseNum) == Some([])
  {
    assert Lines(stdout) == [""];
    assert Split("", ',') == [""];
    assert Strip("") == "";
    assert Fields("") == [""];
    assert ParseLines([""], parseNum) == ParseLines([""][1..], parseNum);
  }

  /**
   * `get_gpu_metrics` after the tool has run: the loop over the lines that
   * appends one record per complete line and gives up on the first field
   * that does not convert.
   */
  method GetGpuMetrics<N>(tool: ToolResult, parseNum: string -> Option<N>) returns (r: Option<seq<DeviceMetrics<N>>>)
    ensures r == Metrics(tool, parseNum)
  {
    if !tool.ToolOutput? {
      return None;
    }
    var lines := Lines(tool.stdout);
    var metrics: seq<DeviceMetrics<N>> := [];
    var i := 0;
    while i < |lines|
      invariant 0 <= i <= |lines|
      invariant ParseLines(lines, parseNum) == PrependAll(metrics, ParseLines(lines[i..], parseNum))
    {
      ParseLinesStep(lines, i, parseNum);
      var parts := Fields(lines[i]);
      if |parts| >= FieldCount {
        var rec := ParseRecord(parts, parseNum);
        if rec.None? {
          return None;
        }
        PrependAllTwice(metrics, [rec.value], ParseLines(lines[i + 1..], parseNum));
        metrics := metrics + [rec.value];
      }
      i := i + 1;
    }
    assert lines[i..] == [] && metrics + [] == metrics;
    return Some(metrics);
  }
}
