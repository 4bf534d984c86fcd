/** The SerDes transmitter section (decoder.go): lanes zipped with a header. */
module SerDes {
  import opened Wrappers
  import opened Model
  import opened Text
  import opened Envelope
  import opened LaneReadings
  import Ordering

  const HEADER := "Serdes TX parameters"
  const LANE_PREFIX := "Lane "
  const DRIVE := "drv_amp"

  /** The allowlist: a FIR parameter's tap, "" for the drive amplitude. */
  function Parameter(name: string): Option<string> {
    if name == "fir_pre3" then Some("pre3")
    else if name == "fir_pre2" then Some("pre2")
    else if name == "fir_pre1" then Some("pre1")
    else if name == "fir_main" then Some("main")
    else if name == "fir_post1" then Some("post1")
    else if name == DRIVE then Some("")
    else None
  }

  lemma ParameterInjective(a: string, b: string)
    requires Parameter(a).Some? && Parameter(a) == Parameter(b)
    ensures a == b
  {
    assert "pre3"[3] != "pre2"[3] && "pre3"[3] != "pre1"[3] && "pre2"[3] != "pre1"[3];
    assert "main"[0] != "pre3"[0] && "main"[0] != "pre2"[0] && "main"[0] != "pre1"[0];
  }

  predicate IsLaneKey(key: string) { LANE_PREFIX <= key }

  predicate Distinct(names: seq<string>) {
    forall i, j | 0 <= i < j < |names| :: names[i] != names[j]
  }

  function TrimAll(names: seq<string>): seq<string> {
    seq(|names|, i requires 0 <= i < |names| => TrimSpace(names[i]))
  }

  /** The trimmed header, if it names at least one parameter and none twice. */
  function Header(sec: Section): Option<seq<string>> {
    var names := RawValues(sec, HEADER);
    if names.None? || names.value == [] || !Distinct(TrimAll(names.value)) then None
    else Some(TrimAll(names.value))
  }

  /** The key is a well-formed row for this lane, one value per parameter. */
  ghost predicate Row(sec: Section, width: nat, key: string, lane: nat, values: seq<string>) {
    && key in sec && IsLaneKey(key)
    && NumberedKey(key, LANE_PREFIX) == Some(lane)
    && RawValues(sec, key) == Some(values)
    && |values| == width
  }

  /** Every lane key is a row, and no two rows share a lane number. */
  ghost predicate RowsWellFormed(sec: Section, width: nat) {
    && (forall key | key in sec && IsLaneKey(key) ::
          NumberedKey(key, LANE_PREFIX).Some? && RawValues(sec, key).Some? && |RawValues(sec, key).value| == width)
    && (forall k, l | k in sec && IsLaneKey(k) && l in sec && IsLaneKey(l) && k != l ::
          NumberedKey(k, LANE_PREFIX) != NumberedKey(l, LANE_PREFIX))
  }

  /** Every allowlisted parameter of the row is a finite number. */
  ghost predicate RowReadable(float: FloatReader, parameters: seq<string>, values: seq<string>)
    requires |parameters| == |values|
  {
    forall i | 0 <= i < |parameters| && Parameter(parameters[i]).Some? :: ReadFloat(float, values[i]).Some?
  }

  /** Column i of a readable row holds this value. */
  ghost predicate Cell(float: FloatReader, sec: Section, parameters: seq<string>, lane: nat, i: nat, value: real) {
    && i < |parameters|
    && exists key, values ::
         && Row(sec, |parameters|, key, lane, values)
         && RowReadable(float, parameters, values)
         && ReadFloat(float, values[i]) == Some(value)
  }

  ghost predicate FIREntry(float: FloatReader, sec: Section, parameters: seq<string>, e: FIRCoefficient) {
    exists i: nat ::
      && i < |parameters| && parameters[i] != DRIVE && Parameter(parameters[i]) == Some(e.tap)
      && Cell(float, sec, parameters, e.lane, i, e.value)
  }

  ghost predicate DriveEntry(float: FloatReader, sec: Section, parameters: seq<string>, e: LaneValue) {
    exists i: nat :: i < |parameters| && parameters[i] == DRIVE && Cell(float, sec, parameters, e.lane, i, e.value)
  }

  predicate FIRLess(a: FIRCoefficient, b: FIRCoefficient) {
    a.lane < b.lane || (a.lane == b.lane && Less(a.tap, b.tap))
  }

  /**
   What the section says: nothing unless header and rows are well formed;
   otherwise exactly the allowlisted cells of the readable rows, by (lane, tap).
   */
  ghost predicate IsTuning(float: FloatReader, sec: Option<Section>, r: SerDesTX) {
    if sec.None? || Header(sec.value).None? || !RowsWellFormed(sec.value, |Header(sec.value).value|)
    then r == NO_SERDES
    else
      var parameters := Header(sec.value).value;
      && Ordering.Increasing(FIRLess, r.firCoefficients)
      && Ordering.Increasing(LaneLess, r.driveAmplitude)
      && (forall e :: e in r.firCoefficients <==> FIREntry(float, sec.value, parameters, e))
      && (forall e :: e in r.driveAmplitude <==> DriveEntry(float, sec.value, parameters, e))
  }

  lemma FIRLessStrictWeak()
    ensures Ordering.StrictWeak(FIRLess)
  {
    forall x, y | FIRLess(x, y) ensures !FIRLess(y, x) {
      LessTrichotomy(x.tap, y.tap);
    }
    forall x, y, z | !FIRLess(x, y) && !FIRLess(y, z) ensures !FIRLess(x, z) {
      LessTrichotomy(x.tap, y.tap);
      LessTrichotomy(y.tap, z.tap);
      LessTrichotomy(x.tap, z.tap);
      if Less(z.tap, y.tap) && Less(y.tap, x.tap) {
        LessTransitive(z.tap, y.tap, x.tap);
      }
    }
  }

  /** The section has one meaning, whatever order its keys are visited in. */
  lemma TuningUnique(float: FloatReader, sec: Option<Section>, a: SerDesTX, b: SerDesTX)
    requires IsTuning(float, sec, a) && IsTuning(float, sec, b)
    ensures a == b
  {
    if sec.Some? && Header(sec.value).Some? && RowsWellFormed(sec.value, |Header(sec.value).value|) {
      FIRLessStrictWeak();
      Ordering.IncreasingUnique(FIRLess, a.firCoefficients, b.firCoefficients);
      Ordering.IncreasingUnique(LaneLess, a.driveAmplitude, b.driveAmplitude);
    }
  }

  // ----- the decoder -----

  method SerDesHeader(sec: Section) returns (parameters: Option<seq<string>>)
    ensures parameters == Header(sec)
  {
    var raw := RawValues(sec, HEADER);
    if raw.None? || raw.value == [] { return None; }
    var names := raw.value;
    var trimmed: seq<string> := [];
    var seen: set<string> := {};
    for i := 0 to |names|
      invariant trimmed == TrimAll(names)[..i]
      invariant Distinct(trimmed)
      invariant forall name :: name in seen <==> name in trimmed
    {
      var name := TrimSpace(names[i]);
      assert TrimAll(names)[i] == name;
      if name in seen {
        return None;
      }
      seen := seen + {name};
      trimmed := trimmed + [name];
    }
    assert trimmed == TrimAll(names);
    return Some(trimmed);
  }

  /** The rows gathered so far, indexed by lane. */
  ghost predicate RowsGathered(sec: Section, width: nat, visited: set<string>, lanes: map<nat, seq<string>>) {
    && visited <= sec.Keys
    && (forall key | key in visited && IsLaneKey(key) ::
          var lane := NumberedKey(key, LANE_PREFIX);
          lane.Some? && lane.value in lanes && Row(sec, width, key, lane.value, lanes[lane.value]))
    && (forall lane | lane in lanes :: exists key | key in visited :: Row(sec, width, key, lane, lanes[lane]))
    && (forall k, l | k in visited && IsLaneKey(k) && l in visited && IsLaneKey(l) && k != l ::
          NumberedKey(k, LANE_PREFIX) != NumberedKey(l, LANE_PREFIX))
  }

  method SerDesLanes(sec: Section, width: nat) returns (ok: bool, lanes: map<nat, seq<string>>)
    ensures ok <==> RowsWellFormed(sec, width)
    ensures ok ==> RowsGathered(sec, width, sec.Keys, lanes)
  {
    lanes := map[];
    var remaining := sec.Keys;
    ghost var visited: set<string> := {};
    while remaining != {}
      invariant visited + remaining == sec.Keys && visited !! remaining
      invariant RowsGathered(sec, width, visited, lanes)
    {
      var key :| key in remaining;
      remaining := remaining - {key};
      if IsLaneKey(key) {
        var lane := NumberedKey(key, LANE_PREFIX);
        if lane.None? { return false, map[]; }
        if lane.value in lanes {
          assert exists other | other in visited :: Row(sec, width, other, lane.value, lanes[lane.value]);
          return false, map[];
        }
        var values := RawValues(sec, key);
        if values.None? || |values.value| != width { return false, map[]; }
        GatherRow(sec, width, visited, lanes, key, lane.value, values.value);
        lanes := lanes[lane.value := values.value];
      }
      visited := visited + {key};
    }
    assert visited == sec.Keys;
    ok := true;
  }

  lemma GatherRow(sec: Section, width: nat, visited: set<string>, lanes: map<nat, seq<string>>,
                  key: string, lane: nat, values: seq<string>)
    requires RowsGathered(sec, width, visited, lanes) && key !in visited
    requires Row(sec, width, key, lane, values) && lane !in lanes
    ensures RowsGathered(sec, width, visited + {key}, lanes[lane := values])
  {
    var now, after := visited + {key}, lanes[lane := values];
    forall l | l in after ensures exists k | k in now :: Row(sec, width, k, l, after[l]) {
      if l == lane {
        assert key in now && Row(sec, width, key, l, after[l]);
      } else {
        var k :| k in visited && Row(sec, width, k, l, lanes[l]);
        assert k in now && Row(sec, width, k, l, after[l]);
      }
    }
  }

  /** The allowlisted values of a readable row, by parameter name. */
  ghost predicate KnownValues(float: FloatReader, parameters: seq<string>, values: seq<string>, n: nat, known: map<string, real>)
    requires n <= |parameters| == |values|
  {
    && (forall i | 0 <= i < n && Parameter(parameters[i]).Some? ::
          parameters[i] in known && ReadFloat(float, values[i]) == Some(known[parameters[i]]))
    && (forall name | name in known :: exists i | 0 <= i < n :: parameters[i] == name && Parameter(name).Some?)
  }

  method SerDesKnownValues(float: FloatReader, parameters: seq<string>, values: seq<string>)
    returns (known: Option<map<string, real>>)
    requires |parameters| == |values| && Distinct(parameters)
    ensures known.Some? <==> RowReadable(float, parameters, values)
    ensures known.Some? ==> KnownValues(float, parameters, values, |parameters|, known.value)
  {
    var found: map<string, real> := map[];
    for i := 0 to |parameters|
      invariant KnownValues(float, parameters, values, i, found)
    {
      var parameter := parameters[i];
      if Parameter(parameter).Some? {
        var value := ReadFloat(float, values[i]);
        if value.None? { return None; }
        KnowOne(float, parameters, values, i, found, value.value);
        found := found[parameter := value.value];
      } else {
        assert parameters[i] !in found;
      }
    }
    return Some(found);
  }

  lemma KnowOne(float: FloatReader, parameters: seq<string>, values: seq<string>, i: nat, known: map<string, real>, value: real)
    requires i < |parameters| == |values| && Distinct(parameters)
    requires KnownValues(float, parameters, values, i, known)
    requires Parameter(parameters[i]).Some? && ReadFloat(float, values[i]) == Some(value)
    ensures KnownValues(float, parameters, values, i + 1, known[parameters[i] := value])
  {
    hide ReadFloat, Parameter;
    var after := known[parameters[i] := value];
    forall name | name in after
      ensures exists k | 0 <= k < i + 1 :: parameters[k] == name && Parameter(name).Some?
    {
      if name == parameters[i] {
        assert parameters[i] == name;
      } else {
        var k :| 0 <= k < i && parameters[k] == name && Parameter(name).Some?;
        assert parameters[k] == name;
      }
    }
  }

  /** One readable row contributes this coefficient. */
  ghost predicate RowFIR(float: FloatReader, parameters: seq<string>, values: seq<string>, tap: string, value: real)
    requires |parameters| == |values|
  {
    && RowReadable(float, parameters, values)
    && exists i: nat | i < |parameters| ::
         parameters[i] != DRIVE && Parameter(parameters[i]) == Some(tap) && ReadFloat(float, values[i]) == Some(value)
  }

  ghost predicate RowDrive(float: FloatReader, parameters: seq<string>, values: seq<string>, value: real)
    requires |parameters| == |values|
  {
    && RowReadable(float, parameters, values)
    && exists i: nat | i < |parameters| :: parameters[i] == DRIVE && ReadFloat(float, values[i]) == Some(value)
  }

  ghost predicate Comparable<T(!new)>(less: (T, T) -> bool, s: seq<T>) {
    forall i, j | 0 <= i < j < |s| :: less(s[i], s[j]) || less(s[j], s[i])
  }

  /** The cells of the finished lanes, in no particular order. */
  ghost predicate CellsGathered(float: FloatReader, parameters: seq<string>, lanes: map<nat, seq<string>>,
                                done: set<nat>, r: SerDesTX)
    requires forall lane | lane in lanes :: |lanes[lane]| == |parameters|
    requires done <= lanes.Keys
  {
    && (forall e :: e in r.firCoefficients
          <==> e.lane in done && RowFIR(float, parameters, lanes[e.lane], e.tap, e.value))
    && (forall e :: e in r.driveAmplitude
          <==> e.lane in done && RowDrive(float, parameters, lanes[e.lane], e.value))
    && Comparable(FIRLess, r.firCoefficients)
    && Comparable(LaneLess, r.driveAmplitude)
  }

  /** What one lane's known values append, in whatever order the map is walked. */
  ghost predicate LaneCells(lane: nat, known: map<string, real>, names: set<string>, r: SerDesTX) {
    && (forall e :: e in r.firCoefficients
          <==> e.lane == lane && exists name | name in names :: KnownFIR(known, name, e))
    && (forall e :: e in r.driveAmplitude
          <==> e.lane == lane && DRIVE in names && DRIVE in known && e.value == known[DRIVE])
    && Comparable(FIRLess, r.firCoefficients)
    && Comparable(LaneLess, r.driveAmplitude)
  }

  ghost predicate KnownFIR(known: map<string, real>, name: string, e: FIRCoefficient) {
    name in known && name != DRIVE && Parameter(name) == Some(e.tap) && known[name] == e.value
  }

  method SerDesLane(lane: nat, known: map<string, real>) returns (r: SerDesTX)
    requires forall name | name in known :: Parameter(name).Some?
    ensures LaneCells(lane, known, known.Keys, r)
  {
    r := NO_SERDES;
    var remaining := known.Keys;
    ghost var done: set<string> := {};
    while remaining != {}
      invariant done + remaining == known.Keys && done !! remaining
      invariant LaneCells(lane, known, done, r)
    {
      var name :| name in remaining;
      remaining := remaining - {name};
      ghost var before := r;
      if name == DRIVE {
        NoDriveBefore(lane, known, done, r);
        r := r.(driveAmplitude := r.driveAmplitude + [LaneValue(lane, known[name])]);
        AppendDrive(lane, known, done, before, r);
      } else {
        r := r.(firCoefficients := r.firCoefficients + [FIRCoefficient(lane, Parameter(name).value, known[name])]);
        AppendFIR(lane, known, done, before, r, name);
      }
      done := done + {name};
    }
    assert done == known.Keys;
  }

  lemma NoDriveBefore(lane: nat, known: map<string, real>, done: set<string>, r: SerDesTX)
    requires LaneCells(lane, known, done, r)
    ensures r.driveAmplitude != [] ==> DRIVE in done
  {
    if r.driveAmplitude != [] {
      assert r.driveAmplitude[0] in r.driveAmplitude;
    }
  }

  lemma AppendDrive(lane: nat, known: map<string, real>, done: set<string>, before: SerDesTX, after: SerDesTX)
    requires LaneCells(lane, known, done, before) && DRIVE in known && before.driveAmplitude == []
    requires after == before.(driveAmplitude := [LaneValue(lane, known[DRIVE])])
    ensures LaneCells(lane, known, done + {DRIVE}, after)
  {
    forall e ensures e in after.firCoefficients
        <==> e.lane == lane && exists n | n in done + {DRIVE} :: KnownFIR(known, n, e)
    {
      if e.lane == lane && exists n | n in done + {DRIVE} :: KnownFIR(known, n, e) {
        var n :| n in done + {DRIVE} && KnownFIR(known, n, e);
        assert n in done;
      }
    }
  }

  lemma AppendFIR(lane: nat, known: map<string, real>, done: set<string>, before: SerDesTX, after: SerDesTX, name: string)
    requires LaneCells(lane, known, done, before)
    requires name in known && name !in done && name != DRIVE && Parameter(name).Some?
    requires after == before.(firCoefficients := before.firCoefficients + [FIRCoefficient(lane, Parameter(name).value, known[name])])
    ensures LaneCells(lane, known, done + {name}, after)
  {
    var added := FIRCoefficient(lane, Parameter(name).value, known[name]);
    assert KnownFIR(known, name, added);
    forall e ensures e in after.firCoefficients
        <==> e.lane == lane && exists n | n in done + {name} :: KnownFIR(known, n, e)
    {
      if e in before.firCoefficients {
        var n :| n in done && KnownFIR(known, n, e);
        assert n in done + {name} && KnownFIR(known, n, e);
      }
      if e == added {
        assert name in done + {name} && KnownFIR(known, name, e);
      }
      if e.lane == lane && exists n | n in done + {name} :: KnownFIR(known, n, e) {
        var n :| n in done + {name} && KnownFIR(known, n, e);
        if n == name { assert e == added; } else { assert n in done && KnownFIR(known, n, e); }
      }
    }
    forall i | 0 <= i < |before.firCoefficients|
      ensures FIRLess(before.firCoefficients[i], added) || FIRLess(added, before.firCoefficients[i])
    {
      var e := before.firCoefficients[i];
      assert e in before.firCoefficients;
      var n :| n in done && KnownFIR(known, n, e);
      if e.tap == added.tap { ParameterInjective(n, name); }
      LessTrichotomy(e.tap, added.tap);
    }
  }

  method DecodeSerDesTX(float: FloatReader, sec: Option<Section>) returns (r: SerDesTX)
    ensures IsTuning(float, sec, r)
  {
    if sec.None? { return NO_SERDES; }
    var header := SerDesHeader(sec.value);
    if header.None? { return NO_SERDES; }
    var parameters := header.value;
    var ok, lanes := SerDesLanes(sec.value, |parameters|);
    if !ok { return NO_SERDES; }
    var unsorted := GatherCells(float, parameters, lanes);
    r := SortTuning(unsorted);
    CellsAreEntries(float, sec.value, parameters, lanes, unsorted);
  }

  method GatherCells(float: FloatReader, parameters: seq<string>, lanes: map<nat, seq<string>>) returns (r: SerDesTX)
    requires Distinct(parameters)
    requires forall lane | lane in lanes :: |lanes[lane]| == |parameters|
    ensures CellsGathered(float, parameters, lanes, lanes.Keys, r)
  {
    r := NO_SERDES;
    var remaining := lanes.Keys;
    ghost var done: set<nat> := {};
    while remaining != {}
      invariant done + remaining == lanes.Keys && done !! remaining
      invariant CellsGathered(float, parameters, lanes, done, r)
    {
      var lane :| lane in remaining;
      remaining := remaining - {lane};
      var known := SerDesKnownValues(float, parameters, lanes[lane]);
      if known.Some? {
        ghost var before := r;
        var cells := SerDesLane(lane, known.value);
        r := SerDesTX(r.firCoefficients + cells.firCoefficients, r.driveAmplitude + cells.driveAmplitude);
        LaneIsRow(float, parameters, lanes[lane], lane, known.value, cells);
        GatherLane(float, parameters, lanes, done, before, lane, cells, r);
      } else {
        SkipLane(float, parameters, lanes, done, r, lane);
      }
      done := done + {lane};
    }
    assert done == lanes.Keys;
  }

  method SortTuning(unsorted: SerDesTX) returns (r: SerDesTX)
    requires Comparable(FIRLess, unsorted.firCoefficients) && Comparable(LaneLess, unsorted.driveAmplitude)
    ensures Ordering.Increasing(FIRLess, r.firCoefficients) && Ordering.Increasing(LaneLess, r.driveAmplitude)
    ensures forall e :: e in r.firCoefficients <==> e in unsorted.firCoefficients
    ensures forall e :: e in r.driveAmplitude <==> e in unsorted.driveAmplitude
  {
    FIRLessStrictWeak();
    var fir := Ordering.Sort(FIRLess, unsorted.firCoefficients);
    var drive := Ordering.Sort(LaneLess, unsorted.driveAmplitude);
    r := SerDesTX(fir, drive);
    Ordering.PermutedComparable(FIRLess, unsorted.firCoefficients, fir);
    Ordering.OrderedDistinct(FIRLess, fir);
    Ordering.PermutedComparable(LaneLess, unsorted.driveAmplitude, drive);
    Ordering.OrderedDistinct(LaneLess, drive);
  }

  /** The cells appended for a readable lane are exactly its row's. */
  lemma LaneIsRow(float: FloatReader, parameters: seq<string>, values: seq<string>, lane: nat,
                  known: map<string, real>, cells: SerDesTX)
    requires |parameters| == |values| && RowReadable(float, parameters, values)
    requires KnownValues(float, parameters, values, |parameters|, known)
    requires LaneCells(lane, known, known.Keys, cells)
    ensures forall e :: e in cells.firCoefficients <==> e.lane == lane && RowFIR(float, parameters, values, e.tap, e.value)
    ensures forall e :: e in cells.driveAmplitude <==> e.lane == lane && RowDrive(float, parameters, values, e.value)
  {
    forall e ensures e in cells.firCoefficients <==> e.lane == lane && RowFIR(float, parameters, values, e.tap, e.value)
    {
      if e in cells.firCoefficients {
        var name :| name in known && KnownFIR(known, name, e);
        var i :| 0 <= i < |parameters| && parameters[i] == name;
        assert ReadFloat(float, values[i]) == Some(e.value);
      }
      if e.lane == lane && RowFIR(float, parameters, values, e.tap, e.value) {
        var i: nat :| i < |parameters| && parameters[i] != DRIVE
                      && Parameter(parameters[i]) == Some(e.tap) && ReadFloat(float, values[i]) == Some(e.value);
        assert KnownFIR(known, parameters[i], e);
      }
    }
    forall e ensures e in cells.driveAmplitude <==> e.lane == lane && RowDrive(float, parameters, values, e.value)
    {
      if e in cells.driveAmplitude {
        var i :| 0 <= i < |parameters| && parameters[i] == DRIVE;
        assert ReadFloat(float, values[i]) == Some(e.value);
      }
    }
  }

  lemma GatherLane(float: FloatReader, parameters: seq<string>, lanes: map<nat, seq<string>>, done: set<nat>,
                   before: SerDesTX, lane: nat, cells: SerDesTX, after: SerDesTX)
    requires forall l | l in lanes :: |lanes[l]| == |parameters|
    requires lane in lanes && lane !in done && done <= lanes.Keys
    requires CellsGathered(float, parameters, lanes, done, before)
    requires forall e :: e in cells.firCoefficients
                   <==> e.lane == lane && RowFIR(float, parameters, lanes[lane], e.tap, e.value)
    requires forall e :: e in cells.driveAmplitude
                   <==> e.lane == lane && RowDrive(float, parameters, lanes[lane], e.value)
    requires Comparable(FIRLess, cells.firCoefficients) && Comparable(LaneLess, cells.driveAmplitude)
    requires after == SerDesTX(before.firCoefficients + cells.firCoefficients, before.driveAmplitude + cells.driveAmplitude)
    ensures CellsGathered(float, parameters, lanes, done + {lane}, after)
  {
    var a, b := before.firCoefficients, cells.firCoefficients;
    forall i, j | 0 <= i < |a| && 0 <= j < |b| ensures FIRLess(a[i], b[j]) || FIRLess(b[j], a[i]) {
      assert a[i] in a && b[j] in b;
    }
    var c, d := before.driveAmplitude, cells.driveAmplitude;
    forall i, j | 0 <= i < |c| && 0 <= j < |d| ensures LaneLess(c[i], d[j]) || LaneLess(d[j], c[i]) {
      assert c[i] in c && d[j] in d;
    }
  }

  lemma SkipLane(float: FloatReader, parameters: seq<string>, lanes: map<nat, seq<string>>, done: set<nat>,
                 r: SerDesTX, lane: nat)
    requires forall l | l in lanes :: |lanes[l]| == |parameters|
    requires lane in lanes && done <= lanes.Keys
    requires CellsGathered(float, parameters, lanes, done, r)
    requires !RowReadable(float, parameters, lanes[lane])
    ensures CellsGathered(float, parameters, lanes, done + {lane}, r)
  {
  }

  /** Cells of the lane map are cells of the section: the map is one-to-one with its rows. */
  lemma CellsAreEntries(float: FloatReader, sec: Section, parameters: seq<string>,
                        lanes: map<nat, seq<string>>, r: SerDesTX)
    requires RowsGathered(sec, |parameters|, sec.Keys, lanes)
    requires CellsGathered(float, parameters, lanes, lanes.Keys, r)
    ensures forall e :: e in r.firCoefficients <==> FIREntry(float, sec, parameters, e)
    ensures forall e :: e in r.driveAmplitude <==> DriveEntry(float, sec, parameters, e)
  {
    forall lane: nat, i: nat, value | i < |parameters|
      ensures Cell(float, sec, parameters, lane, i, value)
         <==> lane in lanes && RowReadable(float, parameters, lanes[lane]) && ReadFloat(float, lanes[lane][i]) == Some(value)
    {
      CellInLanes(float, sec, parameters, lanes, lane, i, value);
    }
    forall e ensures e in r.firCoefficients <==> FIREntry(float, sec, parameters, e) {
      if e in r.firCoefficients {
        var i: nat :| i < |parameters| && parameters[i] != DRIVE && Parameter(parameters[i]) == Some(e.tap)
                      && ReadFloat(float, lanes[e.lane][i]) == Some(e.value);
        assert Cell(float, sec, parameters, e.lane, i, e.value);
      }
      if FIREntry(float, sec, parameters, e) {
        var i: nat :| i < |parameters| && parameters[i] != DRIVE && Parameter(parameters[i]) == Some(e.tap)
                      && Cell(float, sec, parameters, e.lane, i, e.value);
        assert RowFIR(float, parameters, lanes[e.lane], e.tap, e.value);
      }
    }
    forall e ensures e in r.driveAmplitude <==> DriveEntry(float, sec, parameters, e) {
      if e in r.driveAmplitude {
        var i: nat :| i < |parameters| && parameters[i] == DRIVE && ReadFloat(float, lanes[e.lane][i]) == Some(e.value);
        assert Cell(float, sec, parameters, e.lane, i, e.value);
      }
      if DriveEntry(float, sec, parameters, e) {
        var i: nat :| i < |parameters| && parameters[i] == DRIVE && Cell(float, sec, parameters, e.lane, i, e.value);
        assert RowDrive(float, parameters, lanes[e.lane], e.value);
      }
    }
  }

  lemma CellInLanes(float: FloatReader, sec: Section, parameters: seq<string>,
                    lanes: map<nat, seq<string>>, lane: nat, i: nat, value: real)
    requires RowsGathered(sec, |parameters|, sec.Keys, lanes) && i < |parameters|
    ensures Cell(float, sec, parameters, lane, i, value)
       <==> lane in lanes && RowReadable(float, parameters, lanes[lane]) && ReadFloat(float, lanes[lane][i]) == Some(value)
  {
    if Cell(float, sec, parameters, lane, i, value) {
      var key, values :| Row(sec, |parameters|, key, lane, values)
                         && RowReadable(float, parameters, values) && ReadFloat(float, values[i]) == Some(value);
      assert key in sec.Keys && IsLaneKey(key);
      assert values == lanes[lane];
    }
    if lane in lanes {
      var key :| key in sec.Keys && Row(sec, |parameters|, key, lane, lanes[lane]);
    }
  }

  // ----- consequences -----

  /** Surviving lanes all carry the same taps, so families never disagree on lanes. */
  lemma SameTaps(float: FloatReader, sec: Option<Section>, r: SerDesTX, a: FIRCoefficient, b: FIRCoefficient)
    requires IsTuning(float, sec, r) && a in r.firCoefficients && b in r.firCoefficients
    ensures exists c :: c in r.firCoefficients && c.lane == b.lane && c.tap == a.tap
  {
    hide Parameter, Cell, Header, Ordering.Increasing;
    var parameters := Header(sec.value).value;
    var i: nat :| i < |parameters| && parameters[i] != DRIVE && Parameter(parameters[i]) == Some(a.tap)
                  && Cell(float, sec.value, parameters, a.lane, i, a.value);
    var j: nat :| j < |parameters| && parameters[j] != DRIVE && Parameter(parameters[j]) == Some(b.tap)
                  && Cell(float, sec.value, parameters, b.lane, j, b.value);
    var value := CellBeside(float, sec.value, parameters, b.lane, j, b.value, i);
    var c := FIRCoefficient(b.lane, a.tap, value);
    assert FIREntry(float, sec.value, parameters, c);
  }

  /** A readable row has a value in every allowlisted column. */
  lemma CellBeside(float: FloatReader, sec: Section, parameters: seq<string>, lane: nat, j: nat, found: real, i: nat)
    returns (value: real)
    requires Cell(float, sec, parameters, lane, j, found)
    requires i < |parameters| && Parameter(parameters[i]).Some?
    ensures Cell(float, sec, parameters, lane, i, value)
  {
    var key, values :| Row(sec, |parameters|, key, lane, values)
                       && RowReadable(float, parameters, values) && ReadFloat(float, values[j]) == Some(found);
    value := ReadFloat(float, values[i]).value;
    assert Row(sec, |parameters|, key, lane, values);
  }

  // ----- which sections are read at all -----

  /**
   The header is a list of at least one name, none twice once trimmed; every key
   that begins with "Lane " goes on with a number, no two with the same one, and
   lists one value per name.
   */
  ghost predicate UsableTable(sec: Section) {
    && "Serdes TX parameters" in sec && sec["Serdes TX parameters"].Values?
    && var names := sec["Serdes TX parameters"].items;
    && names != []
    && (forall i, j | 0 <= i < j < |names| :: TrimSpace(names[i]) != TrimSpace(names[j]))
    && (forall key | key in sec && "Lane " <= key ::
          sec[key].Values? && |sec[key].items| == |names| && exists n: nat :: Numbers(key, "Lane ", n))
    && (forall k, l, n: nat | k in sec && l in sec && k != l :: !(Numbers(k, "Lane ", n) && Numbers(l, "Lane ", n)))
  }

  lemma RowsUsable(sec: Section, width: nat)
    ensures RowsWellFormed(sec, width)
       <==> && (forall key | key in sec && "Lane " <= key ::
                  sec[key].Values? && |sec[key].items| == width && exists n: nat :: Numbers(key, "Lane ", n))
            && (forall k, l, n: nat | k in sec && l in sec && k != l :: !(Numbers(k, "Lane ", n) && Numbers(l, "Lane ", n)))
  {
    hide Numbers, NumberedKey;
    forall key, n: nat ensures "Lane " <= key && NumberedKey(key, "Lane ") == Some(n) <==> Numbers(key, "Lane ", n) {
      NumberedKeyExactly(key, "Lane ", n);
    }
    if RowsWellFormed(sec, width) {
      forall key | key in sec && "Lane " <= key ensures exists n: nat :: Numbers(key, "Lane ", n) {
        assert Numbers(key, "Lane ", NumberedKey(key, "Lane ").value);
      }
    }
  }

  /** Any value comes only from a usable section; a section that is not one tells nothing. */
  lemma UsableExactly(float: FloatReader, sec: Section, r: SerDesTX)
    requires IsTuning(float, Some(sec), r)
    ensures UsableTable(sec) <==> Header(sec).Some? && RowsWellFormed(sec, |Header(sec).value|)
    ensures !UsableTable(sec) ==> r == NO_SERDES
  {
    hide RowsWellFormed, Numbers, TrimSpace;
    if "Serdes TX parameters" in sec && sec["Serdes TX parameters"].Values? {
      var names := sec["Serdes TX parameters"].items;
      assert forall i | 0 <= i < |names| :: TrimAll(names)[i] == TrimSpace(names[i]);
    }
    if Header(sec).Some? {
      RowsUsable(sec, |Header(sec).value|);
    }
  }

  // ----- the vendor encoding survives a round trip -----

  function LaneKey(lane: nat): string { "Lane " + Decimal(lane) }

  /** The taps the vendor names, and "" for the drive amplitude. */
  const TAPS: set<string> := {"pre3", "pre2", "pre1", "main", "post1", ""}

  /** The vendor's column for a tap. */
  function ColumnName(tap: string): string {
    if tap == "" then "drv_amp" else "fir_" + tap
  }

  lemma ColumnNames()
    ensures ColumnName("pre3") == "fir_pre3" && ColumnName("pre2") == "fir_pre2" && ColumnName("pre1") == "fir_pre1"
    ensures ColumnName("main") == "fir_main" && ColumnName("post1") == "fir_post1" && ColumnName("") == "drv_amp"
  {
    assert "fir_" + "pre3" == "fir_pre3" && "fir_" + "pre2" == "fir_pre2" && "fir_" + "pre1" == "fir_pre1";
    assert "fir_" + "main" == "fir_main" && "fir_" + "post1" == "fir_post1";
  }

  /** A column is decoded exactly when it bears one of the six names, and then as the tap it names. */
  lemma DecodedColumns(name: string, tap: string)
    ensures Parameter(name) == Some(tap) <==> tap in TAPS && name == ColumnName(tap)
    ensures Parameter(name).Some?
       <==> name in {"fir_pre3", "fir_pre2", "fir_pre1", "fir_main", "fir_post1", "drv_amp"}
  {
    ColumnNames();
    assert "pre3"[3] != "pre2"[3] && "pre3"[3] != "pre1"[3] && "pre2"[3] != "pre1"[3];
    assert "main"[0] != "pre3"[0] && "main"[0] != "pre2"[0] && "main"[0] != "pre1"[0];
    assert "fir_pre3"[7] != "fir_pre2"[7] && "fir_pre3"[7] != "fir_pre1"[7] && "fir_pre2"[7] != "fir_pre1"[7];
    assert "fir_main"[4] == 'm' && "fir_pre3"[4] == 'p' && "fir_pre2"[4] == 'p' && "fir_pre1"[4] == 'p';
    if Parameter(name) == Some(tap) {
      assert tap in TAPS && name == ColumnName(tap);
    }
  }

  /** Within a lane the taps come in this order. */
  lemma TapOrder()
    ensures Less("main", "post1") && Less("post1", "pre1") && Less("pre1", "pre2") && Less("pre2", "pre3")
  {
    assert "main"[0] == 'm' && "post1"[0] == 'p' && "pre1"[0] == 'p' && "pre2"[0] == 'p' && "pre3"[0] == 'p';
    assert "post1"[1..] == "ost1" && "pre1"[1..] == "re1" && "pre2"[1..] == "re2" && "pre3"[1..] == "re3";
    assert "re1"[1..] == "e1" && "re2"[1..] == "e2" && "re3"[1..] == "e3";
    assert "e1"[1..] == "1" && "e2"[1..] == "2" && "e3"[1..] == "3";
  }

  /** A tuning table: per lane and tap a number or a gap, the drive amplitude under the empty tap. */
  type Table = map<nat, map<string, Option<real>>>

  /** The header has the vendor's column for the tap. */
  ghost predicate HasTap(parameters: seq<string>, tap: string) {
    tap in TAPS && exists i: nat | i < |parameters| :: parameters[i] == ColumnName(tap)
  }

  lemma HasParameter(parameters: seq<string>, tap: string) returns (i: nat)
    requires HasTap(parameters, tap)
    ensures i < |parameters| && Parameter(parameters[i]) == Some(tap)
  {
    i :| i < |parameters| && parameters[i] == ColumnName(tap);
    DecodedColumns(parameters[i], tap);
  }

  /** A number prints so that it can be read, with any padding; a gap is any text that does not read as a number. */
  ghost predicate EncodesCell(float: FloatReader, show: real -> string, text: string, cell: Option<real>) {
    match cell
    case Some(v) => TrimSpace(text) == TrimSpace(show(v)) && float(TrimSpace(show(v))) == Some(v)
    case None => float(TrimSpace(text)).None?
  }

  lemma CellReads(float: FloatReader, show: real -> string, text: string, cell: Option<real>)
    requires EncodesCell(float, show, text, cell)
    ensures ReadFloat(float, text) == cell
  {
  }

  /** One text per column: the columns of the six names encode their tap's cell; the rest hold anything. */
  ghost predicate EncodesRow(float: FloatReader, show: real -> string, parameters: seq<string>,
                             row: map<string, Option<real>>, items: Option<seq<string>>) {
    && items.Some? && |items.value| == |parameters|
    && (forall i, tap | 0 <= i < |parameters| && tap in TAPS && parameters[i] == ColumnName(tap) ::
          tap in row && EncodesCell(float, show, items.value[i], row[tap]))
    && forall tap | tap in row :: HasTap(parameters, tap)
  }

  lemma RowParameter(float: FloatReader, show: real -> string, parameters: seq<string>,
                     row: map<string, Option<real>>, texts: seq<string>, i: nat)
    requires EncodesRow(float, show, parameters, row, Some(texts))
    requires i < |parameters| && Parameter(parameters[i]).Some?
    ensures Parameter(parameters[i]).value in row
    ensures ReadFloat(float, texts[i]) == row[Parameter(parameters[i]).value]
  {
    hide ReadFloat, Parameter, ColumnName, EncodesCell;
    var tap := Parameter(parameters[i]).value;
    DecodedColumns(parameters[i], tap);
    CellReads(float, show, texts[i], row[tap]);
  }

  ghost predicate PaddedNames(names: Option<seq<string>>, parameters: seq<string>) {
    && names.Some? && |names.value| == |parameters|
    && forall i | 0 <= i < |parameters| :: TrimSpace(names.value[i]) == parameters[i]
  }

  /** A section for the table: columns in any order among any vendor columns, a row per lane and no other lane. */
  ghost predicate EncodesTable(float: FloatReader, show: real -> string, sec: Section, parameters: seq<string>, table: Table) {
    && PaddedNames(RawValues(sec, "Serdes TX parameters"), parameters)
    && (forall lane | lane in table ::
          && lane < INT_LIMIT && LaneKey(lane) in sec
          && EncodesRow(float, show, parameters, table[lane], RawValues(sec, LaneKey(lane))))
    && (forall key | key in sec && "Lane " <= key :: exists lane | lane in table :: key == LaneKey(lane))
  }

  /** A lane with a gap anywhere is left out. */
  predicate Complete(row: map<string, Option<real>>) {
    forall tap | tap in row :: row[tap].Some?
  }

  /** The numbers of the table's complete lanes as sorted lists. */
  ghost predicate Lists(table: Table, r: SerDesTX) {
    && Ordering.Increasing(FIRLess, r.firCoefficients)
    && Ordering.Increasing(LaneLess, r.driveAmplitude)
    && (forall e :: e in r.firCoefficients <==> ListedFIR(table, e))
    && (forall e :: e in r.driveAmplitude <==> ListedDrive(table, e))
  }

  predicate ListedFIR(table: Table, e: FIRCoefficient) {
    e.lane in table && Complete(table[e.lane]) && e.tap != "" && e.tap in table[e.lane] && table[e.lane][e.tap] == Some(e.value)
  }

  predicate ListedDrive(table: Table, e: LaneValue) {
    e.lane in table && Complete(table[e.lane]) && "" in table[e.lane] && table[e.lane][""] == Some(e.value)
  }

  /** The texts of the table's rows, as the section holds them. */
  ghost function RowTexts(sec: Section, table: Table): map<nat, seq<string>>
    requires forall lane | lane in table :: RawValues(sec, LaneKey(lane)).Some?
  {
    map lane | lane in table :: RawValues(sec, LaneKey(lane)).value
  }

  lemma TableRows(float: FloatReader, show: real -> string, sec: Section, parameters: seq<string>, table: Table)
    requires EncodesTable(float, show, sec, parameters, table)
    ensures RowsGathered(sec, |parameters|, sec.Keys, RowTexts(sec, table)) && RowsWellFormed(sec, |parameters|)
  {
    var rows := RowTexts(sec, table);
    forall lane | lane in table ensures Row(sec, |parameters|, LaneKey(lane), lane, rows[lane]) {
      NumberedKeyPrints(LANE_PREFIX, lane);
    }
    forall key | key in sec && IsLaneKey(key)
      ensures exists lane :: lane in table && key == LaneKey(lane) && Row(sec, |parameters|, key, lane, rows[lane])
    {
      var lane :| lane in table && key == LaneKey(lane);
    }
  }

  /** The decoder finds a row readable exactly when the lane has no gap. */
  lemma RowComplete(float: FloatReader, show: real -> string, parameters: seq<string>,
                    row: map<string, Option<real>>, texts: seq<string>)
    requires EncodesRow(float, show, parameters, row, Some(texts))
    ensures |texts| == |parameters| && (RowReadable(float, parameters, texts) <==> Complete(row))
    ensures forall i | 0 <= i < |parameters| && Parameter(parameters[i]).Some? ::
              Parameter(parameters[i]).value in row && ReadFloat(float, texts[i]) == row[Parameter(parameters[i]).value]
  {
    assert |texts| == |parameters|;
    hide Parameter, ReadFloat, EncodesRow;
    forall i | 0 <= i < |parameters| && Parameter(parameters[i]).Some?
      ensures Parameter(parameters[i]).value in row && ReadFloat(float, texts[i]) == row[Parameter(parameters[i]).value]
    {
      RowParameter(float, show, parameters, row, texts, i);
    }
    if RowReadable(float, parameters, texts) {
      forall tap | tap in row ensures row[tap].Some? {
        RowTaps(float, show, parameters, row, texts, tap);
        var i := HasParameter(parameters, tap);
      }
    }
  }

  lemma RowTaps(float: FloatReader, show: real -> string, parameters: seq<string>,
                row: map<string, Option<real>>, texts: seq<string>, tap: string)
    requires EncodesRow(float, show, parameters, row, Some(texts)) && tap in row
    ensures HasTap(parameters, tap)
  {
  }

  /** An allowlisted column of a complete lane's row reads as the table's number; other lanes have no cells. */
  lemma TableCell(float: FloatReader, show: real -> string, sec: Section, parameters: seq<string>, table: Table,
                  lane: nat, i: nat, value: real)
    requires EncodesTable(float, show, sec, parameters, table)
    requires i < |parameters| && Parameter(parameters[i]).Some?
    ensures Cell(float, sec, parameters, lane, i, value)
       <==> lane in table && Complete(table[lane]) && Parameter(parameters[i]).value in table[lane]
            && table[lane][Parameter(parameters[i]).value] == Some(value)
  {
    hide RowsGathered, Cell, EncodesRow, RowReadable, Complete, Parameter;
    TableRows(float, show, sec, parameters, table);
    var rows := RowTexts(sec, table);
    CellInLanes(float, sec, parameters, rows, lane, i, value);
    if lane in table {
      assert EncodesRow(float, show, parameters, table[lane], Some(rows[lane]));
      RowComplete(float, show, parameters, table[lane], rows[lane]);
    }
  }

  /**
   From numbers to text and back: any section written for a table, whatever its
   column order, vendor columns and padding, decodes to the sorted listing of the
   complete lanes' numbers and to nothing else.
   */
  lemma TableRoundTrip(float: FloatReader, show: real -> string, sec: Section, parameters: seq<string>, table: Table, r: SerDesTX)
    requires parameters != [] && Distinct(parameters)
    requires EncodesTable(float, show, sec, parameters, table)
    ensures IsTuning(float, Some(sec), r) <==> Lists(table, r)
  {
    hide EncodesTable, RowsWellFormed, Ordering.Increasing, RowsGathered, Cell;
    TableHeader(float, show, sec, parameters, table);
    TableRows(float, show, sec, parameters, table);
    forall e ensures FIREntry(float, sec, parameters, e) <==> ListedFIR(table, e) {
      TableFIR(float, show, sec, parameters, table, e);
    }
    forall e ensures DriveEntry(float, sec, parameters, e) <==> ListedDrive(table, e) {
      TableDrive(float, show, sec, parameters, table, e);
    }
  }

  lemma TableHeader(float: FloatReader, show: real -> string, sec: Section, parameters: seq<string>, table: Table)
    requires parameters != [] && Distinct(parameters) && EncodesTable(float, show, sec, parameters, table)
    ensures Header(sec) == Some(parameters)
  {
    hide TrimSpace, EncodesRow;
    assert TrimAll(RawValues(sec, HEADER).value) == parameters;
  }

  lemma TableFIR(float: FloatReader, show: real -> string, sec: Section, parameters: seq<string>, table: Table, e: FIRCoefficient)
    requires EncodesTable(float, show, sec, parameters, table)
    ensures FIREntry(float, sec, parameters, e) <==> ListedFIR(table, e)
  {
    hide EncodesTable, Cell, ReadFloat;
    if FIREntry(float, sec, parameters, e) {
      var i: nat :| i < |parameters| && parameters[i] != DRIVE && Parameter(parameters[i]) == Some(e.tap)
                    && Cell(float, sec, parameters, e.lane, i, e.value);
      TableCell(float, show, sec, parameters, table, e.lane, i, e.value);
      assert e.tap != "" by { OnlyDriveIsUntapped(parameters[i]); }
    }
    if ListedFIR(table, e) {
      RowTap(float, show, sec, parameters, table, e.lane, e.tap);
      var i := HasParameter(parameters, e.tap);
      OnlyDriveIsUntapped(parameters[i]);
      TableCell(float, show, sec, parameters, table, e.lane, i, e.value);
    }
  }

  lemma RowTap(float: FloatReader, show: real -> string, sec: Section, parameters: seq<string>, table: Table,
               lane: nat, tap: string)
    requires EncodesTable(float, show, sec, parameters, table) && lane in table && tap in table[lane]
    ensures HasTap(parameters, tap)
  {
    assert EncodesRow(float, show, parameters, table[lane], RawValues(sec, LaneKey(lane)));
  }

  lemma OnlyDriveIsUntapped(name: string)
    ensures Parameter(name) == Some("") <==> name == DRIVE
  {
  }

  lemma TableDrive(float: FloatReader, show: real -> string, sec: Section, parameters: seq<string>, table: Table, e: LaneValue)
    requires EncodesTable(float, show, sec, parameters, table)
    ensures DriveEntry(float, sec, parameters, e) <==> ListedDrive(table, e)
  {
    hide EncodesTable, Cell, ReadFloat;
    if DriveEntry(float, sec, parameters, e) {
      var i: nat :| i < |parameters| && parameters[i] == DRIVE && Cell(float, sec, parameters, e.lane, i, e.value);
      TableCell(float, show, sec, parameters, table, e.lane, i, e.value);
    }
    if ListedDrive(table, e) {
      RowTap(float, show, sec, parameters, table, e.lane, "");
      var i := HasParameter(parameters, "");
      OnlyDriveIsUntapped(parameters[i]);
      TableCell(float, show, sec, parameters, table, e.lane, i, e.value);
    }
  }
}
