/** The Eye sections (decoder.go): measurement columns zipped with a Lane list. */
module EyeLanes {
  import opened Wrappers
  import opened Model
  import opened Text
  import opened Envelope
  import opened LaneReadings
  import Ordering

  /** A well-formed section: distinct lane numbers and one text per lane and field. */
  datatype Grid = Grid(lanes: seq<nat>, columns: seq<seq<string>>)

  function ParseLane(raw: string): Option<nat> {
    ParseUint(TrimSpace(raw), INT_LIMIT)
  }

  predicate LanesParse(raw: seq<string>) {
    && (forall i | 0 <= i < |raw| :: ParseLane(raw[i]).Some?)
    && (forall i, j | 0 <= i < j < |raw| :: ParseLane(raw[i]) != ParseLane(raw[j]))
  }

  predicate ColumnsFit(sec: Section, fields: seq<string>, n: nat) {
    forall f | 0 <= f < |fields| :: RawValues(sec, fields[f]).Some? && |RawValues(sec, fields[f]).value| == n
  }

  /** The grid a section holds, or None when any required list is unusable. */
  function GridOf(sec: Option<Section>, fields: seq<string>): (grid: Option<Grid>)
    ensures grid.Some? ==> ValidGrid(grid.value, |fields|)
  {
    if sec.None? then None
    else
      var raw := RawValues(sec.value, "Lane");
      if raw.None? || raw.value == [] || !ColumnsFit(sec.value, fields, |raw.value|) || !LanesParse(raw.value) then None
      else Some(Grid(
        seq(|raw.value|, i requires 0 <= i < |raw.value| => ParseLane(raw.value[i]).value),
        seq(|fields|, f requires 0 <= f < |fields| => RawValues(sec.value, fields[f]).value)))
  }

  predicate ValidGrid(grid: Grid, families: nat) {
    && |grid.columns| == families
    && (forall f | 0 <= f < families :: |grid.columns[f]| == |grid.lanes|)
    && (forall i, j | 0 <= i < j < |grid.lanes| :: grid.lanes[i] != grid.lanes[j])
  }

  /** Position i can be read in every family. */
  predicate Readable(float: FloatReader, grid: Grid, i: nat)
    requires ValidGrid(grid, |grid.columns|) && i < |grid.lanes|
  {
    forall f | 0 <= f < |grid.columns| :: ReadFloat(float, grid.columns[f][i]).Some?
  }

  ghost predicate Score(float: FloatReader, grid: Grid, n: nat, f: nat, e: LaneValue)
    requires ValidGrid(grid, |grid.columns|) && n <= |grid.lanes| && f < |grid.columns|
  {
    exists i: nat | i < n ::
      grid.lanes[i] == e.lane && Readable(float, grid, i) && ReadFloat(float, grid.columns[f][i]) == Some(e.value)
  }

  /** Each family holds exactly the scores of the fully readable lanes, by lane. */
  ghost predicate IsOpening(float: FloatReader, grid: Option<Grid>, families: nat, r: Option<seq<seq<LaneValue>>>)
    requires grid.Some? ==> ValidGrid(grid.value, families)
  {
    if grid.None? then r.None?
    else
      && r.Some? && |r.value| == families
      && forall f | 0 <= f < families :: IsFamily(float, grid.value, f, r.value[f])
  }

  ghost predicate IsFamily(float: FloatReader, grid: Grid, f: nat, family: seq<LaneValue>)
    requires ValidGrid(grid, |grid.columns|) && f < |grid.columns|
  {
    && Ordering.Increasing(LaneLess, family)
    && forall e :: e in family <==> Score(float, grid, |grid.lanes|, f, e)
  }

  /** The grid has one meaning although each family is sorted on its own. */
  lemma OpeningUnique(float: FloatReader, grid: Option<Grid>, families: nat,
                      a: Option<seq<seq<LaneValue>>>, b: Option<seq<seq<LaneValue>>>)
    requires grid.Some? ==> ValidGrid(grid.value, families)
    requires IsOpening(float, grid, families, a) && IsOpening(float, grid, families, b)
    ensures a == b
  {
    if grid.Some? {
      forall f | 0 <= f < families ensures a.value[f] == b.value[f] {
        assert IsFamily(float, grid.value, f, a.value[f]) && IsFamily(float, grid.value, f, b.value[f]);
        Ordering.IncreasingUnique(LaneLess, a.value[f], b.value[f]);
      }
      assert a.value == b.value;
    }
  }

  // ----- the decoder -----

  method EyeFamilies(sec: Section, fields: seq<string>, laneCount: nat) returns (families: Option<seq<seq<string>>>)
    ensures families.Some? <==> ColumnsFit(sec, fields, laneCount)
    ensures families.Some? ==> |families.value| == |fields|
    ensures families.Some? ==> forall f | 0 <= f < |fields| :: families.value[f] == RawValues(sec, fields[f]).value
  {
    var found: seq<seq<string>> := [];
    for f := 0 to |fields|
      invariant |found| == f && ColumnsFit(sec, fields[..f], laneCount)
      invariant forall g | 0 <= g < f :: found[g] == RawValues(sec, fields[g]).value
    {
      var values := RawValues(sec, fields[f]);
      if values.None? || |values.value| != laneCount { return None; }
      found := found + [values.value];
    }
    assert fields[..|fields|] == fields;
    return Some(found);
  }

  method UniqueEyeLanes(raw: seq<string>) returns (lanes: Option<seq<nat>>)
    ensures lanes.Some? <==> LanesParse(raw)
    ensures lanes.Some? ==> |lanes.value| == |raw|
    ensures lanes.Some? ==> forall i | 0 <= i < |raw| :: ParseLane(raw[i]) == Some(lanes.value[i])
  {
    var found: seq<nat> := [];
    var seen: set<nat> := {};
    for i := 0 to |raw|
      invariant |found| == i && LanesParse(raw[..i])
      invariant forall k | 0 <= k < i :: ParseLane(raw[k]) == Some(found[k])
      invariant forall n :: n in seen <==> n in found
    {
      var lane := ParseLane(raw[i]);
      if lane.None? { return None; }
      if lane.value in seen {
        var k :| 0 <= k < i && found[k] == lane.value;
        assert ParseLane(raw[k]) == ParseLane(raw[i]);
        return None;
      }
      seen := seen + {lane.value};
      found := found + [lane.value];
    }
    assert raw[..|raw|] == raw;
    return Some(found);
  }

  method EyeLaneScores(float: FloatReader, grid: Grid, i: nat) returns (scores: Option<seq<real>>)
    requires ValidGrid(grid, |grid.columns|) && i < |grid.lanes|
    ensures scores.Some? <==> Readable(float, grid, i)
    ensures scores.Some? ==> |scores.value| == |grid.columns|
    ensures scores.Some? ==>
              forall f | 0 <= f < |grid.columns| :: ReadFloat(float, grid.columns[f][i]) == Some(scores.value[f])
  {
    var found: seq<real> := [];
    for f := 0 to |grid.columns|
      invariant |found| == f
      invariant forall g | 0 <= g < f :: ReadFloat(float, grid.columns[g][i]) == Some(found[g])
    {
      var score := ReadFloat(float, grid.columns[f][i]);
      if score.None? { return None; }
      found := found + [score.value];
    }
    return Some(found);
  }

  /** Family f after the first n positions, in the order of the Lane list. */
  ghost predicate Partial(float: FloatReader, grid: Grid, n: nat, f: nat, family: seq<LaneValue>)
    requires ValidGrid(grid, |grid.columns|) && n <= |grid.lanes| && f < |grid.columns|
  {
    && (forall e :: e in family <==> Score(float, grid, n, f, e))
    && (forall a, b | 0 <= a < b < |family| :: family[a].lane != family[b].lane)
  }

  lemma PartialSkips(float: FloatReader, grid: Grid, n: nat, f: nat, family: seq<LaneValue>)
    requires ValidGrid(grid, |grid.columns|) && n < |grid.lanes| && f < |grid.columns|
    requires Partial(float, grid, n, f, family) && !Readable(float, grid, n)
    ensures Partial(float, grid, n + 1, f, family)
  {
    forall e ensures Score(float, grid, n + 1, f, e) <==> Score(float, grid, n, f, e) {
      if Score(float, grid, n + 1, f, e) {
        var i: nat :| i < n + 1 && grid.lanes[i] == e.lane && Readable(float, grid, i)
                      && ReadFloat(float, grid.columns[f][i]) == Some(e.value);
        assert i < n;
      }
    }
  }

  lemma PartialTakes(float: FloatReader, grid: Grid, n: nat, f: nat, family: seq<LaneValue>, value: real)
    requires ValidGrid(grid, |grid.columns|) && n < |grid.lanes| && f < |grid.columns|
    requires Partial(float, grid, n, f, family) && Readable(float, grid, n)
    requires ReadFloat(float, grid.columns[f][n]) == Some(value)
    ensures Partial(float, grid, n + 1, f, family + [LaneValue(grid.lanes[n], value)])
  {
    var added := LaneValue(grid.lanes[n], value);
    forall e ensures Score(float, grid, n + 1, f, e) <==> Score(float, grid, n, f, e) || e == added {
      if Score(float, grid, n + 1, f, e) {
        var i: nat :| i < n + 1 && grid.lanes[i] == e.lane && Readable(float, grid, i)
                      && ReadFloat(float, grid.columns[f][i]) == Some(e.value);
      }
    }
    forall a | 0 <= a < |family| ensures family[a].lane != grid.lanes[n] {
      assert family[a] in family;
      var i: nat :| i < n && grid.lanes[i] == family[a].lane;
    }
  }

  lemma GridFound(sec: Section, fields: seq<string>, grid: Grid)
    requires RawValues(sec, "Lane").Some? && RawValues(sec, "Lane").value != []
    requires |grid.lanes| == |RawValues(sec, "Lane").value| && |grid.columns| == |fields|
    requires LanesParse(RawValues(sec, "Lane").value)
    requires forall i | 0 <= i < |grid.lanes| :: ParseLane(RawValues(sec, "Lane").value[i]) == Some(grid.lanes[i])
    requires ColumnsFit(sec, fields, |grid.lanes|)
    requires forall f | 0 <= f < |fields| :: grid.columns[f] == RawValues(sec, fields[f]).value
    ensures GridOf(Some(sec), fields) == Some(grid)
  {
    var found := GridOf(Some(sec), fields).value;
    assert found.lanes == grid.lanes;
    assert found.columns == grid.columns;
  }

  method DecodeEyeLaneValues(float: FloatReader, sec: Option<Section>, fields: seq<string>)
    returns (r: Option<seq<seq<LaneValue>>>)
    ensures IsOpening(float, GridOf(sec, fields), |fields|, r)
  {
    if sec.None? { return None; }
    var rawLanes := RawValues(sec.value, "Lane");
    if rawLanes.None? || rawLanes.value == [] { return None; }
    var families := EyeFamilies(sec.value, fields, |rawLanes.value|);
    if families.None? { return None; }
    var lanes := UniqueEyeLanes(rawLanes.value);
    if lanes.None? { return None; }
    var grid := Grid(lanes.value, families.value);
    GridFound(sec.value, fields, grid);
    var unsorted := ZipLanes(float, grid);
    var decoded := [];
    for f := 0 to |fields|
      invariant |decoded| == f
      invariant forall g | 0 <= g < f :: IsFamily(float, grid, g, decoded[g])
    {
      var family := Ordering.Sort(LaneLess, unsorted[f]);
      Ordering.PermutedComparable(LaneLess, unsorted[f], family);
      Ordering.OrderedDistinct(LaneLess, family);
      decoded := decoded + [family];
    }
    return Some(decoded);
  }

  method ZipLanes(float: FloatReader, grid: Grid) returns (decoded: seq<seq<LaneValue>>)
    requires ValidGrid(grid, |grid.columns|)
    ensures |decoded| == |grid.columns|
    ensures forall f | 0 <= f < |decoded| :: Partial(float, grid, |grid.lanes|, f, decoded[f])
  {
    decoded := seq(|grid.columns|, f => []);
    for i := 0 to |grid.lanes|
      invariant |decoded| == |grid.columns|
      invariant forall f | 0 <= f < |decoded| :: Partial(float, grid, i, f, decoded[f])
    {
      var scores := EyeLaneScores(float, grid, i);
      ghost var before := decoded;
      if scores.Some? {
        for f := 0 to |scores.value|
          invariant |decoded| == |before|
          invariant forall g | 0 <= g < f :: Partial(float, grid, i + 1, g, decoded[g])
          invariant forall g | f <= g < |decoded| :: decoded[g] == before[g]
        {
          PartialTakes(float, grid, i, f, decoded[f], scores.value[f]);
          decoded := decoded[f := decoded[f] + [LaneValue(grid.lanes[i], scores.value[f])]];
        }
      } else {
        forall f | 0 <= f < |decoded| ensures Partial(float, grid, i + 1, f, decoded[f]) {
          PartialSkips(float, grid, i, f, decoded[f]);
        }
      }
    }
  }

  // ----- alignment -----

  function LanesOf(family: seq<LaneValue>): seq<nat> {
    seq(|family|, i requires 0 <= i < |family| => family[i].lane)
  }

  predicate Below(a: nat, b: nat) { a < b }

  /** The lanes of a family are exactly those readable in every family. */
  lemma FamilyLanes(float: FloatReader, grid: Grid, f: nat, family: seq<LaneValue>, lane: nat)
    requires ValidGrid(grid, |grid.columns|) && f < |grid.columns|
    requires IsFamily(float, grid, f, family)
    ensures lane in LanesOf(family)
       <==> exists i: nat | i < |grid.lanes| :: grid.lanes[i] == lane && Readable(float, grid, i)
  {
    if lane in LanesOf(family) {
      var k :| 0 <= k < |family| && LanesOf(family)[k] == lane;
      assert family[k] in family;
      assert Score(float, grid, |grid.lanes|, f, family[k]);
    }
    if i: nat :| i < |grid.lanes| && grid.lanes[i] == lane && Readable(float, grid, i) {
      var e := LaneValue(lane, ReadFloat(float, grid.columns[f][i]).value);
      assert Score(float, grid, |grid.lanes|, f, e);
      var k :| 0 <= k < |family| && family[k] == e;
      assert LanesOf(family)[k] == lane;
    }
  }

  /** All families list the same lanes in the same, strictly increasing, order. */
  lemma FamiliesAligned(float: FloatReader, grid: Grid, r: seq<seq<LaneValue>>, f: nat, g: nat)
    requires ValidGrid(grid, |r|) && f < |r| && g < |r|
    requires IsOpening(float, Some(grid), |r|, Some(r))
    ensures LanesOf(r[f]) == LanesOf(r[g])
    ensures Ordering.Increasing(Below, LanesOf(r[f]))
  {
    assert IsFamily(float, grid, f, r[f]) && IsFamily(float, grid, g, r[g]);
    forall lane: nat ensures lane in LanesOf(r[f]) <==> lane in LanesOf(r[g]) {
      FamilyLanes(float, grid, f, r[f], lane);
      FamilyLanes(float, grid, g, r[g], lane);
    }
    Ordering.IncreasingUnique(Below, LanesOf(r[f]), LanesOf(r[g]));
  }

  // ----- the order of the Lane list does not matter -----

  /** p lists each of 0..n-1 exactly once. */
  ghost predicate IsPermutation(p: seq<nat>, n: nat) {
    && |p| == n
    && (forall k | 0 <= k < n :: p[k] < n)
    && (forall j, k | 0 <= j < k < n :: p[j] != p[k])
    && (forall i: nat | i < n :: i in p)
  }

  lemma Position(p: seq<nat>, i: nat) returns (k: nat)
    requires IsPermutation(p, |p|) && i < |p|
    ensures k < |p| && p[k] == i
  {
    assert i in p;
    k :| k < |p| && p[k] == i;
  }

  function Permuted(s: seq<string>, p: seq<nat>): seq<string>
    requires |p| == |s| && forall k | 0 <= k < |p| :: p[k] < |s|
  {
    seq(|p|, k requires 0 <= k < |p| => s[p[k]])
  }

  /** The second section lists the same lanes and columns in another order. */
  ghost predicate SameUpToOrder(a: Section, b: Section, fields: seq<string>, n: nat, p: seq<nat>) {
    && IsPermutation(p, n)
    && forall key | key == "Lane" || key in fields ::
         && RawValues(a, key).Some? && |RawValues(a, key).value| == n
         && RawValues(b, key) == Some(Permuted(RawValues(a, key).value, p))
  }

  lemma LanesParsePermuted(raw: seq<string>, p: seq<nat>)
    requires IsPermutation(p, |raw|)
    ensures LanesParse(Permuted(raw, p)) <==> LanesParse(raw)
  {
    var moved := Permuted(raw, p);
    if LanesParse(moved) {
      forall i: nat | i < |raw| ensures ParseLane(raw[i]).Some? {
        var k := Position(p, i);
        assert moved[k] == raw[i];
      }
      forall i: nat, j: nat | i < j < |raw| ensures ParseLane(raw[i]) != ParseLane(raw[j]) {
        var k := Position(p, i);
        var l := Position(p, j);
        assert moved[k] == raw[i] && moved[l] == raw[j];
      }
    }
  }

  /** Reordering the Lane list together with its columns decodes to the same families. */
  lemma OrderIrrelevant(float: FloatReader, a: Section, b: Section, fields: seq<string>, n: nat, p: seq<nat>,
                        r: Option<seq<seq<LaneValue>>>)
    requires SameUpToOrder(a, b, fields, n, p)
    ensures IsOpening(float, GridOf(Some(a), fields), |fields|, r)
       <==> IsOpening(float, GridOf(Some(b), fields), |fields|, r)
  {
    var raw := RawValues(a, "Lane").value;
    LanesParsePermuted(raw, p);
    var x, y := GridOf(Some(a), fields), GridOf(Some(b), fields);
    assert ColumnsFit(a, fields, n) && ColumnsFit(b, fields, n);
    if x.Some? {
      assert forall k | 0 <= k < n :: y.value.lanes[k] == x.value.lanes[p[k]];
      assert forall f, k | 0 <= f < |fields| && 0 <= k < n :: y.value.columns[f][k] == x.value.columns[f][p[k]];
      forall f: nat, e | f < |fields|
        ensures Score(float, x.value, n, f, e) <==> Score(float, y.value, n, f, e)
      {
        ScorePermuted(float, x.value, y.value, p, f, e);
      }
      assert forall f, s | 0 <= f < |fields| :: IsFamily(float, x.value, f, s) <==> IsFamily(float, y.value, f, s);
    }
  }

  lemma ScorePermuted(float: FloatReader, x: Grid, y: Grid, p: seq<nat>, f: nat, e: LaneValue)
    requires ValidGrid(x, |x.columns|) && ValidGrid(y, |x.columns|) && |x.lanes| == |y.lanes| && f < |x.columns|
    requires IsPermutation(p, |x.lanes|)
    requires forall k | 0 <= k < |x.lanes| :: y.lanes[k] == x.lanes[p[k]]
    requires forall g, k | 0 <= g < |x.columns| && 0 <= k < |x.lanes| :: y.columns[g][k] == x.columns[g][p[k]]
    ensures Score(float, x, |x.lanes|, f, e) <==> Score(float, y, |x.lanes|, f, e)
  {
    var n := |x.lanes|;
    if Score(float, x, n, f, e) {
      var i: nat :| i < n && x.lanes[i] == e.lane && Readable(float, x, i)
                    && ReadFloat(float, x.columns[f][i]) == Some(e.value);
      var k := Position(p, i);
      assert Readable(float, y, k);
    }
    if Score(float, y, n, f, e) {
      var k: nat :| k < n && y.lanes[k] == e.lane && Readable(float, y, k)
                    && ReadFloat(float, y.columns[f][k]) == Some(e.value);
      forall g | 0 <= g < |x.columns| ensures ReadFloat(float, x.columns[g][p[k]]).Some? {
        assert y.columns[g][k] == x.columns[g][p[k]];
      }
      assert Readable(float, x, p[k]);
    }
  }

  // ----- which sections are read at all -----

  /** A lane text is a number with any padding. */
  ghost predicate NamesLane(raw: string, n: nat) { Numbers(TrimSpace(raw), "", n) }

  /** A list of at least one lane, each a number and none twice, and as many texts in every field's list. */
  ghost predicate UsableGrid(sec: Section, fields: seq<string>) {
    && "Lane" in sec && sec["Lane"].Values?
    && var lanes := sec["Lane"].items;
    && lanes != []
    && NamesLanes(lanes)
    && (forall field | field in fields :: field in sec && sec[field].Values? && |sec[field].items| == |lanes|)
  }

  lemma LaneExactly(raw: string, n: nat)
    ensures ParseLane(raw) == Some(n) <==> NamesLane(raw, n)
  {
    NumberedKeyExactly(TrimSpace(raw), "", n);
  }

  ghost predicate IsLane(raw: string) { exists n: nat :: NamesLane(raw, n) }

  /** Each text is a number and none twice. */
  ghost predicate NamesLanes(lanes: seq<string>) {
    && (forall i | 0 <= i < |lanes| :: IsLane(lanes[i]))
    && (forall i, j, n: nat | 0 <= i < j < |lanes| :: !(NamesLane(lanes[i], n) && NamesLane(lanes[j], n)))
  }

  lemma LanesUsable(lanes: seq<string>)
    ensures LanesParse(lanes) <==> NamesLanes(lanes)
  {
    hide NamesLane, ParseLane;
    forall raw: string, n: nat ensures ParseLane(raw) == Some(n) <==> NamesLane(raw, n) {
      LaneExactly(raw, n);
    }
    if LanesParse(lanes) {
      forall i | 0 <= i < |lanes| ensures IsLane(lanes[i]) {
        assert NamesLane(lanes[i], ParseLane(lanes[i]).value);
      }
      forall i, j, n: nat | 0 <= i < j < |lanes| && NamesLane(lanes[i], n) ensures !NamesLane(lanes[j], n) {
        assert ParseLane(lanes[i]) == Some(n) && ParseLane(lanes[i]) != ParseLane(lanes[j]);
      }
    }
    if NamesLanes(lanes) {
      forall i | 0 <= i < |lanes| ensures ParseLane(lanes[i]).Some? {
        var n: nat :| NamesLane(lanes[i], n);
      }
      forall i, j | 0 <= i < j < |lanes| ensures ParseLane(lanes[i]) != ParseLane(lanes[j]) {
        assert ParseLane(lanes[i]) == Some(ParseLane(lanes[i]).value);
      }
    }
  }

  lemma ColumnsUsable(sec: Section, fields: seq<string>, count: nat)
    ensures ColumnsFit(sec, fields, count)
       <==> forall field | field in fields :: field in sec && sec[field].Values? && |sec[field].items| == count
  {
    if ColumnsFit(sec, fields, count) {
      forall field | field in fields ensures RawValues(sec, field).Some? && |RawValues(sec, field).value| == count {
        var f :| 0 <= f < |fields| && fields[f] == field;
      }
    }
  }

  /** The section is read exactly when it is usable; one that is not tells nothing. */
  lemma UsableExactly(float: FloatReader, sec: Section, fields: seq<string>, r: Option<seq<seq<LaneValue>>>)
    requires IsOpening(float, GridOf(Some(sec), fields), |fields|, r)
    ensures r.Some? <==> UsableGrid(sec, fields)
  {
    hide LanesParse, ColumnsFit, NamesLanes;
    if "Lane" in sec && sec["Lane"].Values? {
      ColumnsUsable(sec, fields, |sec["Lane"].items|);
      LanesUsable(sec["Lane"].items);
    }
  }

  // ----- the vendor encoding survives a round trip -----

  /** Printed lane numbers, with any padding, and one column of texts per field. */
  ghost predicate EncodesGrid(sec: Section, fields: seq<string>, grid: Grid) {
    && RawValues(sec, "Lane").Some? && |RawValues(sec, "Lane").value| == |grid.lanes|
    && (forall i | 0 <= i < |grid.lanes| :: TrimSpace(RawValues(sec, "Lane").value[i]) == Decimal(grid.lanes[i]))
    && |grid.columns| == |fields|
    && (forall f | 0 <= f < |fields| :: RawValues(sec, fields[f]) == Some(grid.columns[f]))
  }

  lemma GridRoundTrip(sec: Section, fields: seq<string>, grid: Grid)
    requires EncodesGrid(sec, fields, grid) && ValidGrid(grid, |fields|) && grid.lanes != []
    requires forall i | 0 <= i < |grid.lanes| :: grid.lanes[i] < INT_LIMIT
    ensures GridOf(Some(sec), fields) == Some(grid)
  {
    var raw := RawValues(sec, "Lane").value;
    forall i | 0 <= i < |raw| ensures ParseLane(raw[i]) == Some(grid.lanes[i]) {
      PrintThenParse(grid.lanes[i], INT_LIMIT);
    }
    GridFound(sec, fields, grid);
  }

  /** A score prints as its number with any padding; a missing one is any text that does not read as a number. */
  ghost predicate EncodesScore(float: FloatReader, show: real -> string, text: string, score: Option<real>) {
    match score
    case Some(v) => TrimSpace(text) == TrimSpace(show(v)) && float(TrimSpace(show(v))) == Some(v)
    case None => float(TrimSpace(text)).None?
  }

  ghost predicate EncodesColumn(float: FloatReader, show: real -> string, texts: Option<seq<string>>, scores: seq<Option<real>>) {
    && texts.Some? && |texts.value| == |scores|
    && forall i | 0 <= i < |scores| :: EncodesScore(float, show, texts.value[i], scores[i])
  }

  /** Distinct lane numbers in any order, and a score or a gap for each lane in every family. */
  ghost predicate EncodesScores(float: FloatReader, show: real -> string, sec: Section, fields: seq<string>,
                                lanes: seq<nat>, scores: seq<seq<Option<real>>>) {
    && RawValues(sec, "Lane").Some? && |RawValues(sec, "Lane").value| == |lanes|
    && (forall i | 0 <= i < |lanes| :: TrimSpace(RawValues(sec, "Lane").value[i]) == Decimal(lanes[i]) && lanes[i] < INT_LIMIT)
    && (forall i, j | 0 <= i < j < |lanes| :: lanes[i] != lanes[j])
    && |scores| == |fields|
    && (forall f | 0 <= f < |fields| ::
          |scores[f]| == |lanes| && EncodesColumn(float, show, RawValues(sec, fields[f]), scores[f]))
  }

  /** The lane has a score in every family, and this is the one in family f. */
  predicate ListedScore(lanes: seq<nat>, scores: seq<seq<Option<real>>>, f: nat, i: nat, e: LaneValue)
    requires f < |scores| && forall g | 0 <= g < |scores| :: |scores[g]| == |lanes|
    requires i < |lanes|
  {
    lanes[i] == e.lane && scores[f][i] == Some(e.value) && forall g | 0 <= g < |scores| :: scores[g][i].Some?
  }

  /** The family as a sorted list of numbers. */
  ghost predicate ListsFamily(lanes: seq<nat>, scores: seq<seq<Option<real>>>, f: nat, family: seq<LaneValue>)
    requires f < |scores| && forall g | 0 <= g < |scores| :: |scores[g]| == |lanes|
  {
    && Ordering.Increasing(LaneLess, family)
    && forall e :: e in family <==> exists i: nat | i < |lanes| :: ListedScore(lanes, scores, f, i, e)
  }

  /**
   From numbers to text and back: any section written for some lanes and scores
   decodes to the families' sorted scores of the lanes without a gap, and to
   nothing else.
   */
  lemma ScoresRoundTrip(float: FloatReader, show: real -> string, sec: Section, fields: seq<string>,
                        lanes: seq<nat>, scores: seq<seq<Option<real>>>, r: Option<seq<seq<LaneValue>>>)
    requires lanes != [] && EncodesScores(float, show, sec, fields, lanes, scores)
    ensures IsOpening(float, GridOf(Some(sec), fields), |fields|, r)
       <==> && r.Some? && |r.value| == |fields|
            && forall f | 0 <= f < |fields| :: ListsFamily(lanes, scores, f, r.value[f])
  {
    hide Ordering.Increasing, Score, GridOf;
    var grid := ScoreGrid(float, show, sec, fields, lanes, scores);
    if r.Some? && |r.value| == |fields| {
      forall f | 0 <= f < |fields|
        ensures IsFamily(float, grid, f, r.value[f]) <==> ListsFamily(lanes, scores, f, r.value[f])
      {
        forall e
          ensures Score(float, grid, |lanes|, f, e) <==> exists i: nat | i < |lanes| :: ListedScore(lanes, scores, f, i, e)
        {
          ScoreListed(float, show, sec, fields, lanes, scores, grid, f, e);
        }
      }
    }
  }

  lemma ScoreGrid(float: FloatReader, show: real -> string, sec: Section, fields: seq<string>,
                  lanes: seq<nat>, scores: seq<seq<Option<real>>>) returns (grid: Grid)
    requires lanes != [] && EncodesScores(float, show, sec, fields, lanes, scores)
    ensures GridOf(Some(sec), fields) == Some(grid) && ValidGrid(grid, |fields|) && grid.lanes == lanes
    ensures forall f | 0 <= f < |fields| :: RawValues(sec, fields[f]) == Some(grid.columns[f])
  {
    grid := Grid(lanes, seq(|fields|, f requires 0 <= f < |fields| => RawValues(sec, fields[f]).value));
    GridRoundTrip(sec, fields, grid);
  }

  lemma ScoreListed(float: FloatReader, show: real -> string, sec: Section, fields: seq<string>,
                    lanes: seq<nat>, scores: seq<seq<Option<real>>>, grid: Grid, f: nat, e: LaneValue)
    requires EncodesScores(float, show, sec, fields, lanes, scores) && f < |fields|
    requires ValidGrid(grid, |fields|) && grid.lanes == lanes
    requires forall g | 0 <= g < |fields| :: RawValues(sec, fields[g]) == Some(grid.columns[g])
    ensures Score(float, grid, |lanes|, f, e) <==> exists i: nat | i < |lanes| :: ListedScore(lanes, scores, f, i, e)
  {
    hide TrimSpace, Decimal, RawValues;
    forall g, i | 0 <= g < |fields| && 0 <= i < |lanes| ensures ReadFloat(float, grid.columns[g][i]) == scores[g][i] {
      assert EncodesScore(float, show, grid.columns[g][i], scores[g][i]);
    }
    if Score(float, grid, |lanes|, f, e) {
      var i: nat :| i < |lanes| && lanes[i] == e.lane && Readable(float, grid, i)
                    && ReadFloat(float, grid.columns[f][i]) == Some(e.value);
      forall g | 0 <= g < |scores| ensures scores[g][i].Some? {
        assert ReadFloat(float, grid.columns[g][i]).Some?;
      }
      assert ListedScore(lanes, scores, f, i, e);
    }
    if i: nat :| i < |lanes| && ListedScore(lanes, scores, f, i, e) {
      assert Readable(float, grid, i);
    }
  }
}
