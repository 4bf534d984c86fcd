/**
 Families that number their lanes by position (decoder.go): measurements,
 0/1 flags and states.
 */
module LaneReadings {
  import opened Wrappers
  import opened Model
  import opened Text

  /** strconv.ParseFloat restricted to finite results; any such function will do. */
  type FloatReader = string -> Option<real>

  /** A number in a structural section: trimmed, finite, no range suffix. */
  function ReadFloat(float: FloatReader, raw: string): Option<real> {
    float(TrimSpace(raw))
  }

  function TrimRangeSuffix(s: string): string {
    var t := TrimSpace(s);
    if t == "" || t[|t| - 1] != ']' then t
    else
      var open := LastIndex(t, '[');
      if open <= 0 then t else TrimSpace(t[..open])
  }

  predicate IsNotAvailable(s: string) {
    |s| == 3 && s[0] in {'n', 'N'} && s[1] == '/' && s[2] in {'a', 'A'}
  }

  function ParseFloatSafe(float: FloatReader, s: string): Option<real> {
    var trimmed := TrimRangeSuffix(s);
    if trimmed == "" || IsNotAvailable(trimmed) then None else float(trimmed)
  }

  function ParseFlag(s: string): Option<real> {
    var t := TrimSpace(s);
    if t == "0" then Some(0.0) else if t == "1" then Some(1.0) else None
  }

  function DivideValue(v: Option<real>, divisor: real): Option<real>
    requires divisor != 0.0
  {
    match v case None => None case Some(f) => Some(f / divisor)
  }

  // ----- measurements: unreadable lanes are dropped, the rest keep their position -----

  /** The readable entries of a list, each numbered by its position. */
  function ReadableLanes(float: FloatReader, values: seq<string>, divisor: real): (lanes: seq<LaneValue>)
    requires divisor != 0.0
    ensures LanesIncreasing(lanes)
    ensures forall k | 0 <= k < |lanes| :: lanes[k].lane < |values|
  {
    if values == [] then []
    else
      var n := |values| - 1;
      var before := ReadableLanes(float, values[..n], divisor);
      match ParseFloatSafe(float, values[n])
      case None => before
      case Some(f) => before + [LaneValue(n, f / divisor)]
  }

  method LaneValues(float: FloatReader, values: seq<string>, divisor: real) returns (lanes: seq<LaneValue>)
    requires divisor != 0.0
    ensures lanes == ReadableLanes(float, values, divisor)
  {
    lanes := [];
    for i := 0 to |values|
      invariant lanes == ReadableLanes(float, values[..i], divisor)
    {
      assert values[..i + 1][..i] == values[..i];
      var parsed := ParseFloatSafe(float, values[i]);
      if parsed.Some? {
        lanes := lanes + [LaneValue(i, parsed.value / divisor)];
      }
    }
    assert values[..|values|] == values;
  }

  /** A lane carries a sample exactly when the entry at its position is readable. */
  lemma {:induction false} ReadableLanesExact(float: FloatReader, values: seq<string>, divisor: real, e: LaneValue)
    requires divisor != 0.0
    ensures e in ReadableLanes(float, values, divisor)
       <==> e.lane < |values| && DivideValue(ParseFloatSafe(float, values[e.lane]), divisor) == Some(e.value)
  {
    if values != [] {
      var n := |values| - 1;
      ReadableLanesExact(float, values[..n], divisor, e);
      assert forall k | 0 <= k < n :: values[..n][k] == values[k];
    }
  }

  method CommaLaneValues(float: FloatReader, raw: string, divisor: real) returns (lanes: seq<LaneValue>)
    requires divisor != 0.0
    ensures lanes == CommaLanes(float, raw, divisor)
  {
    var trimmed := TrimRangeSuffix(raw);
    if trimmed == "" { return []; }
    lanes := LaneValues(float, Split(trimmed, ','), divisor);
  }

  function CommaLanes(float: FloatReader, raw: string, divisor: real): seq<LaneValue>
    requires divisor != 0.0
  {
    var trimmed := TrimRangeSuffix(raw);
    if trimmed == "" then [] else ReadableLanes(float, Split(trimmed, ','), divisor)
  }

  // ----- flags and states: all lanes or none -----

  predicate AllFlags(values: seq<string>) {
    forall i | 0 <= i < |values| :: ParseFlag(values[i]).Some?
  }

  function FlagLanes(values: seq<string>): (lanes: seq<LaneValue>)
    ensures lanes != [] ==> |lanes| == |values|
    ensures forall i | 0 <= i < |lanes| :: lanes[i].lane == i && lanes[i].value in {0.0, 1.0}
  {
    if AllFlags(values)
    then seq(|values|, i requires 0 <= i < |values| => LaneValue(i, ParseFlag(values[i]).value))
    else []
  }

  method LaneFlags(values: seq<string>) returns (lanes: seq<LaneValue>)
    ensures lanes == FlagLanes(values)
  {
    hide ParseFlag;
    lanes := [];
    for i := 0 to |values|
      invariant AllFlags(values[..i])
      invariant lanes == FlagLanes(values[..i])
    {
      var flag := ParseFlag(values[i]);
      if flag.None? { return []; }
      lanes := lanes + [LaneValue(i, flag.value)];
    }
    assert values[..|values|] == values;
  }

  predicate HasState(value: string) {
    var state := TrimSpace(value);
    state != "" && !IsNotAvailable(state)
  }

  predicate AllStates(values: seq<string>) {
    forall i | 0 <= i < |values| :: HasState(values[i])
  }

  function StateLanes(values: seq<string>, active: string): (lanes: seq<LaneValue>)
    ensures lanes != [] ==> |lanes| == |values|
    ensures forall i | 0 <= i < |lanes| :: lanes[i].lane == i && lanes[i].value in {0.0, 1.0}
  {
    if AllStates(values)
    then seq(|values|, i requires 0 <= i < |values| =>
               LaneValue(i, if TrimSpace(values[i]) == active then 1.0 else 0.0))
    else []
  }

  method LaneStates(values: seq<string>, active: string) returns (lanes: seq<LaneValue>)
    ensures lanes == StateLanes(values, active)
  {
    hide TrimSpace, IsNotAvailable;
    lanes := [];
    for i := 0 to |values|
      invariant AllStates(values[..i])
      invariant lanes == StateLanes(values[..i], active)
    {
      var state := TrimSpace(values[i]);
      if state == "" || IsNotAvailable(state) {
        assert !HasState(values[i]);
        return [];
      }
      var flag := 0.0;
      if state == active { flag := 1.0; }
      lanes := lanes + [LaneValue(i, flag)];
    }
    assert values[..|values|] == values;
  }

  const NOT_AVAILABLE := {"N/A", "n/a", "N/a", "n/A"}

  lemma NotAvailableExactly(s: string)
    ensures IsNotAvailable(s) <==> s in NOT_AVAILABLE
  {
    if IsNotAvailable(s) {
      assert s == [s[0], s[1], s[2]];
    }
  }

  /**
   A list-form family is the whole run 0..n-1 of 0/1 values or nothing, and it
   is nothing exactly when some entry cannot be read.
   */
  lemma ListFamiliesAllOrNothing(values: seq<string>, active: string)
    ensures |FlagLanes(values)| == if forall v | v in values :: TrimSpace(v) in {"0", "1"} then |values| else 0
    ensures |StateLanes(values, active)|
         == if forall v | v in values :: TrimSpace(v) != "" && TrimSpace(v) !in NOT_AVAILABLE then |values| else 0
    ensures LanesIncreasing(FlagLanes(values)) && LanesIncreasing(StateLanes(values, active))
    ensures forall i | 0 <= i < |FlagLanes(values)| ::
              FlagLanes(values)[i].value == 1.0 <==> TrimSpace(values[i]) == "1"
    ensures forall i | 0 <= i < |StateLanes(values, active)| ::
              StateLanes(values, active)[i].value == 1.0 <==> TrimSpace(values[i]) == active
  {
    forall v: string ensures HasState(v) <==> TrimSpace(v) != "" && TrimSpace(v) !in NOT_AVAILABLE {
      NotAvailableExactly(TrimSpace(v));
    }
    var flags := FlagLanes(values);
    forall i | 0 <= i < |flags|
      ensures flags[i].value == 1.0 <==> TrimSpace(values[i]) == "1"
    {
      assert TrimSpace(values[i]) == "0" || TrimSpace(values[i]) == "1";
      assert "0"[0] != "1"[0];
    }
  }

  // ----- the comma-joined form survives a round trip -----

  lemma {:induction false} SplitAfterPadding(l: string, s: string, c: char)
    requires c !in l
    ensures Split(l + s, c) == [l + Split(s, c)[0]] + Split(s, c)[1..]
  {
    if l == "" {
      assert l + s == s && l + Split(s, c)[0] == Split(s, c)[0];
    } else {
      assert (l + s)[1..] == l[1..] + s;
      SplitAfterPadding(l[1..], s, c);
      assert [l[0]] + (l[1..] + Split(s, c)[0]) == l + Split(s, c)[0];
    }
  }

  lemma {:induction false} SplitBeforePadding(s: string, r: string, c: char)
    requires c !in r
    ensures var parts := Split(s, c); var n := |parts| - 1;
            Split(s + r, c) == parts[..n] + [parts[n] + r]
  {
    if s == "" {
      SplitWhole(r, c);
      assert s + r == r;
    } else {
      assert (s + r)[1..] == s[1..] + r;
      SplitBeforePadding(s[1..], r, c);
      var rest, parts := Split(s[1..], c), Split(s, c);
      var n := |rest| - 1;
      var padded := rest[..n] + [rest[n] + r];
      if s[0] == c {
        assert parts == [""] + rest;
        assert Split(s + r, c) == [""] + padded;
        assert [""] + padded == parts[..n + 1] + [parts[n + 1] + r];
      } else {
        var first := [[s[0]] + rest[0]];
        assert parts == first + rest[1..];
        if n == 0 {
          assert [s[0]] + (rest[0] + r) == ([s[0]] + rest[0]) + r;
        } else {
          assert Split(s + r, c) == first + padded[1..];
          assert first + padded[1..] == parts[..n] + [parts[n] + r];
        }
      }
    }
  }

  /** Reading a lane ignores padding, so only the padded text's parts matter. */
  lemma PaddingUnread(float: FloatReader, l: string, s: string, r: string)
    requires Blank(l) && Blank(r)
    ensures ParseFloatSafe(float, l + s + r) == ParseFloatSafe(float, s)
  {
    TrimPadded(l, s, r);
  }

  lemma {:induction false} SameReadings(float: FloatReader, a: seq<string>, b: seq<string>, divisor: real)
    requires divisor != 0.0 && |a| == |b|
    requires forall i | 0 <= i < |a| :: ParseFloatSafe(float, a[i]) == ParseFloatSafe(float, b[i])
    ensures ReadableLanes(float, a, divisor) == ReadableLanes(float, b, divisor)
  {
    if a != [] {
      SameReadings(float, a[..|a| - 1], b[..|b| - 1], divisor);
    }
  }

  lemma PaddedLanes(float: FloatReader, l: string, s: string, r: string, divisor: real)
    requires Blank(l) && Blank(r) && divisor != 0.0
    ensures ReadableLanes(float, Split(l + s + r, ','), divisor) == ReadableLanes(float, Split(s, ','), divisor)
  {
    hide Split, ReadableLanes, ParseFloatSafe;
    var parts := Split(s, ',');
    SplitAfterPadding(l, s, ',');
    var left := Split(l + s, ',');
    SplitBeforePadding(l + s, r, ',');
    var both := Split(l + s + r, ',');
    var n := |parts| - 1;
    assert |left| == |both| == n + 1;
    forall i | 0 <= i <= n ensures ParseFloatSafe(float, both[i]) == ParseFloatSafe(float, parts[i]) {
      var before := if i == 0 then l else "";
      var after := if i == n then r else "";
      assert both[i] == before + parts[i] + after;
      PaddingUnread(float, before, parts[i], after);
    }
    SameReadings(float, both, parts, divisor);
  }

  lemma TrimmedLanes(float: FloatReader, s: string, divisor: real)
    requires divisor != 0.0
    ensures ReadableLanes(float, Split(TrimSpace(s), ','), divisor) == ReadableLanes(float, Split(s, ','), divisor)
  {
    var l, r := TrimSplits(s);
    PaddedLanes(float, l, TrimSpace(s), r, divisor);
  }

  /** With no closing bracket at the end, only trimming happens before the split. */
  lemma UnsuffixedLanes(float: FloatReader, s: string, divisor: real)
    requires divisor != 0.0 && ']' !in s
    ensures CommaLanes(float, s, divisor) == ReadableLanes(float, Split(s, ','), divisor)
  {
    hide TrimSpace, Split, LastIndex, ReadableLanes;
    TrimmedLanes(float, s, divisor);
    BracketFreeUncut(s);
    if TrimSpace(s) == "" {
      SplitWhole("", ',');
      TrimTight("");
      SingleUnreadable(float, "", divisor);
    }
  }

  lemma BracketFreeUncut(s: string)
    requires ']' !in s
    ensures TrimRangeSuffix(s) == TrimSpace(s)
  {
    hide TrimSpace, LastIndex;
    var l, r := TrimSplits(s);
    var t := TrimSpace(s);
    if t != "" {
      assert s[|l| + |t| - 1] == t[|t| - 1];
    }
  }

  lemma BlankSuffixKept(s: string, bounds: string)
    requires '[' !in bounds && Blank(s)
    ensures TrimRangeSuffix(s + " [" + bounds + "]") == "[" + bounds + "]"
  {
    hide TrimSpace;
    var suffix := "[" + bounds + "]";
    var raw := s + " [" + bounds + "]";
    assert raw == (s + " ") + suffix + "";
    TrimPadded(s + " ", suffix, "");
    TrimTight(suffix);
    assert TrimSpace(raw) == suffix;
    assert LastIndex(suffix, '[') == 0;
  }

  lemma LastOpening(head: string, bounds: string)
    requires '[' !in bounds
    ensures LastIndex(head + ("[" + bounds + "]"), '[') == |head|
  {
    var s := head + ("[" + bounds + "]");
    assert s[|head|] == '[';
    assert forall i | |head| < i < |s| :: s[i] != '[';
  }

  lemma PaddedSuffixCut(s: string, bounds: string)
    requires '[' !in bounds && !Blank(s)
    ensures TrimRangeSuffix(s + " [" + bounds + "]") == TrimSpace(s)
  {
    hide TrimSpace, LastIndex;
    var suffix := "[" + bounds + "]";
    var l, r := TrimSplits(s);
    var t := TrimSpace(s);
    assert t != "";
    var head := t + r + " ";
    var kept := head + suffix;
    TrimPadded(l, kept, "");
    assert s + " [" + bounds + "]" == l + kept + "";
    TrimTight(kept);
    LastOpening(head, bounds);
    assert kept[..|head|] == "" + t + (r + " ");
    assert Blank(r + " ");
    TrimPadded("", t, r + " ");
    TrimTight(t);
  }

  lemma SuffixCut(s: string, bounds: string)
    requires '[' !in bounds
    ensures var raw := s + " [" + bounds + "]";
            TrimRangeSuffix(raw) == if Blank(s) then "[" + bounds + "]" else TrimSpace(s)
  {
    if Blank(s) {
      BlankSuffixKept(s, bounds);
    } else {
      PaddedSuffixCut(s, bounds);
    }
  }

  /** The text ends in a bracketed suffix, the last opening bracket starting it, with something before it. */
  ghost predicate Bracketed(t: string, head: string, bounds: string) {
    t == head + ("[" + bounds + "]") && head != "" && '[' !in bounds
  }

  /** A bracketed suffix is cut off, and nothing else is; spaces around what is left are too. */
  lemma SuffixExactly(s: string, r: string)
    ensures TrimRangeSuffix(s) == r
       <==> if exists head, bounds :: Bracketed(TrimSpace(s), head, bounds)
            then exists head, bounds :: Bracketed(TrimSpace(s), head, bounds) && r == TrimSpace(head)
            else r == TrimSpace(s)
  {
    hide TrimSpace, LastIndex;
    var t := TrimSpace(s);
    if t != "" && t[|t| - 1] == ']' && LastIndex(t, '[') > 0 {
      var open := LastIndex(t, '[');
      var bounds := t[open + 1..|t| - 1];
      assert t == t[..open] + ("[" + bounds + "]");
      assert Bracketed(t, t[..open], bounds);
    }
    forall head, bounds | Bracketed(t, head, bounds) ensures TrimRangeSuffix(s) == TrimSpace(head) {
      LastOpening(head, bounds);
      assert t[..|head|] == head;
    }
  }

  /** The optional bounds after a measurement, as in "1.5 [0..3]". */
  function RangeSuffix(bounds: Option<string>): string {
    if bounds.Some? then " [" + bounds.value + "]" else ""
  }

  /**
   The comma-joined form: joining any bracket-free, comma-free readings, with or
   without the range suffix mlxlink appends, decodes to exactly the readable
   ones at their original positions. The text arrives trimmed, as stringField
   hands it over. ParseFloat reads no text holding a bracket.
   */
  lemma CommaLaneRoundTrip(float: FloatReader, readings: seq<string>, bounds: Option<string>, divisor: real)
    requires divisor != 0.0 && readings != []
    requires forall t | t in readings :: ',' !in t && '[' !in t && ']' !in t
    requires bounds.Some? ==> '[' !in bounds.value && ',' !in bounds.value
    requires forall t | '[' in t :: float(t).None?
    ensures CommaLanes(float, TrimSpace(Join(readings, ',') + RangeSuffix(bounds)), divisor)
         == ReadableLanes(float, readings, divisor)
  {
    var s := Join(readings, ',');
    JoinLacks(readings, ',', ']');
    SplitJoin(readings, ',');
    TrimTwice(s + RangeSuffix(bounds));
    if bounds.None? {
      assert s + RangeSuffix(bounds) == s;
      UnsuffixedLanes(float, s, divisor);
    } else {
      assert s + RangeSuffix(bounds) == s + " [" + bounds.value + "]";
      SuffixCut(s, bounds.value);
      if Blank(s) {
        BlankLanes(float, s, bounds.value, divisor);
      } else {
        TrimmedLanes(float, s, divisor);
        NonBlankTrim(s);
      }
    }
  }

  lemma NonBlankTrim(s: string)
    requires !Blank(s)
    ensures TrimSpace(s) != ""
  {
    var l, r := TrimSplits(s);
    assert TrimSpace(s) == "" ==> Blank(l + TrimSpace(s) + r);
  }

  lemma BlankLanes(float: FloatReader, s: string, bounds: string, divisor: real)
    requires Blank(s) && divisor != 0.0
    requires forall t | '[' in t :: float(t).None?
    requires '[' !in bounds && ',' !in bounds
    ensures ReadableLanes(float, Split(s, ','), divisor) == []
    ensures ReadableLanes(float, Split("[" + bounds + "]", ','), divisor) == []
  {
    SplitWhole(s, ',');
    TrimBlank(s);
    assert ParseFloatSafe(float, s).None?;
    SingleUnreadable(float, s, divisor);
    var text := "[" + bounds + "]";
    SplitWhole(text, ',');
    TrimTight(text);
    assert LastIndex(text, '[') == 0;
    assert TrimRangeSuffix(text) == text;
    assert text[0] == '[';
    SingleUnreadable(float, text, divisor);
  }

  lemma SingleUnreadable(float: FloatReader, s: string, divisor: real)
    requires divisor != 0.0 && ParseFloatSafe(float, s).None?
    ensures ReadableLanes(float, [s], divisor) == []
  {
    var values := [s];
    assert values[..0] == [];
  }

  lemma {:induction false} JoinLacks(parts: seq<string>, c: char, d: char)
    requires c != d && forall t | t in parts :: d !in t
    ensures d !in Join(parts, c)
  {
    if |parts| > 1 {
      JoinLacks(parts[1..], c, d);
    }
  }

  /** TrimRangeSuffix does not care whether its input was trimmed before. */
  lemma TrimTwice(s: string)
    ensures TrimRangeSuffix(TrimSpace(s)) == TrimRangeSuffix(s)
  {
    var l, r := TrimSplits(s);
    TrimTight(TrimSpace(s));
  }
}
