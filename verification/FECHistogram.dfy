/** The FEC histogram section (decoder.go): all bins or none. */
module FECHistogram {
  import opened Wrappers
  import opened Model
  import opened Text
  import opened Envelope
  import Ordering

  const BIN_PREFIX := "Bin "

  function ParseFECRange(raw: string): Option<(nat, nat)> {
    var t := TrimSpace(raw);
    if |t| < 3 || t[0] != '[' || t[|t| - 1] != ']' then None
    else
      var parts := Split(t[1..|t| - 1], ':');
      if |parts| > 2 then None
      else
        var minimum := ParseUint(TrimSpace(parts[0]), UINT64_LIMIT);
        if minimum.None? then None
        else if |parts| == 1 then Some((minimum.value, minimum.value))
        else
          var maximum := ParseUint(TrimSpace(parts[1]), UINT64_LIMIT);
          if maximum.None? || minimum.value > maximum.value then None
          else Some((minimum.value, maximum.value))
  }

  function ParseFECBin(number: string, values: Option<seq<string>>): (bin: Option<FECBin>)
    ensures bin.Some? ==> bin.value.errorCountMin <= bin.value.errorCountMax < UINT64_LIMIT
    ensures bin.Some? ==> bin.value.occurrences < UINT64_LIMIT && bin.value.bin < INT_LIMIT
  {
    var n := ParseUint(number, INT_LIMIT);
    if n.None? || values.None? || |values.value| != 2 then None
    else
      var bounds := ParseFECRange(values.value[0]);
      var occurrences := ParseUint(TrimSpace(values.value[1]), UINT64_LIMIT);
      if bounds.None? || occurrences.None? then None
      else Some(FECBin(n.value, bounds.value.0, bounds.value.1, occurrences.value))
  }

  predicate HasHeader(sec: Section) {
    RawValues(sec, "Header") == Some(["Range", "Occurrences"])
  }

  predicate IsBinKey(key: string) { BIN_PREFIX <= key }

  function BinAt(sec: Section, key: string): Option<FECBin>
    requires key in sec && IsBinKey(key)
  {
    ParseFECBin(key[|BIN_PREFIX|..], RawValues(sec, key))
  }

  /** The key is a bin key and reads as this bin. */
  ghost predicate Names(sec: Section, key: string, bin: FECBin) {
    key in sec && IsBinKey(key) && BinAt(sec, key) == Some(bin)
  }

  ghost predicate Present(sec: Section, bin: FECBin) {
    exists key :: Names(sec, key, bin)
  }

  /**
   What a section has to look like to be the histogram "bins": the exact
   header, every bin key readable, no number named by two keys, and the numbers
   exactly 0..n-1 with n at least one.
   */
  ghost predicate IsHistogram(sec: Section, bins: seq<FECBin>) {
    && HasHeader(sec)
    && bins != []
    && (forall key | key in sec && IsBinKey(key) ::
          var bin := BinAt(sec, key);
          bin.Some? && bin.value.bin < |bins| && bins[bin.value.bin] == bin.value)
    && (forall i | 0 <= i < |bins| :: Present(sec, bins[i]))
    && (forall i | 0 <= i < |bins| :: bins[i].bin == i)
    && NumbersDistinct(sec)
  }

  ghost predicate NumbersDistinct(sec: Section) {
    forall k, l | k in sec && IsBinKey(k) && l in sec && IsBinKey(l) && k != l
                  && BinAt(sec, k).Some? && BinAt(sec, l).Some? ::
      BinAt(sec, k).value.bin != BinAt(sec, l).value.bin
  }

  /** A section describes at most one histogram. */
  lemma HistogramUnique(sec: Section, a: seq<FECBin>, b: seq<FECBin>)
    requires IsHistogram(sec, a) && IsHistogram(sec, b)
    ensures a == b
  {
    OneWay(sec, a, b);
    OneWay(sec, b, a);
  }

  lemma OneWay(sec: Section, a: seq<FECBin>, b: seq<FECBin>)
    requires IsHistogram(sec, a) && IsHistogram(sec, b)
    ensures |a| <= |b| && forall i | 0 <= i < |a| :: a[i] == b[i]
  {
    forall i | 0 <= i < |a| ensures i < |b| && a[i] == b[i] {
      SameBin(sec, a, b, i);
    }
    SameBin(sec, a, b, |a| - 1);
  }

  lemma SameBin(sec: Section, a: seq<FECBin>, b: seq<FECBin>, i: nat)
    requires IsHistogram(sec, a) && IsHistogram(sec, b) && i < |a|
    ensures i < |b| && a[i] == b[i]
  {
    var key :| Names(sec, key, a[i]);
    assert BinAt(sec, key).value.bin == i;
  }

  /** The histogram a section describes, or nothing. */
  ghost function HistogramOf(sec: Option<Section>): (bins: seq<FECBin>)
    ensures bins != [] <==> sec.Some? && exists b :: IsHistogram(sec.value, b)
    ensures bins != [] ==> IsHistogram(sec.value, bins)
  {
    if sec.Some? && exists b :: IsHistogram(sec.value, b)
    then var bins :| IsHistogram(sec.value, bins); bins
    else []
  }

  // ----- the decoder -----

  predicate BinLess(a: FECBin, b: FECBin) { a.bin < b.bin }

  /** The bins gathered from the keys visited so far, indexed by their number. */
  ghost predicate Gathered(sec: Section, visited: set<string>, byNumber: map<nat, FECBin>) {
    && visited <= sec.Keys
    && (forall key | key in visited && IsBinKey(key) ::
          var bin := BinAt(sec, key);
          bin.Some? && bin.value.bin in byNumber && byNumber[bin.value.bin] == bin.value)
    && (forall n | n in byNumber ::
          byNumber[n].bin == n && exists key | key in visited :: Names(sec, key, byNumber[n]))
    && (forall k, l | k in visited && IsBinKey(k) && l in visited && IsBinKey(l) && k != l ::
          BinAt(sec, k).value.bin != BinAt(sec, l).value.bin)
  }

  lemma GatherBin(sec: Section, visited: set<string>, byNumber: map<nat, FECBin>, key: string, bin: FECBin)
    requires Gathered(sec, visited, byNumber) && key !in visited
    requires Names(sec, key, bin) && bin.bin !in byNumber
    ensures Gathered(sec, visited + {key}, byNumber[bin.bin := bin])
  {
    hide BinAt, IsBinKey;
    var now, after := visited + {key}, byNumber[bin.bin := bin];
    forall n | n in after
      ensures after[n].bin == n && exists k | k in now :: Names(sec, k, after[n])
    {
      if n == bin.bin {
        assert Names(sec, key, after[n]);
      } else {
        var k :| k in visited && Names(sec, k, byNumber[n]);
        assert k in now && Names(sec, k, after[n]);
      }
    }
    forall k | k in visited && IsBinKey(k)
      ensures BinAt(sec, k).value.bin != bin.bin
    {
      assert BinAt(sec, k).value.bin in byNumber;
    }
  }

  lemma DuplicateRejects(sec: Section, visited: set<string>, byNumber: map<nat, FECBin>, key: string)
    requires Gathered(sec, visited, byNumber) && key in sec && key !in visited && IsBinKey(key)
    requires BinAt(sec, key).Some? && BinAt(sec, key).value.bin in byNumber
    ensures !NumbersDistinct(sec)
  {
    var n := BinAt(sec, key).value.bin;
    var other :| other in visited && Names(sec, other, byNumber[n]);
    assert BinAt(sec, other).value.bin == n;
  }

  method DecodeFECHistogram(sec: Option<Section>) returns (bins: seq<FECBin>)
    ensures bins == HistogramOf(sec)
  {
    if sec.None? || !HasHeader(sec.value) { return []; }
    var fields := sec.value;
    var remaining := fields.Keys;
    ghost var visited: set<string> := {};
    var byNumber: map<nat, FECBin> := map[];
    while remaining != {}
      invariant visited + remaining == fields.Keys && visited !! remaining
      invariant Gathered(fields, visited, byNumber)
    {
      var key :| key in remaining;
      remaining := remaining - {key};
      if IsBinKey(key) {
        var bin := ParseFECBin(key[|BIN_PREFIX|..], RawValues(fields, key));
        if bin.None? { return []; }
        if bin.value.bin in byNumber {
          DuplicateRejects(fields, visited, byNumber, key);
          return [];
        }
        GatherBin(fields, visited, byNumber, key, bin.value);
        byNumber := byNumber[bin.value.bin := bin.value];
      }
      visited := visited + {key};
    }
    assert visited == fields.Keys;
    bins := ConsecutiveFECBins(byNumber);
    GatheredDecides(fields, byNumber, bins);
  }

  /** The map's entries in whatever order the iteration takes. */
  method ListBins(byNumber: map<nat, FECBin>) returns (bins: seq<FECBin>)
    requires forall n | n in byNumber :: byNumber[n].bin == n
    ensures Listed(byNumber, byNumber.Keys, bins)
  {
    bins := [];
    var remaining := byNumber.Keys;
    ghost var done: set<nat> := {};
    while remaining != {}
      invariant done + remaining == byNumber.Keys && done !! remaining
      invariant Listed(byNumber, done, bins)
    {
      var n :| n in remaining;
      remaining := remaining - {n};
      ListOne(byNumber, done, bins, n);
      bins := bins + [byNumber[n]];
      done := done + {n};
    }
  }

  lemma ListOne(byNumber: map<nat, FECBin>, done: set<nat>, bins: seq<FECBin>, n: nat)
    requires Listed(byNumber, done, bins) && n in byNumber && n !in done
    ensures Listed(byNumber, done + {n}, bins + [byNumber[n]])
  {
    var after := bins + [byNumber[n]];
    assert after[|bins|] == byNumber[n];
    forall m | m in done ensures byNumber[m] in after {
      assert byNumber[m] in bins;
    }
  }

  /** The bins in order if they are numbered 0..n-1 with n at least one. */
  method ConsecutiveFECBins(byNumber: map<nat, FECBin>) returns (bins: seq<FECBin>)
    requires forall n | n in byNumber :: byNumber[n].bin == n
    ensures bins != [] ==> Consecutive(byNumber, bins)
    ensures bins == [] ==> forall b :: !Consecutive(byNumber, b)
  {
    if byNumber == map[] {
      assert 0 !in byNumber;
      return [];
    }
    var unsorted := ListBins(byNumber);
    bins := Ordering.Sort(BinLess, unsorted);
    Ordering.PermutedComparable(BinLess, unsorted, bins);
    SortedListing(byNumber, unsorted, bins);
    for i := 0 to |bins|
      invariant forall k | 0 <= k < i :: bins[k].bin == k
    {
      if bins[i].bin != i {
        MissingNumber(byNumber, bins, i);
        return [];
      }
    }
    FullRun(byNumber, bins);
  }

  ghost predicate Consecutive(byNumber: map<nat, FECBin>, bins: seq<FECBin>) {
    && bins != []
    && (forall n: nat :: n in byNumber <==> n < |bins|)
    && (forall n: nat | n < |bins| :: bins[n] == byNumber[n])
  }

  /** "bins" lists the entries numbered in "done", each once. */
  ghost predicate Listed(byNumber: map<nat, FECBin>, done: set<nat>, bins: seq<FECBin>)
  {
    && done <= byNumber.Keys
    && (forall n | n in byNumber :: byNumber[n].bin == n)
    && (forall i | 0 <= i < |bins| :: bins[i].bin in done && byNumber[bins[i].bin] == bins[i])
    && (forall n | n in done :: byNumber[n] in bins)
    && (forall i, j | 0 <= i < j < |bins| :: bins[i].bin != bins[j].bin)
  }

  lemma SortedListing(byNumber: map<nat, FECBin>, unsorted: seq<FECBin>, bins: seq<FECBin>)
    requires Listed(byNumber, byNumber.Keys, unsorted)
    requires Ordering.Ordered(BinLess, bins)
    requires forall i, j | 0 <= i < j < |bins| :: BinLess(bins[i], bins[j]) || BinLess(bins[j], bins[i])
    requires forall x :: x in bins <==> x in unsorted
    ensures Listed(byNumber, byNumber.Keys, bins)
    ensures forall i, j | 0 <= i < j < |bins| :: bins[i].bin < bins[j].bin
  {
    forall i | 0 <= i < |bins| ensures bins[i].bin in byNumber && byNumber[bins[i].bin] == bins[i] {
      assert bins[i] in unsorted;
    }
  }

  /** The first gap in a sorted listing shows a number below the last is missing. */
  lemma MissingNumber(byNumber: map<nat, FECBin>, bins: seq<FECBin>, i: nat)
    requires Listed(byNumber, byNumber.Keys, bins) && i < |bins|
    requires forall j, k | 0 <= j < k < |bins| :: bins[j].bin < bins[k].bin
    requires forall k | 0 <= k < i :: bins[k].bin == k
    requires bins[i].bin != i
    ensures forall b :: !Consecutive(byNumber, b)
  {
    assert i == 0 || bins[i - 1].bin < bins[i].bin;
    forall k | 0 <= k < |bins| ensures bins[k].bin != i {
      assert k <= i || bins[i].bin < bins[k].bin;
    }
    assert i !in byNumber;
    assert bins[i].bin in byNumber;
  }

  lemma FullRun(byNumber: map<nat, FECBin>, bins: seq<FECBin>)
    requires Listed(byNumber, byNumber.Keys, bins) && byNumber != map[]
    requires forall k | 0 <= k < |bins| :: bins[k].bin == k
    ensures Consecutive(byNumber, bins)
  {
    var n :| n in byNumber;
    assert byNumber[n] in bins;
    forall m: nat ensures m in byNumber <==> m < |bins| {
      if m < |bins| { assert bins[m].bin in byNumber; }
      if m in byNumber { assert byNumber[m] in bins; }
    }
  }

  /** Once every key is visited, the run 0..n-1 is exactly the histogram. */
  lemma GatheredDecides(sec: Section, byNumber: map<nat, FECBin>, bins: seq<FECBin>)
    requires HasHeader(sec) && Gathered(sec, sec.Keys, byNumber)
    requires bins != [] ==> Consecutive(byNumber, bins)
    requires bins == [] ==> forall b :: !Consecutive(byNumber, b)
    ensures bins == HistogramOf(Some(sec))
  {
    if bins != [] {
      forall i | 0 <= i < |bins| ensures Present(sec, bins[i]) {
        var n: nat := i;
        assert n in byNumber && bins[n] == byNumber[n];
        var key :| key in sec.Keys && Names(sec, key, byNumber[n]);
      }
      assert IsHistogram(sec, bins);
      HistogramUnique(sec, bins, HistogramOf(Some(sec)));
    } else {
      forall b ensures !IsHistogram(sec, b) {
        if IsHistogram(sec, b) {
          HistogramIsRun(sec, byNumber, b);
        }
      }
    }
  }

  lemma HistogramIsRun(sec: Section, byNumber: map<nat, FECBin>, b: seq<FECBin>)
    requires Gathered(sec, sec.Keys, byNumber) && IsHistogram(sec, b)
    ensures Consecutive(byNumber, b)
  {
    forall i: nat | i < |b| ensures i in byNumber && byNumber[i] == b[i] {
      var key :| Names(sec, key, b[i]);
    }
    forall n | n in byNumber ensures n < |b| {
      var key :| Names(sec, key, byNumber[n]);
    }
  }

  // ----- the vendor encoding survives a round trip -----

  /** "[N]" for a single error count, or "[low:high]"; equal bounds may use either. */
  ghost predicate IsRangeText(text: string, minimum: nat, maximum: nat) {
    || (text == "[" + Decimal(minimum) + "]" && minimum == maximum)
    || text == "[" + Decimal(minimum) + ":" + Decimal(maximum) + "]"
  }

  /** The two values of a bin, each with any padding around it. */
  ghost predicate EncodesBin(field: Field, bin: FECBin) {
    && field.Values? && |field.items| == 2
    && IsRangeText(TrimSpace(field.items[0]), bin.errorCountMin, bin.errorCountMax)
    && TrimSpace(field.items[1]) == Decimal(bin.occurrences)
  }

  function BinKey(n: nat): string { "Bin " + Decimal(n) }

  /** The section carries these bins and no other bin key; other keys are free. */
  ghost predicate EncodesHistogram(sec: Section, bins: seq<FECBin>) {
    && RawValues(sec, "Header") == Some(["Range", "Occurrences"])
    && (forall i: nat | i < |bins| :: BinKey(i) in sec && EncodesBin(sec[BinKey(i)], bins[i]))
    && (forall key | key in sec && "Bin " <= key :: exists i: nat | i < |bins| :: key == BinKey(i))
  }

  /** What a histogram must satisfy to be expressible at all. */
  ghost predicate Expressible(bins: seq<FECBin>) {
    && 0 < |bins| <= 0x8000_0000_0000_0000
    && forall i: nat | i < |bins| ::
         && bins[i].bin == i
         && bins[i].errorCountMin <= bins[i].errorCountMax < 0x1_0000_0000_0000_0000
         && bins[i].occurrences < 0x1_0000_0000_0000_0000
  }

  lemma RangeReads(raw: string, minimum: nat, maximum: nat)
    requires minimum <= maximum < UINT64_LIMIT && IsRangeText(TrimSpace(raw), minimum, maximum)
    ensures ParseFECRange(raw) == Some((minimum, maximum))
  {
    hide TrimSpace, Decimal, DigitsValue, ParseUint, Split;
    var low, high := Decimal(minimum), Decimal(maximum);
    PrintThenParse(minimum, UINT64_LIMIT);
    PrintThenParse(maximum, UINT64_LIMIT);
    DecimalReads(minimum);
    DecimalReads(maximum);
    DigitsAreTight(low);
    DigitsAreTight(high);
    var t := TrimSpace(raw);
    var inner := t[1..|t| - 1];
    if t == "[" + low + "]" && minimum == maximum {
      assert inner == low;
      SplitWhole(low, ':');
    } else {
      assert inner == low + [':'] + high;
      SplitFirst(low, ':', high);
      SplitWhole(high, ':');
    }
  }

  lemma BinReads(sec: Section, i: nat, bin: FECBin)
    requires BinKey(i) in sec && EncodesBin(sec[BinKey(i)], bin) && i < INT_LIMIT && bin.bin == i
    requires bin.errorCountMin <= bin.errorCountMax < UINT64_LIMIT && bin.occurrences < UINT64_LIMIT
    ensures Names(sec, BinKey(i), bin)
  {
    var items := sec[BinKey(i)].items;
    RangeReads(items[0], bin.errorCountMin, bin.errorCountMax);
    PrintThenParse(bin.occurrences, UINT64_LIMIT);
    PrintThenParse(i, INT_LIMIT);
    assert BinKey(i)[|BIN_PREFIX|..] == Decimal(i);
  }

  /** Every expressible histogram is recovered from any of its encodings. */
  lemma HistogramRoundTrip(sec: Section, bins: seq<FECBin>)
    requires Expressible(bins) && EncodesHistogram(sec, bins)
    ensures HistogramOf(Some(sec)) == bins
  {
    forall i: nat | i < |bins| ensures Names(sec, BinKey(i), bins[i]) {
      BinReads(sec, i, bins[i]);
    }
    forall key | key in sec && IsBinKey(key)
      ensures exists i: nat :: i < |bins| && key == BinKey(i) && BinAt(sec, key) == Some(bins[i])
    {
      var i: nat :| i < |bins| && key == BinKey(i);
      assert Names(sec, BinKey(i), bins[i]);
    }
    assert IsHistogram(sec, bins);
    HistogramUnique(sec, bins, HistogramOf(Some(sec)));
  }

  // ----- what is accepted, exactly -----

  /** The text, with any padding, is a number below 2^64. */
  predicate Reads(text: string, n: nat) {
    ParseUint(TrimSpace(text), 0x1_0000_0000_0000_0000) == Some(n)
  }

  /** "[N]", or "[low:high]" with low <= high; padding around the brackets and around each number. */
  ghost predicate IsRange(text: string, lo: nat, hi: nat) {
    && lo <= hi
    && exists inner: string ::
         && inner != "" && text == "[" + inner + "]"
         && ((':' !in inner && lo == hi && Reads(inner, lo)) || IsPair(inner, lo, hi))
  }

  ghost predicate IsPair(inner: string, lo: nat, hi: nat) {
    exists x, y :: ':' !in x && ':' !in y && inner == x + [':'] + y && Reads(x, lo) && Reads(y, hi)
  }

  /** The decoder reads exactly those ranges. */
  lemma RangeExactly(raw: string, lo: nat, hi: nat)
    ensures ParseFECRange(raw) == Some((lo, hi)) <==> IsRange(TrimSpace(raw), lo, hi)
  {
    hide TrimSpace, ParseUint, Split;
    var t := TrimSpace(raw);
    if ParseFECRange(raw) == Some((lo, hi)) {
      var inner := t[1..|t| - 1];
      assert t == "[" + inner + "]";
      var parts := Split(inner, ':');
      if |parts| == 1 {
        SplitOne(inner, ':');
      } else {
        SplitTwo(inner, ':');
        assert IsPair(inner, lo, hi);
      }
    }
    if IsRange(t, lo, hi) {
      var inner :| inner != "" && t == "[" + inner + "]"
                   && ((':' !in inner && lo == hi && Reads(inner, lo)) || IsPair(inner, lo, hi));
      assert t[1..|t| - 1] == inner;
      if ':' !in inner {
        SplitWhole(inner, ':');
      } else {
        var x, y :| ':' !in x && ':' !in y && inner == x + [':'] + y && Reads(x, lo) && Reads(y, hi);
        SplitFirst(x, ':', y);
        SplitWhole(y, ':');
      }
    }
  }

  /** A section gives a histogram only under its exact header, and only if every "Bin " key reads as a bin. */
  lemma HistogramNeeds(sec: Section)
    ensures HistogramOf(Some(sec)) != [] ==>
              && RawValues(sec, "Header") == Some(["Range", "Occurrences"])
              && forall key | key in sec && "Bin " <= key ::
                   exists bin | bin in HistogramOf(Some(sec)) :: ReadsBin(key[4..], RawValues(sec, key), bin)
  {
    hide ParseFECBin, ReadsBin;
    var bins := HistogramOf(Some(sec));
    if bins != [] {
      forall key | key in sec && "Bin " <= key
        ensures exists bin | bin in bins :: ReadsBin(key[4..], RawValues(sec, key), bin)
      {
        var bin := BinAt(sec, key).value;
        BinExactly(key[4..], RawValues(sec, key), bin);
        assert bins[bin.bin] == bin;
      }
    }
  }

  /** A bin's number, its range and its occurrences, each read from its own text. */
  ghost predicate ReadsBin(number: string, values: Option<seq<string>>, bin: FECBin) {
    && ParseUint(number, 0x8000_0000_0000_0000) == Some(bin.bin)
    && values.Some? && |values.value| == 2
    && IsRange(TrimSpace(values.value[0]), bin.errorCountMin, bin.errorCountMax)
    && Reads(values.value[1], bin.occurrences)
  }

  lemma BinExactly(number: string, values: Option<seq<string>>, bin: FECBin)
    ensures ParseFECBin(number, values) == Some(bin) <==> ReadsBin(number, values, bin)
  {
    hide IsRange, ParseFECRange, ParseUint, TrimSpace;
    if values.Some? && |values.value| == 2 {
      RangeExactly(values.value[0], bin.errorCountMin, bin.errorCountMax);
    }
  }

  // ----- ranges of different bins -----

  /** Neither range of error counts meets the other. */
  predicate Apart(a: (nat, nat), b: (nat, nat)) { a.1 < b.0 || b.1 < a.0 }

  predicate DisjointBins(bins: seq<FECBin>) {
    forall i, j | 0 <= i < j < |bins| ::
      Apart((bins[i].errorCountMin, bins[i].errorCountMax), (bins[j].errorCountMin, bins[j].errorCountMax))
  }

  /** The range text of a bin key, as the vendor wrote it. */
  function RangeAt(sec: Section, key: string): Option<(nat, nat)>
    requires key in sec
  {
    var values := RawValues(sec, key);
    if values.Some? && values.value != [] then ParseFECRange(values.value[0]) else None
  }

  /** The range texts of any two bin keys are apart: a condition on the section alone. */
  ghost predicate DisjointTexts(sec: Section) {
    forall k, l | k in sec && IsBinKey(k) && l in sec && IsBinKey(l) && k != l ::
      RangeAt(sec, k).Some? && RangeAt(sec, l).Some? ==> Apart(RangeAt(sec, k).value, RangeAt(sec, l).value)
  }

  lemma BinRange(sec: Section, key: string)
    requires key in sec && IsBinKey(key) && BinAt(sec, key).Some?
    ensures var bin := BinAt(sec, key).value; RangeAt(sec, key) == Some((bin.errorCountMin, bin.errorCountMax))
  {
  }

  /**
   The decoder does not compare ranges: a histogram it accepts has pairwise
   disjoint ranges exactly when the section's range texts are disjoint already.
   */
  lemma DisjointExactly(sec: Section, bins: seq<FECBin>)
    requires IsHistogram(sec, bins)
    ensures DisjointBins(bins) <==> DisjointTexts(sec)
  {
    hide BinAt, IsBinKey, RangeAt;
    if DisjointBins(bins) {
      forall k, l | k in sec && IsBinKey(k) && l in sec && IsBinKey(l) && k != l
        ensures RangeAt(sec, k).Some? && RangeAt(sec, l).Some? ==> Apart(RangeAt(sec, k).value, RangeAt(sec, l).value)
      {
        BinRange(sec, k);
        BinRange(sec, l);
        var a, b := BinAt(sec, k).value.bin, BinAt(sec, l).value.bin;
        assert a != b;
        assert bins[a] == BinAt(sec, k).value && bins[b] == BinAt(sec, l).value;
      }
    }
    if DisjointTexts(sec) {
      forall i, j | 0 <= i < j < |bins|
        ensures Apart((bins[i].errorCountMin, bins[i].errorCountMax), (bins[j].errorCountMin, bins[j].errorCountMax))
      {
        assert Present(sec, bins[i]) && Present(sec, bins[j]);
        var k :| Names(sec, k, bins[i]);
        var l :| Names(sec, l, bins[j]);
        assert k != l;
        BinRange(sec, k);
        BinRange(sec, l);
      }
    }
  }

  /** For instance, bins whose ranges overlap are decoded like any others. */
  lemma OverlappingRangesDecode(sec: Section)
    requires EncodesHistogram(sec, [FECBin(0, 0, 5, 7), FECBin(1, 3, 4, 2)])
    ensures HistogramOf(Some(sec)) == [FECBin(0, 0, 5, 7), FECBin(1, 3, 4, 2)]
  {
    HistogramRoundTrip(sec, [FECBin(0, 0, 5, 7), FECBin(1, 3, 4, 2)]);
  }
}
