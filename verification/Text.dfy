/**
 The string operations the decoder uses: trimming, splitting on one
 character, and reading and printing unsigned decimals with a bound.
 */
module Text {
  import opened Wrappers

  // ----- whitespace -----

  /** The code points Go's unicode.IsSpace accepts. */
  predicate IsSpace(c: char) {
    var p := c as int;
    || 0x09 <= p <= 0x0d || p == 0x20 || p == 0x85 || p == 0xa0
    || p == 0x1680 || 0x2000 <= p <= 0x200a || p == 0x2028 || p == 0x2029
    || p == 0x202f || p == 0x205f || p == 0x3000
  }

  predicate Blank(s: string) {
    forall i | 0 <= i < |s| :: IsSpace(s[i])
  }

  function TrimLeft(s: string): string {
    if s != "" && IsSpace(s[0]) then TrimLeft(s[1..]) else s
  }

  function TrimRight(s: string): string {
    if s != "" && IsSpace(s[|s| - 1]) then TrimRight(s[..|s| - 1]) else s
  }

  function TrimSpace(s: string): string {
    TrimRight(TrimLeft(s))
  }

  /** Neither end is a space, so trimming leaves the string alone. */
  predicate Tight(s: string) {
    s == "" || (!IsSpace(s[0]) && !IsSpace(s[|s| - 1]))
  }

  lemma {:induction false} TrimLeftPadding(l: string, s: string)
    requires Blank(l)
    ensures TrimLeft(l + s) == TrimLeft(s)
  {
    if l == "" {
      assert l + s == s;
    } else {
      assert (l + s)[1..] == l[1..] + s;
      TrimLeftPadding(l[1..], s);
    }
  }

  lemma {:induction false} TrimRightPadding(s: string, r: string)
    requires Blank(r)
    ensures TrimRight(s + r) == TrimRight(s)
  {
    if r == "" {
      assert s + r == s;
    } else {
      assert (s + r)[..|s + r| - 1] == s + r[..|r| - 1];
      TrimRightPadding(s, r[..|r| - 1]);
    }
  }

  /** Trimming splits a string into blank, kept and blank parts. */
  lemma {:induction false} TrimLeftSplits(s: string) returns (l: string)
    ensures s == l + TrimLeft(s) && Blank(l)
    ensures TrimLeft(s) != "" ==> !IsSpace(TrimLeft(s)[0])
  {
    if s != "" && IsSpace(s[0]) {
      var m := TrimLeftSplits(s[1..]);
      l := s[..1] + m;
    } else {
      l := "";
    }
  }

  lemma BlankSnoc(m: string, c: char)
    requires Blank(m) && IsSpace(c)
    ensures Blank(m + [c])
  {
  }

  lemma Reassociate(s: string, t: string, m: string, last: char)
    requires s != "" && s[..|s| - 1] == t + m && s[|s| - 1] == last
    ensures s == t + (m + [last])
  {
  }

  lemma {:induction false} TrimRightSplits(s: string) returns (r: string)
    ensures s == TrimRight(s) + r && Blank(r)
    ensures TrimRight(s) != "" ==> !IsSpace(TrimRight(s)[|TrimRight(s)| - 1])
  {
    hide IsSpace;
    if s != "" && IsSpace(s[|s| - 1]) {
      hide Blank;
      var front, last := s[..|s| - 1], s[|s| - 1];
      var m := TrimRightSplits(front);
      r := m + [last];
      BlankSnoc(m, last);
      assert TrimRight(s) == TrimRight(front);
      Reassociate(s, TrimRight(front), m, last);
    } else {
      r := "";
    }
  }

  lemma TrimSplits(s: string) returns (l: string, r: string)
    ensures s == l + TrimSpace(s) + r && Blank(l) && Blank(r) && Tight(TrimSpace(s))
  {
    l := TrimLeftSplits(s);
    r := TrimRightSplits(TrimLeft(s));
    assert s == l + TrimSpace(s) + r;
  }

  lemma TrimTight(s: string)
    requires Tight(s)
    ensures TrimSpace(s) == s
  {
  }

  lemma {:induction false} TrimBlank(s: string)
    requires Blank(s)
    ensures TrimSpace(s) == ""
  {
    TrimLeftPadding(s, "");
    assert s + "" == s;
  }

  /** Padding on either side is invisible to TrimSpace. */
  lemma TrimPadded(l: string, s: string, r: string)
    requires Blank(l) && Blank(r)
    ensures TrimSpace(l + s + r) == TrimSpace(s)
  {
    assert l + s + r == l + (s + r);
    TrimLeftPadding(l, s + r);
    var m := TrimLeftSplits(s);
    if TrimLeft(s) == "" {
      assert s == m;
      assert Blank(s + r);
      TrimBlank(s + r);
      TrimBlank(s);
    } else {
      assert s + r == m + (TrimLeft(s) + r);
      TrimLeftPadding(m, TrimLeft(s) + r);
      assert TrimLeft(TrimLeft(s) + r) == TrimLeft(s) + r;
      TrimRightPadding(TrimLeft(s), r);
    }
  }

  /** What remains after trimming: the one text without spaces at its ends that blanks on both sides complete. */
  lemma TrimExactly(s: string, t: string)
    ensures TrimSpace(s) == t <==> Tight(t) && exists l, r :: Blank(l) && Blank(r) && s == l + t + r
  {
    var l, r := TrimSplits(s);
    if m, q :| Blank(m) && Blank(q) && Tight(t) && s == m + t + q {
      TrimPadded(m, t, q);
      TrimTight(t);
    }
  }

  // ----- splitting and joining on one character -----

  function Split(s: string, c: char): (parts: seq<string>)
    ensures parts != []
  {
    if s == "" then [""]
    else
      var rest := Split(s[1..], c);
      if s[0] == c then [""] + rest else [[s[0]] + rest[0]] + rest[1..]
  }

  function Join(parts: seq<string>, c: char): string {
    if parts == [] then ""
    else if |parts| == 1 then parts[0]
    else parts[0] + [c] + Join(parts[1..], c)
  }

  lemma {:induction false} SplitWhole(s: string, c: char)
    requires c !in s
    ensures Split(s, c) == [s]
  {
    if s != "" {
      SplitWhole(s[1..], c);
      assert [s[0]] + s[1..] == s;
    }
  }

  lemma {:induction false} SplitFirst(s: string, c: char, rest: string)
    requires c !in s
    ensures Split(s + [c] + rest, c) == [s] + Split(rest, c)
  {
    var whole := s + [c] + rest;
    if s == "" {
      assert whole[1..] == rest;
    } else {
      assert whole[1..] == s[1..] + [c] + rest;
      SplitFirst(s[1..], c, rest);
      assert [s[0]] + s[1..] == s;
      assert ([s[1..]] + Split(rest, c))[1..] == Split(rest, c);
    }
  }

  /** Splitting undoes joining when no part holds the separator. */
  lemma {:induction false} SplitJoin(parts: seq<string>, c: char)
    requires parts != []
    requires forall p | p in parts :: c !in p
    ensures Split(Join(parts, c), c) == parts
  {
    if |parts| == 1 {
      SplitWhole(parts[0], c);
    } else {
      SplitJoin(parts[1..], c);
      SplitFirst(parts[0], c, Join(parts[1..], c));
    }
  }

  // ----- searching -----

  lemma SplitOne(s: string, c: char)
    requires |Split(s, c)| == 1
    ensures c !in s && Split(s, c)[0] == s
  {
    SplitJoined(s, c);
  }

  lemma SplitTwo(s: string, c: char)
    requires |Split(s, c)| == 2
    ensures var parts := Split(s, c);
            s == parts[0] + [c] + parts[1] && c !in parts[0] && c !in parts[1]
  {
    SplitJoined(s, c);
    var parts := Split(s, c);
    assert parts[1..] == [parts[1]];
  }

  /** The parts hold no separator, and joining them gives the text back. */
  lemma {:induction false} SplitJoined(s: string, c: char)
    ensures Join(Split(s, c), c) == s
    ensures forall p | p in Split(s, c) :: c !in p
  {
    if s != "" {
      SplitJoined(s[1..], c);
      var rest := Split(s[1..], c);
      if s[0] == c {
        assert ([""] + rest)[1..] == rest;
        assert Join([""] + rest, c) == s;
      } else {
        var first := [[s[0]] + rest[0]] + rest[1..];
        assert first[1..] == rest[1..];
        assert Join(first, c) == [s[0]] + Join(rest, c);
        forall p | p in first ensures c !in p {
          if p == first[0] { assert rest[0] in rest; }
        }
      }
    }
  }

  /** strings.LastIndex for a single character: -1 when absent. */
  function LastIndex(s: string, c: char): (at: int)
    ensures -1 <= at < |s|
    ensures at >= 0 ==> s[at] == c
    ensures forall i | at < i < |s| :: s[i] != c
  {
    if s == "" then -1
    else if s[|s| - 1] == c then |s| - 1
    else LastIndex(s[..|s| - 1], c)
  }

  // ----- unsigned decimals -----

  predicate IsDigit(c: char) { '0' <= c <= '9' }

  predicate AllDigits(s: string) {
    forall i | 0 <= i < |s| :: IsDigit(s[i])
  }

  function DigitsValue(s: string): nat
    requires AllDigits(s)
  {
    if s == "" then 0
    else DigitsValue(s[..|s| - 1]) * 10 + (s[|s| - 1] as int - '0' as int)
  }

  /** strconv.ParseUint in base 10: digits only, and below the given limit. */
  function ParseUint(s: string, limit: nat): Option<nat> {
    if s != "" && AllDigits(s) && DigitsValue(s) < limit then Some(DigitsValue(s)) else None
  }

  /** strconv.Itoa and strconv.FormatUint for a non-negative number. */
  function Decimal(n: nat): (s: string)
    ensures s != ""
  {
    var digit := [('0' as int + n % 10) as char];
    if n < 10 then digit else Decimal(n / 10) + digit
  }

  lemma {:induction false} DecimalReads(n: nat)
    ensures AllDigits(Decimal(n)) && DigitsValue(Decimal(n)) == n
  {
    var s := Decimal(n);
    if n < 10 {
      assert s[..0] == "";
    } else {
      DecimalReads(n / 10);
      assert s[..|s| - 1] == Decimal(n / 10);
    }
  }

  /** Decimal notation, most significant digit first and without leading zeros. */
  lemma DecimalNotation()
    ensures Decimal(0) == "0" && Decimal(7) == "7" && Decimal(10) == "10" && Decimal(407) == "407"
    ensures DigitsValue("0") == 0 && DigitsValue("407") == 407 && DigitsValue("007") == 7
  {
    assert Decimal(4) == "4" && Decimal(40) == "40";
    assert "407"[..2] == "40" && "40"[..1] == "4" && "4"[..0] == "";
    assert "007"[..2] == "00" && "00"[..1] == "0" && "0"[..0] == "";
    assert DigitsValue("4") == 4 && DigitsValue("40") == 40 && DigitsValue("00") == 0;
  }

  /** Printing then reading returns the number whenever it is in range. */
  lemma PrintThenParse(n: nat, limit: nat)
    ensures ParseUint(Decimal(n), limit) == if n < limit then Some(n) else None
  {
    DecimalReads(n);
  }

  lemma DecimalInjective(m: nat, n: nat)
    requires Decimal(m) == Decimal(n)
    ensures m == n
  {
    DecimalReads(m);
    DecimalReads(n);
  }

  function Zeros(k: nat): (s: string)
    ensures |s| == k && AllDigits(s)
  {
    seq(k, i => '0')
  }

  lemma {:induction false} LeadingZeros(k: nat, s: string)
    requires AllDigits(s)
    ensures AllDigits(Zeros(k) + s) && DigitsValue(Zeros(k) + s) == DigitsValue(s)
    decreases |s|, k
  {
    var z := Zeros(k) + s;
    if s != "" {
      assert z[..|z| - 1] == Zeros(k) + s[..|s| - 1];
      LeadingZeros(k, s[..|s| - 1]);
    } else if k > 0 {
      assert z[..|z| - 1] == Zeros(k - 1) + s;
      LeadingZeros(k - 1, s);
    }
  }

  /** One more digit after a number is one more digit of it, unless the number is zero. */
  lemma DecimalSnoc(n: nat, digit: char)
    requires IsDigit(digit)
    ensures var v := digit as int - '0' as int;
            Decimal(n * 10 + v) == if n == 0 then [digit] else Decimal(n) + [digit]
  {
    var v := digit as int - '0' as int;
    assert (n * 10 + v) / 10 == n && (n * 10 + v) % 10 == v;
    assert ('0' as int + v) as char == digit;
  }

  /** Digits are the decimal notation of their value after some leading zeros. */
  lemma {:induction false} DigitsSplit(s: string) returns (k: nat)
    requires s != "" && AllDigits(s)
    ensures s == Zeros(k) + Decimal(DigitsValue(s))
    decreases |s|
  {
    hide Decimal;
    var front, last := s[..|s| - 1], s[|s| - 1];
    var n := DigitsValue(front);
    assert s == front + [last];
    DecimalSnoc(n, last);
    if front == "" {
      k := 0;
    } else {
      var m := DigitsSplit(front);
      k := if n == 0 then |front| else m;
      if n == 0 {
        ZeroDigits(front);
      }
    }
  }

  lemma {:induction false} ZeroDigits(s: string)
    requires AllDigits(s) && DigitsValue(s) == 0
    ensures s == Zeros(|s|)
    decreases |s|
  {
    if s != "" {
      var front := s[..|s| - 1];
      ZeroDigits(front);
      assert s == front + ['0'] && Zeros(|s|) == Zeros(|s| - 1) + ['0'];
    }
  }

  /** A text reads as a number exactly when it is its decimal notation after any leading zeros. */
  lemma UintExactly(s: string, limit: nat, n: nat)
    ensures ParseUint(s, limit) == Some(n) <==> n < limit && exists k: nat :: s == Zeros(k) + Decimal(n)
  {
    if ParseUint(s, limit) == Some(n) {
      var k := DigitsSplit(s);
    }
    if k: nat :| s == Zeros(k) + Decimal(n) {
      DecimalReads(n);
      LeadingZeros(k, Decimal(n));
    }
  }

  lemma DigitsAreTight(s: string)
    requires AllDigits(s)
    ensures Tight(s) && TrimSpace(s) == s
  {
    TrimTight(s);
  }

  // ----- lexicographic order -----

  /** Go's < on strings. */
  predicate Less(a: string, b: string) {
    b != "" && (a == "" || a[0] < b[0] || (a[0] == b[0] && Less(a[1..], b[1..])))
  }

  lemma {:induction false} LessTransitive(a: string, b: string, c: string)
    requires Less(a, b) && Less(b, c)
    ensures Less(a, c)
  {
    if a != "" && a[0] == b[0] == c[0] {
      LessTransitive(a[1..], b[1..], c[1..]);
    }
  }

  lemma {:induction false} LessTrichotomy(a: string, b: string)
    ensures Less(a, b) || a == b || Less(b, a)
    ensures !(Less(a, b) && Less(b, a)) && !(a == b && Less(a, b))
  {
    if a != "" && b != "" && a[0] == b[0] {
      LessTrichotomy(a[1..], b[1..]);
      assert a == [a[0]] + a[1..] && b == [b[0]] + b[1..];
    }
  }
}
