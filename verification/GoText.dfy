/** The pieces of Go's strings and strconv packages the modelled code calls. */
module GoText {
  import opened Wrappers

  const MAX_INT64: int := 0x7fff_ffff_ffff_ffff
  const TWO_64: int := 0x1_0000_0000_0000_0000

  /** Two's complement wrap-around of an int64 result. */
  function Wrap64(v: int): (r: int)
    ensures -MAX_INT64 - 1 <= r <= MAX_INT64
    ensures -MAX_INT64 - 1 <= v <= MAX_INT64 ==> r == v
    ensures MAX_INT64 < v <= MAX_INT64 + TWO_64 ==> r == v - TWO_64
  {
    var m := v % TWO_64;
    if m > MAX_INT64 then m - TWO_64 else m
  }

  // ----- white space -----

  predicate IsSpace(c: char) {
    || '\t' <= c <= '\r' || c == ' ' || c == '\U{0085}' || c == '\U{00a0}' || c == '\U{1680}'
    || '\U{2000}' <= c <= '\U{200a}' || c == '\U{2028}' || c == '\U{2029}' || c == '\U{202f}'
    || c == '\U{205f}' || c == '\U{3000}'
  }

  function TrimLeft(s: string): string {
    if s != "" && IsSpace(s[0]) then TrimLeft(s[1..]) else s
  }

  function TrimRight(s: string): string {
    if s != "" && IsSpace(s[|s| - 1]) then TrimRight(s[..|s| - 1]) else s
  }

  /** strings.TrimSpace */
  function TrimSpace(s: string): string {
    TrimRight(TrimLeft(s))
  }

  lemma TrimSpaceKeeps(s: string)
    requires s != "" && !IsSpace(s[0]) && !IsSpace(s[|s| - 1])
    ensures TrimSpace(s) == s
  {
  }

  predicate NoOuterSpace(text: string) {
    text != "" ==> !IsSpace(text[0]) && !IsSpace(text[|text| - 1])
  }

  lemma {:induction false} TrimRightEnds(s: string)
    ensures TrimRight(s) <= s
    ensures TrimRight(s) != "" ==> !IsSpace(TrimRight(s)[|TrimRight(s)| - 1])
  {
    if s != "" && IsSpace(s[|s| - 1]) { TrimRightEnds(s[..|s| - 1]); }
  }

  lemma {:induction false} TrimLeftStarts(s: string)
    ensures TrimLeft(s) != "" ==> !IsSpace(TrimLeft(s)[0])
  {
    if s != "" && IsSpace(s[0]) { TrimLeftStarts(s[1..]); }
  }

  lemma TrimSpaceTrims(s: string)
    ensures NoOuterSpace(TrimSpace(s))
  {
    TrimLeftStarts(s);
    TrimRightEnds(TrimLeft(s));
  }

  predicate AllSpace(s: string) {
    forall i :: 0 <= i < |s| ==> IsSpace(s[i])
  }

  lemma {:induction false} TrimLeftStrips(before: string, s: string)
    requires AllSpace(before) && (s != "" ==> !IsSpace(s[0]))
    ensures TrimLeft(before + s) == s
  {
    if before == "" {
      assert before + s == s;
    } else {
      assert (before + s)[1..] == before[1..] + s;
      TrimLeftStrips(before[1..], s);
    }
  }

  lemma {:induction false} TrimRightStrips(s: string, after: string)
    requires AllSpace(after) && (s != "" ==> !IsSpace(s[|s| - 1]))
    ensures TrimRight(s + after) == s
  {
    if after == "" {
      assert s + after == s;
    } else {
      assert (s + after)[..|s + after| - 1] == s + after[..|after| - 1];
      TrimRightStrips(s, after[..|after| - 1]);
    }
  }

  lemma {:induction false} TrimLeftOfSpace(s: string)
    requires AllSpace(s)
    ensures TrimLeft(s) == ""
  {
    if s != "" { TrimLeftOfSpace(s[1..]); }
  }

  /** Exactly the spaces around a text go. */
  lemma TrimSpaceStrips(before: string, s: string, after: string)
    requires AllSpace(before) && AllSpace(after) && NoOuterSpace(s)
    ensures TrimSpace(before + s + after) == s
  {
    if s == "" {
      TrimLeftOfSpace(before + s + after);
    } else {
      assert before + s + after == before + (s + after);
      TrimLeftStrips(before, s + after);
      TrimRightStrips(s, after);
    }
  }

  lemma {:induction false} TrimLeftIsStripped(s: string) returns (before: string)
    ensures AllSpace(before) && s == before + TrimLeft(s)
  {
    before := "";
    if s != "" && IsSpace(s[0]) {
      var rest := TrimLeftIsStripped(s[1..]);
      before := [s[0]] + rest;
    }
  }

  lemma {:induction false} TrimRightIsStripped(s: string) returns (after: string)
    ensures AllSpace(after) && s == TrimRight(s) + after
  {
    after := "";
    if s != "" && IsSpace(s[|s| - 1]) {
      var rest := TrimRightIsStripped(s[..|s| - 1]);
      after := rest + [s[|s| - 1]];
    }
  }

  /** A trimmed text is the text between spaces. */
  lemma TrimSpaceIsStripped(s: string)
    ensures NoOuterSpace(TrimSpace(s))
    ensures exists before, after :: s == before + TrimSpace(s) + after && AllSpace(before) && AllSpace(after)
  {
    TrimSpaceTrims(s);
    var before := TrimLeftIsStripped(s);
    var after := TrimRightIsStripped(TrimLeft(s));
    assert s == before + TrimSpace(s) + after;
  }

  lemma BlankIffAllSpace(s: string)
    ensures TrimSpace(s) == "" <==> AllSpace(s)
  {
    TrimSpaceIsStripped(s);
    if AllSpace(s) {
      TrimLeftOfSpace(s);
    }
  }

  /** Cut anywhere, a text without outer spaces is read as one of its beginnings. */
  lemma TrimSpaceOfABeginning(s: string, cut: string)
    requires NoOuterSpace(s) && cut <= s
    ensures TrimSpace(cut) <= s
  {
    TrimRightEnds(cut);
  }

  // ----- splitting -----

  /** strings.Split with a one-character separator. */
  function Split(s: string, sep: char): (parts: seq<string>)
    ensures |parts| >= 1
    ensures forall p :: p in parts ==> sep !in p
  {
    if s == "" then [""]
    else
      var rest := Split(s[1..], sep);
      if s[0] == sep then [""] + rest else [[s[0]] + rest[0]] + rest[1..]
  }

  lemma {:induction false} SplitNoSeparator(s: string, sep: char)
    requires sep !in s
    ensures Split(s, sep) == [s]
  {
    if s != "" {
      SplitNoSeparator(s[1..], sep);
      assert [s[0]] + s[1..] == s;
    }
  }

  lemma {:induction false} SplitOnce(a: string, b: string, sep: char)
    requires sep !in a && sep !in b
    ensures Split(a + [sep] + b, sep) == [a, b]
  {
    var s := a + [sep] + b;
    if a == "" {
      assert s[1..] == b;
      SplitNoSeparator(b, sep);
    } else {
      SplitOnce(a[1..], b, sep);
      assert s[1..] == a[1..] + [sep] + b;
      assert s[0] == a[0] && [a[0]] + a[1..] == a;
    }
  }

  function TrimPrefix(s: string, prefix: string): string {
    if prefix <= s then s[|prefix|..] else s
  }

  // ----- decimal numbers -----

  predicate IsDigit(c: char) {
    '0' <= c <= '9'
  }

  function DigitChar(d: nat): (c: char)
    requires d < 10
    ensures IsDigit(c) && c as int - '0' as int == d
  {
    '0' + d as char
  }

  /** strconv.Itoa on a natural number. */
  function Itoa(n: nat): (s: string)
    ensures s != "" && forall c :: c in s ==> IsDigit(c)
  {
    if n < 10 then [DigitChar(n)] else Itoa(n / 10) + [DigitChar(n % 10)]
  }

  function DigitsValue(s: string): nat
    requires forall c :: c in s ==> IsDigit(c)
  {
    if s == "" then 0
    else
      var last := s[|s| - 1];
      assert IsDigit(last);
      10 * DigitsValue(s[..|s| - 1]) + (last as int - '0' as int)
  }

  /** strconv.ParseInt(s, 10, 64): an optional sign, digits, and a range check. */
  function ParseInt64(s: string): Option<int> {
    var signed := s != "" && (s[0] == '+' || s[0] == '-');
    var digits := if signed then s[1..] else s;
    if digits == "" || exists c :: c in digits && !IsDigit(c) then None
    else
      var magnitude: int := DigitsValue(digits);
      var v: int := if signed && s[0] == '-' then -magnitude else magnitude;
      if -MAX_INT64 - 1 <= v <= MAX_INT64 then Some(v) else None
  }

  lemma {:induction false} DigitsOfItoa(n: nat)
    ensures DigitsValue(Itoa(n)) == n
  {
    if n >= 10 {
      DigitsOfItoa(n / 10);
      var s := Itoa(n);
      assert s[..|s| - 1] == Itoa(n / 10);
    }
  }

  lemma ParseIntItoa(n: nat)
    ensures ParseInt64(Itoa(n)) == if n <= MAX_INT64 then Some(n) else None
  {
    DigitsOfItoa(n);
    var s := Itoa(n);
    assert s[0] in s && IsDigit(s[0]);
  }

  lemma ParseNegative(n: int)
    requires n < 0
    ensures -n <= MAX_INT64 ==> ParseInt64("-" + Itoa(-n)) == Some(n)
  {
    DigitsOfItoa(-n);
    var s := "-" + Itoa(-n);
    assert s[1..] == Itoa(-n);
  }
}
