/** installer/internal/oras/repository/utils.go: reading the Range header a registry answers with. */
module RangeHeader {
  import opened Wrappers
  import opened GoText

  datatype RangeError = MissingRange | InvalidRange | InvalidRangeEnd

  /** nextOffsetFromRange: the first byte the registry does not hold yet. */
  function NextOffsetFromRange(header: string): Result<int, RangeError> {
    var trimmed := TrimSpace(header);
    if trimmed == "" then Err(MissingRange)
    else
      var parts := Split(TrimPrefix(trimmed, "bytes="), '-');
      if |parts| != 2 then Err(InvalidRange) else OffsetAfter(parts[1])
  }

  /** The offset after an inclusive range end, computed in int64. */
  function OffsetAfter(end: string): Result<int, RangeError> {
    match ParseInt64(end)
    case None => Err(InvalidRangeEnd)
    case Some(v) => Ok(Wrap64(v + 1))
  }

  /** What a registry sends for a session holding n bytes: no Range header for an empty
      session, otherwise the inclusive range, with or without the unit. */
  function RangeOf(n: nat, unit: bool): string {
    if n == 0 then "" else (if unit then "bytes=" else "") + "0-" + Itoa(n - 1)
  }

  lemma StripUnit(n: nat, unit: bool)
    requires n > 0
    ensures TrimSpace(RangeOf(n, unit)) == RangeOf(n, unit) != ""
    ensures TrimPrefix(RangeOf(n, unit), "bytes=") == "0" + ['-'] + Itoa(n - 1)
  {
    var digits := Itoa(n - 1);
    var header := RangeOf(n, unit);
    assert header[|header| - 1] == digits[|digits| - 1] && digits[|digits| - 1] in digits;
    TrimSpaceKeeps(header);
    if unit {
      assert header == "bytes=" + ("0-" + digits);
    } else {
      assert header[0] == '0';
    }
  }

  lemma RangeIsReadUpToItsEnd(n: nat, unit: bool)
    requires n > 0
    ensures NextOffsetFromRange(RangeOf(n, unit)) == OffsetAfter(Itoa(n - 1))
  {
    StripUnit(n, unit);
    SplitOnce("0", Itoa(n - 1), '-');
  }

  lemma OffsetAfterItoa(m: nat)
    ensures OffsetAfter(Itoa(m)) ==
            if m < MAX_INT64 then Ok(m + 1)
            else if m == MAX_INT64 then Ok(-MAX_INT64 - 1)
            else Err(InvalidRangeEnd)
  {
    ParseIntItoa(m);
  }

  lemma EmptyRangeIsMissing(unit: bool)
    ensures NextOffsetFromRange(RangeOf(0, unit)) == Err(MissingRange)
  {
    assert RangeOf(0, unit) == "" == TrimSpace("");
  }

  /** Reading back a status reply gives the committed length, up to the int64 limit; past it
      the sum wraps and the result is no length at all. */
  lemma RangeRoundTrip(n: nat, unit: bool)
    requires n > 0
    ensures n <= MAX_INT64 ==> NextOffsetFromRange(RangeOf(n, unit)) == Ok(n)
    ensures n == MAX_INT64 + 1 ==> NextOffsetFromRange(RangeOf(n, unit)) == Ok(-MAX_INT64 - 1)
    ensures n > MAX_INT64 + 1 ==> NextOffsetFromRange(RangeOf(n, unit)) == Err(InvalidRangeEnd)
  {
    RangeIsReadUpToItsEnd(n, unit);
    OffsetAfterItoa(n - 1);
  }

  /** No header whatsoever reads as offset 0: the sign a negative end needs is also the
      separator. An empty session therefore has no expressible range. */
  lemma NoHeaderMeansEmpty(header: string)
    ensures NextOffsetFromRange(header) != Ok(0)
  {
    var parts := Split(TrimPrefix(TrimSpace(header), "bytes="), '-');
    if |parts| == 2 {
      assert parts[1] in parts && '-' !in parts[1];
    }
  }

  /** The header some registries send for an empty session reads as one committed byte. */
  lemma ZeroZeroReadsAsOneByte()
    ensures NextOffsetFromRange("0-0") == Ok(1)
  {
    assert RangeOf(1, false) == "0-0" by {
      assert Itoa(0) == "0";
    }
    RangeRoundTrip(1, false);
  }
}
