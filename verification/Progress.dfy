/** installer/internal/progress/progress.go: the counters behind every progress bar. */
module Progress {
  import opened GoText

  /** The largest count whose percentage int64 arithmetic still computes. */
  const PERCENT_LIMIT: int := 92233720368547758

  datatype Phase = Extracting | Downloading | Building | Uploading | Importing

  datatype Event = Event(phase: Phase, current: string, bytes: int, totalBytes: int, files: int, totalFiles: int)

  datatype Report = Report(event: Event, done: bool, percent: int)

  datatype Snapshot = Snapshot(bytes: int, files: int)

  // ----- percentages -----

  /** Go's integer division, which truncates toward zero. */
  function TruncDiv(a: int, b: int): (q: int)
    requires b > 0
    ensures a >= 0 ==> q >= 0
    ensures a < 0 ==> q <= 0
  {
    if a >= 0 then a / b else -(-a / b)
  }

  function Percent(done: int, total: int): int {
    if total <= 0 || done <= 0 then 0
    else
      var percent := TruncDiv(Wrap64(done * 100), total);
      if percent > 100 then 100 else percent
  }

  lemma LessByProduct(a: int, b: int, c: int)
    requires c > 0 && a * c < b * c
    ensures a < b
  {
  }

  lemma QuotientAtLeast(v: int, total: int, q: int)
    requires total > 0 && q * total <= v
    ensures q <= v / total
  {
    LessByProduct(q, v / total + 1, total);
  }

  lemma QuotientBelow(v: int, total: int, q: int)
    requires total > 0 && v < q * total
    ensures v / total < q
  {
    LessByProduct(v / total, q, total);
  }

  lemma PercentWithoutWrap(done: int, total: int)
    requires 0 < total && 0 < done <= PERCENT_LIMIT
    ensures Percent(done, total) == if done * 100 / total > 100 then 100 else done * 100 / total
    ensures done * 100 / total >= 0
  {
    var v := done * 100;
    assert v <= MAX_INT64;
    QuotientAtLeast(v, total, 0);
  }

  /** Below the limit a percentage is the rounded-down share, capped at 100. */
  lemma PercentBelowLimit(done: int, total: int)
    requires 0 < total && 0 <= done <= PERCENT_LIMIT
    ensures 0 <= Percent(done, total) <= 100
    ensures done <= total ==> Percent(done, total) == done * 100 / total
    ensures done >= total ==> Percent(done, total) == 100
  {
    if done > 0 {
      PercentWithoutWrap(done, total);
      if done <= total {
        QuotientBelow(done * 100, total, 101);
      }
      if done >= total {
        QuotientAtLeast(done * 100, total, 100);
      }
    } else {
      QuotientAtLeast(0, total, 0);
      QuotientBelow(0, total, 1);
    }
  }

  lemma WrapLoses(v: int)
    requires v > MAX_INT64
    ensures Wrap64(v) <= v - TWO_64
  {
    var m := v % TWO_64;
    assert v == v / TWO_64 * TWO_64 + m;
  }

  lemma WrappedQuotientIsSmaller(v: int, total: int)
    requires v > MAX_INT64 && 0 < total <= MAX_INT64
    ensures TruncDiv(Wrap64(v), total) < v / total
  {
    WrapLoses(v);
    var w, q := Wrap64(v), v / total;
    QuotientAtLeast(v, total, 1);
    if w >= 0 {
      assert v < (q + 1) * total == q * total + total;
      QuotientBelow(w, total, q);
    }
  }

  /** For a count within its total, the percentage is the true one exactly up to the limit;
      beyond it the multiplication wraps and the result is always wrong. */
  lemma PercentExactIffBelowLimit(done: int, total: int)
    requires 0 < done <= total <= MAX_INT64
    ensures Percent(done, total) == done * 100 / total <==> done <= PERCENT_LIMIT
  {
    if done <= PERCENT_LIMIT {
      PercentBelowLimit(done, total);
    } else {
      WrappedQuotientIsSmaller(done * 100, total);
    }
  }

  /** A count past the limit that even shows as a negative percentage. */
  lemma PercentCanBeNegative()
    ensures Percent(PERCENT_LIMIT + 1, PERCENT_LIMIT + 1) == -99
  {
    var total := PERCENT_LIMIT + 1;
    var w := Wrap64(total * 100);
    assert w == total * 100 - TWO_64;
    QuotientAtLeast(-w, total, 99);
    QuotientBelow(-w, total, 100);
  }

  // ----- counters -----

  function Cap(value: int, total: int): int {
    var floor := if value < 0 then 0 else value;
    if total > 0 && floor > total then total else floor
  }

  /** Tracker.clamp */
  function Clamp(e: Event): Event {
    e.(bytes := Cap(e.bytes, e.totalBytes), files := Cap(e.files, e.totalFiles))
  }

  predicate InRange(e: Event) {
    && 0 <= e.bytes && (e.totalBytes > 0 ==> e.bytes <= e.totalBytes)
    && 0 <= e.files && (e.totalFiles > 0 ==> e.files <= e.totalFiles)
  }

  function WithBytes(e: Event, delta: int): (r: Event)
    ensures InRange(e) ==> InRange(r)
  {
    if delta == 0 then e else Clamp(e.(bytes := e.bytes + delta))
  }

  /** A change of the byte count is taken at face value exactly when it stays between zero
      and the total; a total that is not positive does not bound it. */
  lemma DeltaIsExactIff(e: Event, delta: int)
    requires InRange(e)
    ensures WithBytes(e, delta).bytes == e.bytes + delta <==>
            0 <= e.bytes + delta && (e.totalBytes <= 0 || e.bytes + delta <= e.totalBytes)
    ensures WithBytes(e, delta) == e.(bytes := WithBytes(e, delta).bytes)
  {
  }

  /** Rolling back what was just added restores the event, exactly when adding it was not
      clamped: clamped progress cannot be rolled back. */
  lemma RollbackIsExactIff(e: Event, added: int)
    requires InRange(e) && added >= 0
    ensures WithBytes(WithBytes(e, added), -added) == e <==>
            e.totalBytes <= 0 || e.bytes + added <= e.totalBytes || e.bytes == 0
  {
  }

  function EventPercent(e: Event): int {
    if e.totalBytes > 0 then Percent(e.bytes, e.totalBytes)
    else if e.totalFiles > 0 then Percent(e.files, e.totalFiles)
    else 0
  }

  /** The rounded-down share of the bytes, or of the files where no bytes are expected. */
  function Share(e: Event): int {
    if e.totalBytes > 0 then e.bytes * 100 / e.totalBytes
    else if e.totalFiles > 0 then e.files * 100 / e.totalFiles
    else 0
  }

  /** A report shows the true share, or 100 at the end. */
  predicate Sane(r: Report) {
    r.event.bytes <= PERCENT_LIMIT && r.event.files <= PERCENT_LIMIT ==>
      0 <= r.percent <= 100 && (r.percent == Share(r.event) || (r.done && r.percent == 100))
  }

  lemma EventPercentIsTheShare(e: Event)
    requires InRange(e) && e.bytes <= PERCENT_LIMIT && e.files <= PERCENT_LIMIT
    ensures 0 <= EventPercent(e) <= 100 && EventPercent(e) == Share(e)
  {
    if e.totalBytes > 0 {
      PercentBelowLimit(e.bytes, e.totalBytes);
    } else if e.totalFiles > 0 {
      PercentBelowLimit(e.files, e.totalFiles);
    }
  }

  /** What is told of an event: one report more, or none where the clock may hold it back. */
  predicate Told(before: seq<Report>, after: seq<Report>, e: Event, done: bool, mayWait: bool) {
    (mayWait && after == before)
    || (|after| == |before| + 1 && before <= after
        && after[|before|] == Report(e, done, after[|before|].percent) && Shows(e, after[|before|].percent))
  }

  predicate Shows(e: Event, percent: int) {
    e.bytes <= PERCENT_LIMIT && e.files <= PERCENT_LIMIT ==> percent == Share(e)
  }

  class Tracker {
    var event: Event
    var stopped: bool
    var throttled: bool
    var reports: seq<Report>

    ghost predicate Valid()
      reads this
    {
      InRange(event) && forall r :: r in reports ==> Sane(r)
    }

    constructor (phase: Phase, current: string, totalBytes: int, totalFiles: int)
      ensures Valid() && !stopped && !throttled && reports == []
      ensures event == Event(phase, current, 0, totalBytes, 0, totalFiles)
    {
      event := Event(phase, current, 0, totalBytes, 0, totalFiles);
      stopped, throttled, reports := false, false, [];
    }

    /** Tracker.emit: whether enough time passed since the last report is the clock's choice. */
    method Emit(done: bool, force: bool, complete: bool)
      requires Valid() && (complete ==> done)
      modifies this`reports
      ensures Valid()
      ensures complete && force ==> reports == old(reports) + [Report(event, done, 100)]
      ensures !complete ==> Told(old(reports), reports, event, done, !force && throttled)
    {
      var early: bool := *;
      if !force && throttled && early { return; }
      var report := Report(event, done, if complete then 100 else EventPercent(event));
      if event.bytes <= PERCENT_LIMIT && event.files <= PERCENT_LIMIT {
        EventPercentIsTheShare(event);
      }
      reports := reports + [report];
    }

    method Start()
      requires Valid()
      modifies this`reports
      ensures Valid() && Told(old(reports), reports, event, false, false)
    {
      Emit(false, true, false);
    }

    method MoveToPhase(phase: Phase, current: string, totalBytes: int, totalFiles: int)
      requires Valid()
      modifies this
      ensures Valid() && !stopped && throttled == old(throttled)
      ensures event == Event(phase, current, 0, totalBytes, 0, totalFiles)
      ensures Told(old(reports), reports, event, false, false)
    {
      event := Event(phase, current, 0, totalBytes, 0, totalFiles);
      stopped := false;
      Emit(false, true, false);
    }

    method AddBytes(bytes: int)
      requires Valid()
      modifies this
      ensures Valid() && stopped == old(stopped)
      ensures throttled == old(throttled)
      ensures event == if old(stopped) then old(event) else WithBytes(old(event), bytes)
      ensures if bytes == 0 || stopped then reports == old(reports)
              else Told(old(reports), reports, event, false, throttled)
    {
      if bytes == 0 || stopped { return; }
      event := Clamp(event.(bytes := event.bytes + bytes));
      Emit(false, false, false);
    }

    method AddFiles(files: int)
      requires Valid()
      modifies this
      ensures Valid() && stopped == old(stopped)
      ensures event == old(event).(files := event.files)
      ensures old(event).files <= event.files
      ensures event.files == if old(stopped) || files <= 0 then old(event).files
                             else Cap(old(event).files + files, old(event).totalFiles)
      ensures throttled == old(throttled)
      ensures if files <= 0 || stopped then reports == old(reports)
              else Told(old(reports), reports, event, false, throttled)
    {
      if files <= 0 || stopped { return; }
      event := Clamp(event.(files := event.files + files));
      Emit(false, false, false);
    }

    /** A sampled size never takes a bar backwards. */
    method SetSnapshot(snapshot: Snapshot)
      requires Valid()
      modifies this
      ensures Valid() && stopped == old(stopped)
      ensures event == old(event).(bytes := event.bytes, files := event.files)
      ensures old(event).bytes <= event.bytes && old(event).files <= event.files
      ensures !stopped ==> event.bytes >= Cap(snapshot.bytes, event.totalBytes)
      ensures event.bytes == old(event).bytes || event.bytes <= snapshot.bytes
      ensures !stopped ==> event.files >= Cap(snapshot.files, event.totalFiles)
      ensures event.files == old(event).files || event.files <= snapshot.files
      ensures throttled == old(throttled)
      ensures if stopped then event == old(event) && reports == old(reports)
              else Told(old(reports), reports, event, false, throttled)
    {
      if stopped { return; }
      if snapshot.bytes > event.bytes {
        event := event.(bytes := snapshot.bytes);
      }
      if snapshot.files > event.files {
        event := event.(files := snapshot.files);
      }
      event := Clamp(event);
      Emit(false, false, false);
    }

    method Finish()
      requires Valid()
      modifies this
      ensures Valid() && stopped && throttled == old(throttled)
      ensures event == old(event).(
                         bytes := if event.totalBytes > 0 then event.totalBytes else old(event).bytes,
                         files := if event.totalFiles > 0 then event.totalFiles else old(event).files)
      ensures reports == old(reports) + [Report(event, true, 100)]
    {
      if event.totalBytes > 0 {
        event := event.(bytes := event.totalBytes);
      }
      if event.totalFiles > 0 {
        event := event.(files := event.totalFiles);
      }
      stopped := true;
      Emit(true, true, true);
    }

    method Stop()
      requires Valid()
      modifies this
      ensures Valid() && stopped && event == old(event) && throttled == old(throttled)
      ensures Told(old(reports), reports, event, true, false)
    {
      stopped := true;
      Emit(true, true, false);
    }
  }
}
