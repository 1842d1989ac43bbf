/** The durable source spool: sequence allocation, bounded reads and retention. */
module Spools {
  import opened Base
  import opened Events
  import opened Rows

  const MAINTENANCE_BATCH_SIZE := 1000
  const NANOS_PER_MILLI := 1_000_000
  const DAY := 24 * 3600 * 1000 * NANOS_PER_MILLI
  const MAINTENANCE_INTERVAL := DAY

  /** insertedAt is the stored column, in whole milliseconds; bytes is the length of the stored payload. */
  datatype SpoolRow = SpoolRow(sequence: int, event: Event, insertedAt: int, bytes: nat)

  datatype SpoolState = SpoolState(
    sourceId: Uuid,
    highWatermark: int,
    rows: seq<SpoolRow>,
    lastMaintenance: Option<int>)

  datatype Snapshot = Snapshot(sourceId: Uuid, oldest: Option<int>, latest: int)

  datatype SpoolError =
    | HighWatermarkBehind(highWatermark: int, newest: int)
    | InvalidCursor(after: int)
    | InvalidPageSize
    | StoredEventMismatch(sequence: int)
    | InvalidRetentionPolicy
    | SequenceExhausted
    | DuplicateEventId

  /** Instants are counted in nanoseconds; a stored timestamp keeps whole milliseconds. */
  function FormatTimestamp(instant: int): int {
    instant / NANOS_PER_MILLI
  }

  function Sequence(row: SpoolRow): int { row.sequence }

  function Bytes(row: SpoolRow): int { row.bytes }

  ghost predicate DistinctIds(rows: seq<SpoolRow>) {
    forall i, j :: 0 <= i < j < |rows| ==> rows[i].event.id != rows[j].event.id
  }

  ghost predicate ValidSpool(s: SpoolState) {
    && s.sourceId.rfc4122
    && 0 <= s.highWatermark <= I64_MAX
    && Ascending(s.rows, Sequence)
    && DistinctIds(s.rows)
    && forall r :: r in s.rows ==> 0 < r.sequence <= s.highWatermark && r.event.sourceId == s.sourceId
  }

  /** The log shape: what is retained is an unbroken run of sequences that ends at the high watermark. */
  ghost predicate ContiguousSuffix(s: SpoolState) {
    forall i :: 0 <= i < |s.rows| ==> s.rows[i].sequence == s.highWatermark - |s.rows| + 1 + i
  }

  /** What other processes may have done between two reads: appended rows and removed rows, nothing else. */
  ghost predicate Evolves(a: SpoolState, b: SpoolState) {
    && b.sourceId == a.sourceId
    && a.highWatermark <= b.highWatermark
    && forall r :: r in b.rows && r.sequence <= a.highWatermark ==> r in a.rows
  }

  lemma EvolvesTransitive(a: SpoolState, b: SpoolState, c: SpoolState)
    requires Evolves(a, b) && Evolves(b, c)
    ensures Evolves(a, c)
  {
  }

  // ---- Reads ----

  function TakeSnapshot(s: SpoolState): Result<Snapshot, SpoolError> {
    if s.rows == [] then Ok(Snapshot(s.sourceId, None, s.highWatermark))
    else
      var newest := s.rows[|s.rows| - 1].sequence;
      if newest > s.highWatermark then Err(HighWatermarkBehind(s.highWatermark, newest))
      else Ok(Snapshot(s.sourceId, Some(s.rows[0].sequence), s.highWatermark))
  }

  /** A snapshot names source, oldest row and watermark, and is refused exactly when the newest row lies beyond the watermark. */
  lemma EverySnapshotIsAnswered(s: SpoolState)
    ensures if s.rows != [] && s.rows[|s.rows| - 1].sequence > s.highWatermark
            then TakeSnapshot(s) == Err(HighWatermarkBehind(s.highWatermark, s.rows[|s.rows| - 1].sequence))
            else
              && TakeSnapshot(s).Ok?
              && var read := TakeSnapshot(s).value;
              && read.sourceId == s.sourceId && read.latest == s.highWatermark
              && (read.oldest.None? <==> s.rows == []) && (read.oldest.Some? ==> read.oldest.value == s.rows[0].sequence)
  {
  }

  function RowsAfter(rows: seq<SpoolRow>, after: int): seq<SpoolRow> {
    if rows == [] || rows[0].sequence > after then rows else RowsAfter(rows[1..], after)
  }

  /** The rows after a sequence start right behind the last row at or below it. */
  lemma {:induction false} RowsAfterIsSuffix(rows: seq<SpoolRow>, after: int)
    ensures var r := RowsAfter(rows, after);
            && |r| <= |rows| && r == rows[|rows| - |r|..]
            && (r != [] ==> r[0] == rows[|rows| - |r|] && r[0].sequence > after)
            && forall i :: 0 <= i < |rows| - |r| ==> rows[i].sequence <= after
  {
    if rows != [] && rows[0].sequence <= after {
      RowsAfterIsSuffix(rows[1..], after);
      assert forall i :: 0 < i < |rows| ==> rows[i] == rows[1..][i - 1];
    }
  }

  function Take<T>(s: seq<T>, limit: nat): seq<T> {
    if |s| <= limit then s else s[..limit]
  }

  /** The first row a reader refuses, if any. */
  function FirstBadRow(s: SpoolState, page: seq<SpoolRow>): Option<SpoolError> {
    if page == [] then None
    else if page[0].sequence > s.highWatermark then Some(HighWatermarkBehind(s.highWatermark, page[0].sequence))
    else if page[0].event.sourceId != s.sourceId then Some(StoredEventMismatch(page[0].sequence))
    else FirstBadRow(s, page[1..])
  }

  /** The first unreadable row is the one reported. */
  lemma {:induction false} FirstBadRowIs(s: SpoolState, page: seq<SpoolRow>, i: nat)
    requires i < |page| && (page[i].sequence > s.highWatermark || page[i].event.sourceId != s.sourceId)
    requires forall j :: 0 <= j < i ==> page[j].sequence <= s.highWatermark && page[j].event.sourceId == s.sourceId
    ensures FirstBadRow(s, page) == Some(if page[i].sequence > s.highWatermark then HighWatermarkBehind(s.highWatermark, page[i].sequence)
                                         else StoredEventMismatch(page[i].sequence))
  {
    if i > 0 {
      assert page[1..][i - 1] == page[i];
      FirstBadRowIs(s, page[1..], i - 1);
    }
  }

  function EventsAfter(s: SpoolState, after: int, limit: nat): Result<seq<SpoolRow>, SpoolError> {
    if after < 0 then Err(InvalidCursor(after))
    else if !(1 <= limit <= 10_000) then Err(InvalidPageSize)
    else
      var page := Take(RowsAfter(s.rows, after), limit);
      var bad := FirstBadRow(s, page);
      if bad.Some? then Err(bad.value) else Ok(page)
  }

  /** A row beyond the watermark, or of another source. */
  ghost predicate Unreadable(s: SpoolState, row: SpoolRow) {
    row.sequence > s.highWatermark || row.event.sourceId != s.sourceId
  }

  lemma {:induction false} NoBadRowIn(s: SpoolState, page: seq<SpoolRow>)
    requires forall i :: 0 <= i < |page| ==> !Unreadable(s, page[i])
    ensures FirstBadRow(s, page) == None
  {
    if page != [] {
      assert !Unreadable(s, page[0]);
      forall i | 0 <= i < |page| - 1 ensures !Unreadable(s, page[1..][i]) {
        assert !Unreadable(s, page[i + 1]);
      }
      NoBadRowIn(s, page[1..]);
    }
  }

  /**
   * Any spool, sound or not, answers a read with the next rows after the cursor, at most as many as asked for and
   * never more than 10,000, or refuses it for a negative cursor, a bad size, or the first unreadable row among them.
   */
  lemma EveryPageIsAnswered(s: SpoolState, after: int, limit: nat)
    ensures var r, rest := EventsAfter(s, after, limit), RowsAfter(s.rows, after);
            var page := if |rest| <= limit then rest else rest[..limit];
            if after < 0 then r == Err(InvalidCursor(after))
            else if limit == 0 || limit > 10_000 then r == Err(InvalidPageSize)
            else
              && ((forall i :: 0 <= i < |page| ==> !Unreadable(s, page[i])) ==> r == Ok(page))
              && forall i :: 0 <= i < |page| && Unreadable(s, page[i]) && (forall j :: 0 <= j < i ==> !Unreadable(s, page[j])) ==>
                   r == Err(if page[i].sequence > s.highWatermark then HighWatermarkBehind(s.highWatermark, page[i].sequence)
                            else StoredEventMismatch(page[i].sequence))
  {
    hide RowsAfter, FirstBadRow;
    var rest := RowsAfter(s.rows, after);
    var page := if |rest| <= limit then rest else rest[..limit];
    if forall i :: 0 <= i < |page| ==> !Unreadable(s, page[i]) { NoBadRowIn(s, page); }
    forall i | 0 <= i < |page| && Unreadable(s, page[i]) && (forall j :: 0 <= j < i ==> !Unreadable(s, page[j]))
      ensures FirstBadRow(s, page) == Some(if page[i].sequence > s.highWatermark
                                           then HighWatermarkBehind(s.highWatermark, page[i].sequence)
                                           else StoredEventMismatch(page[i].sequence))
    {
      forall j | 0 <= j < i ensures page[j].sequence <= s.highWatermark && page[j].event.sourceId == s.sourceId {
        assert !Unreadable(s, page[j]);
      }
      FirstBadRowIs(s, page, i);
    }
  }

  lemma {:induction false} ValidPageHasNoBadRow(s: SpoolState, page: seq<SpoolRow>)
    requires ValidSpool(s) && forall r :: r in page ==> r in s.rows
    ensures FirstBadRow(s, page) == None
  {
    if page != [] {
      assert page[0] in page;
      ValidPageHasNoBadRow(s, page[1..]);
    }
  }

  lemma SoundOrder(s: SpoolState)
    requires ValidSpool(s)
    ensures Ascending(s.rows, Sequence) && forall r :: r in s.rows ==> r.sequence <= s.highWatermark
  {
  }

  lemma RowsAfterMembers(rows: seq<SpoolRow>, after: int)
    requires Ascending(rows, Sequence)
    ensures forall r :: r in RowsAfter(rows, after) <==> r in rows && r.sequence > after
  {
    hide RowsAfter;
    RowsAfterIsSuffix(rows, after);
    var rest := RowsAfter(rows, after);
    var k := |rows| - |rest|;
    forall r | r in rows && r.sequence > after ensures r in rest {
      var i :| 0 <= i < |rows| && rows[i] == r;
      assert rest[i - k] == r;
    }
    forall r | r in rest ensures r in rows && r.sequence > after {
      var i :| 0 <= i < |rest| && rest[i] == r;
      assert rows[k + i] == r && rows[k] == rest[0];
      if i > 0 { assert Sequence(rows[k]) < Sequence(rows[k + i]); }
    }
  }

  /** Nothing up to and including a row comes after it. */
  lemma RowsAfterRow(rows: seq<SpoolRow>, m: nat)
    requires Ascending(rows, Sequence) && m < |rows|
    ensures RowsAfter(rows, rows[m].sequence) == rows[m + 1..]
  {
    hide RowsAfter;
    RowsAfterIsSuffix(rows, rows[m].sequence);
    var after := RowsAfter(rows, rows[m].sequence);
    var j := |rows| - |after|;
    assert j < m ==> Sequence(rows[j]) < Sequence(rows[m]);
    assert m + 1 < |rows| ==> Sequence(rows[m]) < Sequence(rows[m + 1]);
    assert j == m + 1;
  }

  lemma RowsAfterReach(rows: seq<SpoolRow>, after: int, m: nat)
    requires Ascending(rows, Sequence) && |rows| - |RowsAfter(rows, after)| <= m < |rows|
    ensures rows[m].sequence > after
  {
    hide RowsAfter;
    RowsAfterIsSuffix(rows, after);
    var k := |rows| - |RowsAfter(rows, after)|;
    assert k < m ==> Sequence(rows[k]) < Sequence(rows[m]);
  }

  lemma TakeMembers<T>(s: seq<T>, limit: nat)
    ensures forall x :: x in Take(s, limit) ==> x in s
  {
  }

  /** On a sound spool a page is the next rows in order: nothing after the cursor is skipped before the page ends. */
  lemma PageIsNextRows(s: SpoolState, after: int, limit: nat)
    requires ValidSpool(s) && 0 <= after && 1 <= limit <= 10_000
    ensures EventsAfter(s, after, limit) == Ok(Take(RowsAfter(s.rows, after), limit))
    ensures forall r :: r in RowsAfter(s.rows, after) <==> r in s.rows && r.sequence > after
  {
    hide RowsAfter, FirstBadRow, ValidSpool, Take, Ascending;
    SoundOrder(s);
    RowsAfterMembers(s.rows, after);
    TakeMembers(RowsAfter(s.rows, after), limit);
    ValidPageHasNoBadRow(s, Take(RowsAfter(s.rows, after), limit));
  }

  // ---- Retention ----

  datatype RetentionPolicy = RetentionPolicy(maxAge: int, maxEvents: int, maxPayloadBytes: int, batchSize: int)

  const DEFAULT_RETENTION :=
    RetentionPolicy(30 * DAY, 100_000, 256 * 1024 * 1024, MAINTENANCE_BATCH_SIZE)

  predicate ValidPolicy(p: RetentionPolicy) {
    p.maxAge >= 0 && p.maxEvents >= 0 && p.maxPayloadBytes >= 0 && 0 < p.batchSize <= 10_000
  }

  datatype MaintenanceReport = MaintenanceReport(
    deletedEvents: int,
    deletedPayloadBytes: int,
    remainingEvents: int,
    remainingPayloadBytes: int,
    moreRequired: bool)

  /** The loop state of one pruning batch. */
  datatype Pruning = Pruning(
    rows: seq<SpoolRow>,
    deletedEvents: int,
    deletedBytes: int,
    remainingEvents: int,
    remainingBytes: int)

  predicate Expired(row: SpoolRow, cutoff: int) {
    row.insertedAt < FormatTimestamp(cutoff)
  }

  function FirstExpired(rows: seq<SpoolRow>, cutoff: int): (r: Option<nat>)
    ensures r.Some? ==> r.value < |rows| && Expired(rows[r.value], cutoff)
                        && forall i :: 0 <= i < r.value ==> !Expired(rows[i], cutoff)
    ensures r.None? ==> forall i :: 0 <= i < |rows| ==> !Expired(rows[i], cutoff)
  {
    if rows == [] then None
    else if Expired(rows[0], cutoff) then Some(0)
    else
      match FirstExpired(rows[1..], cutoff)
      case None => None
      case Some(i) => Some(i + 1)
  }

  function OverLimits(p: Pruning, policy: RetentionPolicy): bool {
    p.remainingEvents > policy.maxEvents || p.remainingBytes > policy.maxPayloadBytes
  }

  /** The row a batch would delete next: the first expired one, else the oldest while a limit is exceeded. */
  function NextCandidate(p: Pruning, cutoff: int, policy: RetentionPolicy): (r: Option<nat>)
    ensures r.Some? ==> r.value < |p.rows|
  {
    match FirstExpired(p.rows, cutoff)
    case Some(i) => Some(i)
    case None => if OverLimits(p, policy) && p.rows != [] then Some(0) else None
  }

  /** The second look the loop takes at its candidate, with the untruncated cutoff. */
  predicate StopsAtCandidate(p: Pruning, i: nat, cutoff: int, policy: RetentionPolicy)
    requires i < |p.rows|
  {
    p.rows[i].insertedAt * NANOS_PER_MILLI >= cutoff && !OverLimits(p, policy)
  }

  function DeleteRow(p: Pruning, i: nat): Pruning
    requires i < |p.rows|
  {
    Pruning(p.rows[..i] + p.rows[i + 1..],
            p.deletedEvents + 1, p.deletedBytes + p.rows[i].bytes,
            p.remainingEvents - 1, p.remainingBytes - p.rows[i].bytes)
  }

  function PruneUpTo(p: Pruning, cutoff: int, policy: RetentionPolicy, budget: nat): Pruning
    decreases budget
  {
    if budget == 0 then p
    else
      match NextCandidate(p, cutoff, policy)
      case None => p
      case Some(i) =>
        if StopsAtCandidate(p, i, cutoff, policy) then p
        else PruneUpTo(DeleteRow(p, i), cutoff, policy, budget - 1)
  }

  lemma PruneStep(p: Pruning, cutoff: int, policy: RetentionPolicy, budget: nat)
    ensures budget == 0 ==> PruneUpTo(p, cutoff, policy, budget) == p
    ensures budget > 0 ==>
              PruneUpTo(p, cutoff, policy, budget)
              == var next := NextCandidate(p, cutoff, policy);
                 if next.None? || StopsAtCandidate(p, next.value, cutoff, policy) then p
                 else PruneUpTo(DeleteRow(p, next.value), cutoff, policy, budget - 1)
  {
  }

  function StartPruning(rows: seq<SpoolRow>): Pruning {
    Pruning(rows, 0, 0, |rows|, Sum(rows, Bytes))
  }

  function MoreRequired(p: Pruning, cutoff: int, policy: RetentionPolicy): bool {
    OverLimits(p, policy) || FirstExpired(p.rows, cutoff).Some?
  }

  function PruneRetentionBatch(s: SpoolState, now: int, policy: RetentionPolicy): (SpoolState, MaintenanceReport)
    requires policy.batchSize >= 0
  {
    var cutoff := now - policy.maxAge;
    var p := PruneUpTo(StartPruning(s.rows), cutoff, policy, policy.batchSize);
    var more := MoreRequired(p, cutoff, policy);
    (s.(rows := p.rows, lastMaintenance := if more then None else Some(FormatTimestamp(now))),
     MaintenanceReport(p.deletedEvents, p.deletedBytes, p.remainingEvents, p.remainingBytes, more))
  }

  ghost predicate CountsExact(p: Pruning, original: seq<SpoolRow>) {
    && p.remainingEvents == |p.rows|
    && p.remainingBytes == Sum(p.rows, Bytes)
    && p.deletedEvents == |original| - |p.rows|
    && p.deletedBytes == Sum(original, Bytes) - Sum(p.rows, Bytes)
  }

  lemma NothingLeftWeighsNothing(rows: seq<SpoolRow>)
    ensures rows == [] ==> Sum(rows, Bytes) == 0
  {
  }

  /** The early exit inside the loop never fires: a candidate is always expired or over a limit. */
  lemma InnerBreakIsUnreachable(p: Pruning, cutoff: int, policy: RetentionPolicy)
    requires NextCandidate(p, cutoff, policy).Some?
    ensures !StopsAtCandidate(p, NextCandidate(p, cutoff, policy).value, cutoff, policy)
  {
    if FirstExpired(p.rows, cutoff).Some? {
      var row := p.rows[FirstExpired(p.rows, cutoff).value];
      TruncationRoundsDown(row.insertedAt, cutoff);
    }
  }

  lemma TruncationRoundsDown(stored: int, instant: int)
    requires stored < FormatTimestamp(instant)
    ensures stored * NANOS_PER_MILLI < instant
  {
  }

  /** For any clock: exact counters, only existing rows kept, and the reported "more" is the truth. */
  lemma {:induction false} PruneIsExact(p: Pruning, original: seq<SpoolRow>, cutoff: int, policy: RetentionPolicy, budget: nat)
    requires CountsExact(p, original) && ValidPolicy(policy)
    ensures var q := PruneUpTo(p, cutoff, policy, budget);
            && CountsExact(q, original)
            && (MoreRequired(q, cutoff, policy) ==> q.deletedEvents == p.deletedEvents + budget)
            && (!MoreRequired(q, cutoff, policy) <==>
                  |q.rows| <= policy.maxEvents && Sum(q.rows, Bytes) <= policy.maxPayloadBytes
                  && forall r :: r in q.rows ==> !Expired(r, cutoff))
    decreases budget
  {
    hide FirstExpired, Sum;
    if budget > 0 && NextCandidate(p, cutoff, policy).Some? {
      var i := NextCandidate(p, cutoff, policy).value;
      InnerBreakIsUnreachable(p, cutoff, policy);
      SumRemove(p.rows, i, Bytes);
      PruneIsExact(DeleteRow(p, i), original, cutoff, policy, budget - 1);
    } else {
      NothingLeftWeighsNothing(p.rows);
      assert PruneUpTo(p, cutoff, policy, budget) == p;
    }
  }

  /** Pruning deletes rows and does nothing else to them. */
  lemma {:induction false} PruneKeepsOrder(p: Pruning, cutoff: int, policy: RetentionPolicy, budget: nat)
    requires Ascending(p.rows, Sequence) && DistinctIds(p.rows)
    ensures var q := PruneUpTo(p, cutoff, policy, budget);
            && Ascending(q.rows, Sequence) && DistinctIds(q.rows)
            && forall r :: r in q.rows ==> r in p.rows
    decreases budget
  {
    hide FirstExpired;
    if budget > 0 && NextCandidate(p, cutoff, policy).Some? {
      var i := NextCandidate(p, cutoff, policy).value;
      if !StopsAtCandidate(p, i, cutoff, policy) {
        PruneKeepsOrder(DeleteRow(p, i), cutoff, policy, budget - 1);
      }
    }
  }

  /** No unexpired row stands before an expired one. */
  ghost predicate ExpiredFirst(rows: seq<SpoolRow>, cutoff: int) {
    forall i, j :: 0 <= i < j < |rows| && Expired(rows[j], cutoff) ==> Expired(rows[i], cutoff)
  }

  ghost predicate InsertedInOrder(rows: seq<SpoolRow>) {
    forall i, j :: 0 <= i < j < |rows| ==> rows[i].insertedAt <= rows[j].insertedAt
  }

  /** When expiry respects sequence order a batch removes exactly a prefix. */
  lemma {:induction false} PruneRemovesPrefix(p: Pruning, cutoff: int, policy: RetentionPolicy, budget: nat)
    requires ExpiredFirst(p.rows, cutoff)
    ensures var q := PruneUpTo(p, cutoff, policy, budget);
            |q.rows| <= |p.rows| && q.rows == p.rows[|p.rows| - |q.rows|..]
    decreases budget
  {
    hide PruneUpTo, NextCandidate, StopsAtCandidate, ExpiredFirst, Expired, DeleteRow;
    PruneStep(p, cutoff, policy, budget);
    var next := NextCandidate(p, cutoff, policy);
    if budget > 0 && next.Some? && !StopsAtCandidate(p, next.value, cutoff, policy) {
      FirstGoesFirst(p, cutoff, policy);
      RestExpiredFirst(p.rows, cutoff);
      FirstDeleted(p);
      PruneRemovesPrefix(DeleteRow(p, 0), cutoff, policy, budget - 1);
      SuffixOfRest(p.rows, PruneUpTo(DeleteRow(p, 0), cutoff, policy, budget - 1).rows);
    }
  }

  lemma FirstDeleted(p: Pruning)
    requires p.rows != []
    ensures DeleteRow(p, 0).rows == p.rows[1..]
  {
  }

  lemma FirstGoesFirst(p: Pruning, cutoff: int, policy: RetentionPolicy)
    requires ExpiredFirst(p.rows, cutoff) && NextCandidate(p, cutoff, policy).Some?
    ensures NextCandidate(p, cutoff, policy).value == 0
  {
    var first := Expired(p.rows[0], cutoff);
  }

  lemma RestExpiredFirst(rows: seq<SpoolRow>, cutoff: int)
    requires ExpiredFirst(rows, cutoff) && rows != []
    ensures ExpiredFirst(rows[1..], cutoff)
  {
    hide Expired;
  }

  lemma SuffixOfRest<T>(s: seq<T>, t: seq<T>)
    requires s != [] && |t| <= |s| - 1 && t == s[1..][|s| - 1 - |t|..]
    ensures t == s[|s| - |t|..]
  {
  }

  /** The report of a batch is exact, and it stops early only when age, count and bytes are all within bounds. */
  lemma BatchReportIsExact(s: SpoolState, now: int, policy: RetentionPolicy)
    requires ValidSpool(s) && ValidPolicy(policy)
    ensures var (after, report) := PruneRetentionBatch(s, now, policy);
            && ValidSpool(after) && Evolves(s, after) && after.highWatermark == s.highWatermark
            && report.deletedEvents == |s.rows| - |after.rows|
            && report.deletedPayloadBytes == Sum(s.rows, Bytes) - Sum(after.rows, Bytes)
            && report.remainingEvents == |after.rows|
            && report.remainingPayloadBytes == Sum(after.rows, Bytes)
            && (report.moreRequired ==> report.deletedEvents == policy.batchSize)
            && (!report.moreRequired <==>
                  |after.rows| <= policy.maxEvents && Sum(after.rows, Bytes) <= policy.maxPayloadBytes
                  && forall r :: r in after.rows ==> !Expired(r, now - policy.maxAge))
  {
    hide PruneUpTo;
    PruneIsExact(StartPruning(s.rows), s.rows, now - policy.maxAge, policy, policy.batchSize);
    PruneKeepsOrder(StartPruning(s.rows), now - policy.maxAge, policy, policy.batchSize);
  }

  /** While insertion times follow sequence order, retention maps one contiguous suffix to another. */
  lemma BatchKeepsLogShape(s: SpoolState, now: int, policy: RetentionPolicy)
    requires ContiguousSuffix(s) && InsertedInOrder(s.rows) && ValidPolicy(policy)
    ensures ContiguousSuffix(PruneRetentionBatch(s, now, policy).0)
    ensures InsertedInOrder(PruneRetentionBatch(s, now, policy).0.rows)
  {
    hide PruneUpTo;
    PruneRemovesPrefix(StartPruning(s.rows), now - policy.maxAge, policy, policy.batchSize);
  }

  /** Without any limit: a batch keeps the log shape whenever no unexpired row precedes an expired one. */
  lemma ExpiredFirstKeepsShape(s: SpoolState, now: int, policy: RetentionPolicy)
    requires ContiguousSuffix(s) && ValidPolicy(policy) && ExpiredFirst(s.rows, now - policy.maxAge)
    ensures ContiguousSuffix(PruneRetentionBatch(s, now, policy).0)
  {
    hide PruneUpTo;
    PruneRemovesPrefix(StartPruning(s.rows), now - policy.maxAge, policy, policy.batchSize);
  }

  function ExpiredCount(rows: seq<SpoolRow>, cutoff: int): nat {
    if rows == [] then 0 else (if Expired(rows[0], cutoff) then 1 else 0) + ExpiredCount(rows[1..], cutoff)
  }

  /** The rows without their first budget expired ones. */
  function DropFirstExpired(rows: seq<SpoolRow>, cutoff: int, budget: nat): seq<SpoolRow> {
    if rows == [] then []
    else if Expired(rows[0], cutoff) && budget > 0 then DropFirstExpired(rows[1..], cutoff, budget - 1)
    else [rows[0]] + DropFirstExpired(rows[1..], cutoff, budget)
  }

  /** The row is expired and the batch reaches it. */
  predicate Reached(rows: seq<SpoolRow>, cutoff: int, budget: nat, j: nat)
    requires j < |rows|
  {
    Expired(rows[j], cutoff) && ExpiredCount(rows[..j], cutoff) < budget
  }

  lemma ReachedInRest(rows: seq<SpoolRow>, cutoff: int, budget: nat, j: nat)
    requires 0 < j < |rows|
    ensures var left := budget - if Expired(rows[0], cutoff) && budget > 0 then 1 else 0;
            Reached(rows, cutoff, budget, j) <==> Reached(rows[1..], cutoff, left, j - 1)
  {
    assert rows[..j][1..] == rows[1..][..j - 1];
  }

  /** Within the limits a batch deletes exactly the first expired rows, as many as it may. */
  lemma {:induction false} AgeOnlyBatch(p: Pruning, original: seq<SpoolRow>, cutoff: int, policy: RetentionPolicy, budget: nat)
    requires CountsExact(p, original) && ValidPolicy(policy) && !OverLimits(p, policy)
    ensures PruneUpTo(p, cutoff, policy, budget).rows == DropFirstExpired(p.rows, cutoff, budget)
    decreases budget
  {
    hide FirstExpired, Sum, PruneUpTo, DropFirstExpired;
    PruneStep(p, cutoff, policy, budget);
    if budget > 0 && NextCandidate(p, cutoff, policy).Some? {
      var i := NextCandidate(p, cutoff, policy).value;
      InnerBreakIsUnreachable(p, cutoff, policy);
      SumRemove(p.rows, i, Bytes);
      AgeOnlyBatch(DeleteRow(p, i), original, cutoff, policy, budget - 1);
      DropOneExpired(p.rows, i, cutoff, budget);
    } else {
      DropNothing(p.rows, cutoff, budget);
    }
  }

  lemma {:induction false} DropNothing(rows: seq<SpoolRow>, cutoff: int, budget: nat)
    requires forall j :: 0 <= j < |rows| ==> !Reached(rows, cutoff, budget, j)
    ensures DropFirstExpired(rows, cutoff, budget) == rows
  {
    if rows != [] {
      assert !Reached(rows, cutoff, budget, 0);
      forall j | 0 <= j < |rows| - 1 ensures !Reached(rows[1..], cutoff, budget, j) {
        ReachedInRest(rows, cutoff, budget, j + 1);
      }
      DropNothing(rows[1..], cutoff, budget);
    }
  }

  lemma {:induction false} DropOneExpired(rows: seq<SpoolRow>, i: nat, cutoff: int, budget: nat)
    requires i < |rows| && Expired(rows[i], cutoff) && budget > 0
    requires forall j :: 0 <= j < i ==> !Expired(rows[j], cutoff)
    ensures DropFirstExpired(rows[..i] + rows[i + 1..], cutoff, budget - 1) == DropFirstExpired(rows, cutoff, budget)
  {
    var rest := rows[..i] + rows[i + 1..];
    if i == 0 {
      assert rest == rows[1..];
    } else {
      DropOneExpired(rows[1..], i - 1, cutoff, budget);
      assert rest[1..] == rows[1..][..i - 1] + rows[1..][i..];
    }
  }

  /** Exactly the reached rows go. */
  lemma {:induction false} DroppedAreReached(rows: seq<SpoolRow>, cutoff: int, budget: nat)
    requires Ascending(rows, Sequence)
    ensures forall r :: r in DropFirstExpired(rows, cutoff, budget) ==> r in rows
    ensures forall j :: 0 <= j < |rows| ==> (rows[j] in DropFirstExpired(rows, cutoff, budget) <==> !Reached(rows, cutoff, budget, j))
  {
    hide Expired;
    if rows != [] {
      var gone := Expired(rows[0], cutoff) && budget > 0;
      var left := budget - if gone then 1 else 0;
      var rest, dropped := rows[1..], DropFirstExpired(rows[1..], cutoff, left);
      assert Ascending(rest, Sequence) by {
        forall i, j | 0 <= i < j < |rest| ensures Sequence(rest[i]) < Sequence(rest[j]) {
          assert Sequence(rows[i + 1]) < Sequence(rows[j + 1]);
        }
      }
      DroppedAreReached(rest, cutoff, left);
      assert rows[0] !in rest by { FirstIsNotInRest(rows); }
      DropFirstStep(rows, cutoff, budget);
      forall j | 0 <= j < |rows|
        ensures rows[j] in DropFirstExpired(rows, cutoff, budget) <==> !Reached(rows, cutoff, budget, j)
      {
        if j > 0 {
          ReachedInRest(rows, cutoff, budget, j);
          assert rows[j] == rest[j - 1] && rest[j - 1] in rest;
        }
      }
    }
  }

  lemma FirstIsNotInRest(rows: seq<SpoolRow>)
    requires Ascending(rows, Sequence) && rows != []
    ensures rows[0] !in rows[1..]
  {
    forall j | 0 <= j < |rows| - 1 ensures rows[1..][j] != rows[0] {
      assert Sequence(rows[0]) < Sequence(rows[j + 1]);
    }
  }

  lemma DropFirstStep(rows: seq<SpoolRow>, cutoff: int, budget: nat)
    requires rows != []
    ensures DropFirstExpired(rows, cutoff, budget)
         == if Reached(rows, cutoff, budget, 0) then DropFirstExpired(rows[1..], cutoff, budget - 1)
            else [rows[0]] + DropFirstExpired(rows[1..], cutoff, budget)
    ensures Reached(rows, cutoff, budget, 0) <==> Expired(rows[0], cutoff) && budget > 0
  {
    hide Expired;
  }

  /** Every row the batch reaches has only expired rows before it. */
  ghost predicate ReachesAPrefix(rows: seq<SpoolRow>, cutoff: int, budget: nat) {
    forall i, j :: 0 <= i < j < |rows| && Reached(rows, cutoff, budget, j) ==> Expired(rows[i], cutoff)
  }

  lemma {:induction false} PrefixDropped(rows: seq<SpoolRow>, cutoff: int, budget: nat)
    requires ReachesAPrefix(rows, cutoff, budget)
    ensures var kept := DropFirstExpired(rows, cutoff, budget);
            |kept| <= |rows| && kept == rows[|rows| - |kept|..]
  {
    hide Expired, Reached, DropFirstExpired;
    if rows == [] {
      DropNothing(rows, cutoff, budget);
    } else {
      DropFirstStep(rows, cutoff, budget);
      if Reached(rows, cutoff, budget, 0) {
        var rest, left := rows[1..], budget - 1;
        forall i, j | 0 <= i < j < |rest| && Reached(rest, cutoff, left, j) ensures Expired(rest[i], cutoff) {
          ReachedInRest(rows, cutoff, budget, j + 1);
          assert rest[i] == rows[i + 1];
        }
        PrefixDropped(rest, cutoff, left);
        SuffixOfRest(rows, DropFirstExpired(rest, cutoff, left));
      } else {
        NoneReachedBehind(rows, cutoff, budget);
        DropNothing(rows, cutoff, budget);
      }
    }
  }

  lemma NoneReachedBehind(rows: seq<SpoolRow>, cutoff: int, budget: nat)
    requires ReachesAPrefix(rows, cutoff, budget) && rows != [] && !Reached(rows, cutoff, budget, 0)
    ensures forall j :: 0 <= j < |rows| ==> !Reached(rows, cutoff, budget, j)
  {
    hide Expired;
  }

  /**
   * The log shape is not kept for every clock. Within the count and byte limits, for every batch size, a batch keeps
   * it if and only if each expired row it reaches has only expired rows before it.
   */
  lemma AgePruningKeepsShapeIff(s: SpoolState, now: int, policy: RetentionPolicy)
    requires ValidSpool(s) && ContiguousSuffix(s) && ValidPolicy(policy)
    requires |s.rows| <= policy.maxEvents && Sum(s.rows, Bytes) <= policy.maxPayloadBytes
    ensures ContiguousSuffix(PruneRetentionBatch(s, now, policy).0)
       <==> ReachesAPrefix(s.rows, now - policy.maxAge, policy.batchSize)
  {
    hide PruneUpTo, Sum, ValidSpool, DropFirstExpired, ReachesAPrefix;
    var cutoff := now - policy.maxAge;
    SoundOrder(s);
    AgeOnlyBatch(StartPruning(s.rows), s.rows, cutoff, policy, policy.batchSize);
    if ReachesAPrefix(s.rows, cutoff, policy.batchSize) {
      PrefixDropped(s.rows, cutoff, policy.batchSize);
    }
    if ContiguousSuffix(PruneRetentionBatch(s, now, policy).0) {
      ContiguousReachesAPrefix(s, cutoff, policy.batchSize);
    }
  }

  lemma ContiguousReachesAPrefix(s: SpoolState, cutoff: int, budget: nat)
    requires Ascending(s.rows, Sequence) && ContiguousSuffix(s)
    requires ContiguousSuffix(s.(rows := DropFirstExpired(s.rows, cutoff, budget)))
    ensures ReachesAPrefix(s.rows, cutoff, budget)
  {
    hide DropFirstExpired, Expired, ExpiredCount;
    var kept := DropFirstExpired(s.rows, cutoff, budget);
    DroppedAreReached(s.rows, cutoff, budget);
    forall i, j | 0 <= i < j < |s.rows| && Reached(s.rows, cutoff, budget, j) ensures Expired(s.rows[i], cutoff) {
      if s.rows[i] in kept {
        var k :| 0 <= k < |kept| && kept[k] == s.rows[i];
        var at := k + (j - i);
        assert kept[at].sequence == s.rows[j].sequence;
        assert kept[at] in s.rows;
        AscendingUnique(s.rows, Sequence, kept[at], s.rows[j]);
        assert false;
      }
    }
  }

  // ---- Emission ----

  predicate MaintenanceDue(s: SpoolState, now: int) {
    match s.lastMaintenance
    case None => true
    case Some(last) =>
      var elapsed := now - last * NANOS_PER_MILLI;
      elapsed < 0 || elapsed >= MAINTENANCE_INTERVAL
  }

  /** Appends one event under the next sequence; the high watermark never goes back. */
  function AppendEvent(s: SpoolState, event: Event, bytes: nat, insertedAt: int): Result<SpoolState, SpoolError> {
    if s.highWatermark >= I64_MAX then Err(SequenceExhausted)
    else if exists r :: r in s.rows && r.event.id == event.id then Err(DuplicateEventId)
    else
      var row := SpoolRow(s.highWatermark + 1, event.(sourceId := s.sourceId), FormatTimestamp(insertedAt), bytes);
      Ok(s.(highWatermark := s.highWatermark + 1, rows := s.rows + [row]))
  }

  function EmitMaintenance(s: SpoolState, now: int): SpoolState {
    if MaintenanceDue(s, now) then PruneRetentionBatch(s, now, DEFAULT_RETENTION).0 else s
  }

  /** emit as a whole: the spool it leaves and what it answers. */
  function EmitOnce(s: SpoolState, event: Event, bytes: nat, now: int, insertedAt: int): (SpoolState, Result<int, SpoolError>) {
    var maintained := EmitMaintenance(s, now);
    match AppendEvent(maintained, event, bytes, insertedAt)
    case Ok(after) => (after, Ok(after.highWatermark))
    case Err(e) => (maintained, Err(e))
  }

  lemma AppendKeepsSoundness(s: SpoolState, event: Event, bytes: nat, insertedAt: int)
    requires ValidSpool(s)
    ensures match AppendEvent(s, event, bytes, insertedAt)
            case Err(_) => true
            case Ok(after) =>
              && ValidSpool(after) && Evolves(s, after)
              && after.highWatermark == s.highWatermark + 1
              && after.rows[|after.rows| - 1].sequence == after.highWatermark
              && (ContiguousSuffix(s) ==> ContiguousSuffix(after))
  {
    var result := AppendEvent(s, event, bytes, insertedAt);
    if result.Ok? {
      var after := result.value;
      var n := |s.rows|;
      forall i, j | 0 <= i < j < |after.rows|
        ensures after.rows[i].sequence < after.rows[j].sequence
        ensures after.rows[i].event.id != after.rows[j].event.id
      {
        assert s.rows[i] in s.rows;
        if j < n { assert Sequence(s.rows[i]) < Sequence(s.rows[j]); }
      }
    }
  }

  /** Every emit, successful or not, is an evolution of a sound spool; a successful one appends the next sequence. */
  lemma EmitEvolves(s: SpoolState, event: Event, bytes: nat, now: int, insertedAt: int)
    requires ValidSpool(s)
    ensures var maintained := EmitMaintenance(s, now);
            && ValidSpool(maintained) && Evolves(s, maintained) && maintained.highWatermark == s.highWatermark
            && match AppendEvent(maintained, event, bytes, insertedAt)
               case Err(_) => true
               case Ok(after) =>
                 && ValidSpool(after) && Evolves(s, after)
                 && after.highWatermark == s.highWatermark + 1
                 && after.rows[|after.rows| - 1].sequence == after.highWatermark
                 && (ContiguousSuffix(maintained) ==> ContiguousSuffix(after))
  {
    hide PruneRetentionBatch, Sum, AppendEvent, ValidSpool;
    BatchReportIsExact(s, now, DEFAULT_RETENTION);
    AppendKeepsSoundness(EmitMaintenance(s, now), event, bytes, insertedAt);
    var appended := AppendEvent(EmitMaintenance(s, now), event, bytes, insertedAt);
    if appended.Ok? {
      EvolvesTransitive(s, EmitMaintenance(s, now), appended.value);
    }
  }

  // ---- What an emit means for the log ----

  /** The rows of a spool that were there before an emit from this watermark. */
  function OlderRows(after: SpoolState, highWatermark: int): seq<SpoolRow> {
    if after.highWatermark > highWatermark && after.rows != [] then after.rows[..|after.rows| - 1] else after.rows
  }

  /** No older row is more than 30 days old, and count and bytes fit the default limits. */
  ghost predicate WithinRetention(rows: seq<SpoolRow>, now: int) {
    && |rows| <= 100_000 && Sum(rows, Bytes) <= 268_435_456
    && forall r :: r in rows ==> r.insertedAt >= (now - 30 * 24 * 3600 * 1_000_000_000) / 1_000_000
  }

  /** Never maintained, maintained a day or longer ago, or by a clock that has since gone back. */
  ghost predicate ADayPassed(lastMaintenance: Option<int>, now: int) {
    lastMaintenance.None?
    || now - lastMaintenance.value * 1_000_000 >= 24 * 3600 * 1_000_000_000
    || now - lastMaintenance.value * 1_000_000 < 0
  }

  /** The older rows are brought within the limits or thinned by a full batch, and the maintenance is noted when done. */
  ghost predicate MaintainedBy(s: SpoolState, after: SpoolState, now: int) {
    var older := OlderRows(after, s.highWatermark);
    if WithinRetention(older, now) then after.lastMaintenance == Some(now / 1_000_000)
    else |older| == |s.rows| - 1000 && after.lastMaintenance.None?
  }

  /** The outcome of the append itself, over the rows left by then. */
  ghost predicate AppendedTo(s: SpoolState, event: Event, bytes: nat, insertedAt: int, after: SpoolState, result: Result<int, SpoolError>) {
    var older := OlderRows(after, s.highWatermark);
    match result
    case Ok(sequence) =>
      && sequence == s.highWatermark + 1 <= I64_MAX && after.highWatermark == sequence
      && after.rows == older + [SpoolRow(sequence, event.(sourceId := s.sourceId), insertedAt / 1_000_000, bytes)]
      && forall r :: r in older ==> r.event.id != event.id
    case Err(e) =>
      && after.highWatermark == s.highWatermark && after.rows == older
      && (e == SequenceExhausted <==> s.highWatermark >= I64_MAX)
      && (e == DuplicateEventId <==> s.highWatermark < I64_MAX && exists r :: r in older && r.event.id == event.id)
      && (e == SequenceExhausted || e == DuplicateEventId)
  }

  lemma EmitMaintenanceIs(s: SpoolState, now: int)
    requires ValidSpool(s)
    ensures var m := EmitMaintenance(s, now);
            && m.highWatermark == s.highWatermark && m.sourceId == s.sourceId
            && (forall r :: r in m.rows ==> r in s.rows && r.sequence <= s.highWatermark)
            && if ADayPassed(s.lastMaintenance, now) then MaintainedBy(s, m, now) else m == s
  {
    hide PruneUpTo, Sum, FirstExpired;
    BatchReportIsExact(s, now, DEFAULT_RETENTION);
  }

  /**
   * Once a day, or when the clock has gone back, an emit first brings the older rows within 30 days, 100,000 rows and
   * 256 MiB or deletes a full batch of 1,000; on any other day it leaves them alone. Then it appends the event as given,
   * under the spool's identity and the next sequence, or refuses it and appends nothing.
   */
  lemma EmitMaintainsOnceADay(s: SpoolState, event: Event, bytes: nat, now: int, insertedAt: int)
    requires ValidSpool(s)
    ensures var (after, result) := EmitOnce(s, event, bytes, now, insertedAt);
            && AppendedTo(s, event, bytes, insertedAt, after, result)
            && after.sourceId == s.sourceId
            && (forall r :: r in OlderRows(after, s.highWatermark) ==> r in s.rows)
            && if ADayPassed(s.lastMaintenance, now) then MaintainedBy(s, after, now)
               else OlderRows(after, s.highWatermark) == s.rows && after.lastMaintenance == s.lastMaintenance
  {
    hide EmitMaintenance, WithinRetention, ADayPassed, ValidSpool;
    EmitMaintenanceIs(s, now);
    var (after, result) := EmitOnce(s, event, bytes, now, insertedAt);
    assert OlderRows(after, s.highWatermark) == EmitMaintenance(s, now).rows;
  }

  // ---- A reachable spool with a hole ----

  /** One emit, its maintenance included. */
  function Emission(s: SpoolState, event: Event, bytes: nat, now: int): Result<SpoolState, SpoolError> {
    AppendEvent(EmitMaintenance(s, now), event, bytes, now)
  }

  /** What is left of a spool whose second event was written while the clock stood at 0. */
  function HoledAtTail(first: Event): SpoolState {
    SpoolState(first.sourceId, 2, [RowOfDay99(first)], Some(FormatTimestamp(100 * DAY)))
  }

  lemma SmallSum(rows: seq<SpoolRow>)
    requires |rows| <= 2 && forall r :: r in rows ==> r.bytes == 1
    ensures Sum(rows, Bytes) == |rows|
  {
    if rows != [] {
      assert rows[|rows| - 1] in rows;
      assert |rows| == 2 ==> rows[..1] == [rows[0]] && rows[0] in rows && rows[..1][..0] == [];
    }
  }

  /** A batch on at most two small rows is decided by age alone. */
  lemma SmallBatch(s: SpoolState, now: int, kept: seq<SpoolRow>)
    requires ValidSpool(s) && |s.rows| <= 2 && forall r :: r in s.rows ==> r.bytes == 1
    requires kept == DropFirstExpired(s.rows, now - DEFAULT_RETENTION.maxAge, MAINTENANCE_BATCH_SIZE)
    requires |kept| <= 2 && forall r :: r in kept ==> r.bytes == 1 && !Expired(r, now - DEFAULT_RETENTION.maxAge)
    ensures PruneRetentionBatch(s, now, DEFAULT_RETENTION).0
         == s.(rows := kept, lastMaintenance := Some(FormatTimestamp(now)))
  {
    hide PruneUpTo, DropFirstExpired, ValidSpool, Expired, Sum;
    SmallSum(s.rows);
    SmallSum(kept);
    AgeOnlyBatch(StartPruning(s.rows), s.rows, now - DEFAULT_RETENTION.maxAge, DEFAULT_RETENTION, MAINTENANCE_BATCH_SIZE);
    BatchReportIsExact(s, now, DEFAULT_RETENTION);
  }

  function RowOfDay99(e: Event): SpoolRow { SpoolRow(1, e, FormatTimestamp(99 * DAY), 1) }

  function RowOfDay0(f: Event): SpoolRow { SpoolRow(2, f, FormatTimestamp(0), 1) }

  /** A small batch on day 0 drops nothing written later, one on day 100 only what is dated day 0. */
  lemma WhatSmallBatchesDrop(e: Event, f: Event)
    ensures DropFirstExpired([RowOfDay99(e)], 0 - DEFAULT_RETENTION.maxAge, MAINTENANCE_BATCH_SIZE) == [RowOfDay99(e)]
    ensures DropFirstExpired([RowOfDay99(e), RowOfDay0(f)], 100 * DAY - DEFAULT_RETENTION.maxAge, MAINTENANCE_BATCH_SIZE)
         == [RowOfDay99(e)]
    ensures !Expired(RowOfDay99(e), 0 - DEFAULT_RETENTION.maxAge) && !Expired(RowOfDay99(e), 100 * DAY - DEFAULT_RETENTION.maxAge)
  {
    DropFirstStep([RowOfDay99(e)], 0 - DEFAULT_RETENTION.maxAge, MAINTENANCE_BATCH_SIZE);
    DropFirstStep([RowOfDay99(e), RowOfDay0(f)], 100 * DAY - DEFAULT_RETENTION.maxAge, MAINTENANCE_BATCH_SIZE);
    DropFirstStep([RowOfDay0(f)], 100 * DAY - DEFAULT_RETENTION.maxAge, MAINTENANCE_BATCH_SIZE);
  }

  lemma FirstEmission(e: Event)
    ensures Emission(SpoolState(e.sourceId, 0, [], Some(FormatTimestamp(99 * DAY))), e, 1, 99 * DAY)
         == Ok(SpoolState(e.sourceId, 1, [RowOfDay99(e)], Some(FormatTimestamp(99 * DAY))))
  {
    hide PruneRetentionBatch;
    assert e.(sourceId := e.sourceId) == e && [] + [RowOfDay99(e)] == [RowOfDay99(e)];
    assert FormatTimestamp(99 * DAY) * NANOS_PER_MILLI == 99 * DAY;
  }

  lemma SecondEmission(e: Event, f: Event)
    requires e.sourceId == f.sourceId && e.sourceId.rfc4122 && e.id != f.id
    ensures Emission(SpoolState(e.sourceId, 1, [RowOfDay99(e)], Some(FormatTimestamp(99 * DAY))), f, 1, 0)
         == Ok(SpoolState(e.sourceId, 2, [RowOfDay99(e), RowOfDay0(f)], Some(FormatTimestamp(0))))
  {
    hide PruneRetentionBatch, DropFirstExpired, Expired;
    assert f.(sourceId := e.sourceId) == f && [RowOfDay99(e)] + [RowOfDay0(f)] == [RowOfDay99(e), RowOfDay0(f)];
    assert FormatTimestamp(99 * DAY) * NANOS_PER_MILLI == 99 * DAY;
    WhatSmallBatchesDrop(e, f);
    SmallBatch(SpoolState(e.sourceId, 1, [RowOfDay99(e)], Some(FormatTimestamp(99 * DAY))), 0, [RowOfDay99(e)]);
  }

  /**
   * A reachable spool: one event is written on day 99, a second one while the clock reads day 0, and maintenance
   * runs on day 100. The second row is then the expired one, which leaves a hole at the tail.
   */
  lemma SteppedBackClockLeavesHole(e: Event, f: Event)
    requires e.sourceId == f.sourceId && e.sourceId.rfc4122 && e.id != f.id
    ensures var one := Emission(SpoolState(e.sourceId, 0, [], Some(FormatTimestamp(99 * DAY))), e, 1, 99 * DAY);
            && one.Ok?
            && var two := Emission(one.value, f, 1, 0);
            && two.Ok? && ContiguousSuffix(two.value)
            && PruneRetentionBatch(two.value, 100 * DAY, DEFAULT_RETENTION).0 == HoledAtTail(e)
            && !ContiguousSuffix(HoledAtTail(e))
  {
    hide PruneRetentionBatch, DropFirstExpired, Expired, Emission;
    FirstEmission(e);
    SecondEmission(e, f);
    WhatSmallBatchesDrop(e, f);
    SmallBatch(SpoolState(e.sourceId, 2, [RowOfDay99(e), RowOfDay0(f)], Some(FormatTimestamp(0))), 100 * DAY, [RowOfDay99(e)]);
    assert HoledAtTail(e).rows[0].sequence == 1;
  }

  /** The next emit turns the hole at the tail into one inside the log. */
  function HoledInside(first: Event, next: Event): SpoolState {
    HoledAtTail(first).(highWatermark := 3, rows := HoledAtTail(first).rows + [SpoolRow(3, next, FormatTimestamp(100 * DAY), 1)])
  }

  lemma NextEmitLeavesHoleInside(e: Event, g: Event)
    requires e.sourceId == g.sourceId && e.sourceId.rfc4122 && e.id != g.id
    ensures Emission(HoledAtTail(e), g, 1, 100 * DAY) == Ok(HoledInside(e, g))
    ensures ValidSpool(HoledAtTail(e)) && ValidSpool(HoledInside(e, g))
  {
    hide PruneRetentionBatch;
    assert g.(sourceId := e.sourceId) == g;
  }

  class Spool {
    const sourceId: Uuid
    var highWatermark: int
    var rows: seq<SpoolRow>
    var lastMaintenance: Option<int>

    function State(): SpoolState
      reads this
    {
      SpoolState(sourceId, highWatermark, rows, lastMaintenance)
    }

    constructor (sourceId: Uuid, now: int)
      requires sourceId.rfc4122
      ensures State() == SpoolState(sourceId, 0, [], Some(FormatTimestamp(now))) && ValidSpool(State())
    {
      this.sourceId := sourceId;
      highWatermark, rows, lastMaintenance := 0, [], Some(FormatTimestamp(now));
    }

    /** Hook path: maintenance when due, then one appended row under the next sequence. */
    method Emit(event: Event, bytes: nat, now: int, insertedAt: int) returns (result: Result<int, SpoolError>)
      requires ValidSpool(State())
      modifies this
      ensures ValidSpool(State()) && Evolves(old(State()), State())
      ensures (State(), result) == EmitOnce(old(State()), event, bytes, now, insertedAt)
      ensures AppendedTo(old(State()), event, bytes, insertedAt, State(), result)
      ensures if ADayPassed(old(lastMaintenance), now) then MaintainedBy(old(State()), State(), now)
              else OlderRows(State(), old(highWatermark)) == old(rows) && lastMaintenance == old(lastMaintenance)
    {
      hide PruneRetentionBatch, ValidSpool, Evolves, AppendedTo, MaintainedBy, ADayPassed, OlderRows;
      EmitEvolves(State(), event, bytes, now, insertedAt);
      EmitMaintainsOnceADay(State(), event, bytes, now, insertedAt);
      if MaintenanceDue(State(), now) {
        var _ := Maintain(now, DEFAULT_RETENTION);
      }
      if highWatermark >= I64_MAX {
        return Err(SequenceExhausted);
      }
      if exists r :: r in rows && r.event.id == event.id {
        return Err(DuplicateEventId);
      }
      highWatermark := highWatermark + 1;
      rows := rows + [SpoolRow(highWatermark, event.(sourceId := sourceId), FormatTimestamp(insertedAt), bytes)];
      return Ok(highWatermark);
    }

    method Maintain(now: int, policy: RetentionPolicy) returns (result: Result<MaintenanceReport, SpoolError>)
      modifies this`rows, this`lastMaintenance
      ensures policy.maxAge < 0 || policy.maxEvents < 0 || policy.maxPayloadBytes < 0 || policy.batchSize < 1 || policy.batchSize > 10_000
              ==> result == Err(InvalidRetentionPolicy) && State() == old(State())
      ensures policy.maxAge >= 0 && policy.maxEvents >= 0 && policy.maxPayloadBytes >= 0 && 1 <= policy.batchSize <= 10_000 ==>
                result.Ok? && (State(), result.value) == PruneRetentionBatch(old(State()), now, policy)
    {
      hide FirstExpired, Sum, PruneUpTo, NextCandidate, StopsAtCandidate;
      if !ValidPolicy(policy) {
        return Err(InvalidRetentionPolicy);
      }
      var cutoff := now - policy.maxAge;
      var remainingEvents, remainingBytes := |rows|, Sum(rows, Bytes);
      var deletedEvents, deletedBytes := 0, 0;
      ghost var start := StartPruning(rows);
      var budget := policy.batchSize;
      while budget > 0
        invariant 0 <= budget
        invariant PruneUpTo(start, cutoff, policy, policy.batchSize)
               == PruneUpTo(Pruning(rows, deletedEvents, deletedBytes, remainingEvents, remainingBytes), cutoff, policy, budget)
      {
        var p := Pruning(rows, deletedEvents, deletedBytes, remainingEvents, remainingBytes);
        PruneStep(p, cutoff, policy, budget);
        var candidate := NextCandidate(p, cutoff, policy);
        if candidate.None? || StopsAtCandidate(p, candidate.value, cutoff, policy) {
          break;
        }
        var row := rows[candidate.value];
        rows := rows[..candidate.value] + rows[candidate.value + 1..];
        deletedEvents := deletedEvents + 1;
        deletedBytes := deletedBytes + row.bytes;
        remainingEvents := remainingEvents - 1;
        remainingBytes := remainingBytes - row.bytes;
        budget := budget - 1;
      }
      PruneStep(Pruning(rows, deletedEvents, deletedBytes, remainingEvents, remainingBytes), cutoff, policy, 0);
      var expiredExists := FirstExpired(rows, cutoff).Some?;
      var moreRequired :=
        remainingEvents > policy.maxEvents || remainingBytes > policy.maxPayloadBytes || expiredExists;
      lastMaintenance := if moreRequired then None else Some(FormatTimestamp(now));
      return Ok(MaintenanceReport(deletedEvents, deletedBytes, remainingEvents, remainingBytes, moreRequired));
    }
  }
}
