/** The bridge loop: a live spool turned into a frame stream that never skips a sequence silently. */
module Bridge {
  import opened Base
  import opened Events
  import opened Rows
  import opened Protocol
  import opened Spools

  const BRIDGE_PAGE_SIZE := 256

  /**
   * What one turn of the loop reads: a snapshot, a page and a second snapshot, each of the spool as it is
   * at that moment. Other processes may emit and prune between any two of them.
   */
  datatype Poll = Poll(first: SpoolState, page: SpoolState, post: SpoolState)

  /** Interrupted: the process was cut off before the loop ended. */
  datatype Exit = Done(code: int) | Interrupted

  const CURSOR_AHEAD := ErrorFrame("cursor_ahead", "requested cursor is ahead of the source")
  const IDENTITY_CHANGED := ErrorFrame("source_identity_changed", "source identity changed during the stream")

  /** Every state read is sound, and the page belongs to the identity its snapshot announced. */
  ghost predicate Readable(initial: SpoolState, polls: seq<Poll>) {
    ValidSpool(initial)
    && forall p :: p in polls ==>
         ValidSpool(p.first) && ValidSpool(p.page) && ValidSpool(p.post) && p.page.sourceId == p.first.sourceId
  }

  /** Only emits and prunes happen between reads. */
  ghost predicate Growing(initial: SpoolState, polls: seq<Poll>) {
    && (forall p :: p in polls ==> Evolves(initial, p.first) && Evolves(p.first, p.page) && Evolves(p.page, p.post))
    && (forall i :: 0 <= i < |polls| - 1 ==> Evolves(polls[i].post, polls[i + 1].first))
  }

  /** The frame is true of the state it was read from: a gap covers nothing retained, an event is retained. */
  ghost predicate Honest(frame: Frame, read: SpoolState) {
    match frame
    case Gap(requestedAfter, _, lostThrough) =>
      forall r :: r in read.rows ==> !(requestedAfter < r.sequence <= lostThrough)
    case EventFrame(sequence, event) =>
      exists r :: r in read.rows && r.sequence == sequence && StrippedOf(event, r.event)
    case _ => true
  }

  /** A stream that a validator started at the same cursor has accepted so far and would accept more of. */
  ghost predicate Streaming(start: Validator, out: seq<Frame>, sourceId: Uuid, cursor: int) {
    AcceptAll(start, out) ==
      Ok(start.(sourceId := Some(sourceId), cursor := cursor, requiredGap := None, phase := Active))
  }

  ghost predicate AllHonest(out: seq<Frame>, origin: seq<SpoolState>) {
    |origin| == |out| && forall i :: 0 <= i < |out| ==> Honest(out[i], origin[i])
  }

  /** The last frame is an error that is true of the state it was read from. */
  ghost predicate SaysWhy(stream: Stream, sourceId: Uuid) {
    && |stream.origin| == |stream.out| > 0
    && var last, read := stream.out[|stream.out| - 1], stream.origin[|stream.out| - 1];
    && last.ErrorFrame?
    && (last.code == "source_identity_changed" ==> read.sourceId != sourceId)
    && (last.code == "cursor_ahead" ==> read.sourceId == sourceId && stream.cursor > read.highWatermark)
    && (last.code == "source_identity_changed" || last.code == "cursor_ahead")
  }

  /** The stream opens by announcing, in version 1, what was to be had when it started. */
  ghost predicate Greets(stream: Stream, initial: SpoolState) {
    stream.out != [] && stream.out[0] == Hello(1, initial.sourceId, Oldest(initial), initial.highWatermark)
  }

  /** Code 2 comes with its reason, and code 0 only at the watermark of the same source, when not following. */
  ghost predicate EndsFor(exit: Exit, stream: Stream, sourceId: Uuid, polls: seq<Poll>, follow: bool) {
    && (exit.Done? ==> exit.code == 0 || exit.code == 2)
    && (exit == Done(2) ==> SaysWhy(stream, sourceId))
    && (exit == Done(0) ==>
          !follow && exists poll :: poll in polls && poll.post.sourceId == sourceId && poll.post.highWatermark == stream.cursor)
  }

  // ---- What a quiet spool yields ----

  /** The rows after the cursor as frames, holes spelled out. */
  function EventFrames(rows: seq<SpoolRow>, cursor: int): seq<Frame> {
    if rows == [] then [] else RowFrames(rows[0], cursor) + EventFrames(rows[1..], rows[0].sequence)
  }

  function RowFrames(row: SpoolRow, cursor: int): seq<Frame> {
    (if row.sequence > cursor + 1 then [Gap(cursor, Some(row.sequence), row.sequence - 1)] else [])
    + [EventFrame(row.sequence, RemoveTerminalActivationMetadata(row.event))]
  }

  function Oldest(s: SpoolState): Option<int> {
    if s.rows == [] then None else Some(s.rows[0].sequence)
  }

  /** The declared front gap, if any, and the cursor it leaves. */
  function FrontGap(s: SpoolState, cursor: int): (seq<Frame>, int) {
    match LostThrough(cursor, Oldest(s), s.highWatermark)
    case None => ([], cursor)
    case Some(through) => ([Gap(cursor, Oldest(s), through)], through)
  }

  function HelloOf(s: SpoolState): Frame {
    Hello(PROTOCOL_VERSION, s.sourceId, Oldest(s), s.highWatermark)
  }

  /** The complete stream of a spool nobody else is touching. */
  function QuietStream(s: SpoolState, after: int): seq<Frame> {
    var (gap, cursor) := FrontGap(s, after);
    [HelloOf(s)] + gap + EventFrames(RowsAfter(s.rows, cursor), cursor)
  }

  /** Nothing retained, or the newest retained row is the newest ever written. */
  ghost predicate TailComplete(s: SpoolState) {
    s.rows == [] || s.rows[|s.rows| - 1].sequence == s.highWatermark
  }

  /** The loop can reach the high watermark from this cursor, or stands at it already. */
  ghost predicate Finishable(s: SpoolState, cursor: int) {
    TailComplete(s) || cursor == s.highWatermark
  }

  /** A spool that emits and pruning do produce, on which a stream from 0 never ends. */
  lemma TailHoleIsUnfinishable(e: Event, f: Event)
    requires e.sourceId == f.sourceId && e.sourceId.rfc4122 && e.id != f.id
    ensures ValidSpool(HoledAtTail(e)) && 0 <= HoledAtTail(e).highWatermark && !Finishable(HoledAtTail(e), 0)
    ensures var one := Emission(SpoolState(e.sourceId, 0, [], Some(FormatTimestamp(99 * DAY))), e, 1, 99 * DAY);
            && one.Ok?
            && var two := Emission(one.value, f, 1, 0);
            two.Ok? && PruneRetentionBatch(two.value, 100 * DAY, DEFAULT_RETENTION).0 == HoledAtTail(e)
  {
    hide Emission, PruneRetentionBatch;
    SteppedBackClockLeavesHole(e, f);
  }

  ghost predicate Quiet(s: SpoolState, initial: SpoolState, polls: seq<Poll>) {
    initial == s && forall p :: p in polls ==> p == Poll(s, s, s)
  }

  /** What is still to come from here, on a quiet spool. */
  function Remaining(s: SpoolState, cursor: int): seq<Frame> {
    EventFrames(RowsAfter(s.rows, cursor), cursor)
  }

  // ---- Steps ----

  lemma SnapshotOfSound(s: SpoolState)
    requires ValidSpool(s)
    ensures TakeSnapshot(s) == Ok(Snapshot(s.sourceId, Oldest(s), s.highWatermark))
    ensures s.rows != [] ==> 0 < s.rows[0].sequence <= s.highWatermark
    ensures forall r :: r in s.rows ==> s.rows[0].sequence <= r.sequence
  {
    if s.rows != [] {
      assert s.rows[|s.rows| - 1] in s.rows && s.rows[0] in s.rows;
      forall r | r in s.rows ensures s.rows[0].sequence <= r.sequence {
        var i :| 0 <= i < |s.rows| && s.rows[i] == r;
        if i > 0 { assert Sequence(s.rows[0]) < Sequence(s.rows[i]); }
      }
    }
  }

  lemma FrontGapIsHonest(s: SpoolState, cursor: int)
    requires ValidSpool(s) && 0 <= cursor
    ensures var (gap, next) := FrontGap(s, cursor);
            && cursor <= next && (next != cursor ==> next <= s.highWatermark)
            && (forall i :: 0 <= i < |gap| ==> ValidFrame(gap[i]) && Honest(gap[i], s))
            && (gap == [] ==> next == cursor)
            && (gap != [] ==> gap == [gap[0]] && gap[0].Gap? && gap[0].requestedAfter == cursor && gap[0].lostThrough == next)
            && (gap != [] ==> forall r :: r in s.rows ==> r.sequence > next)
  {
    SnapshotOfSound(s);
    hide ValidSpool;
  }

  /** Declaring what a snapshot says is lost is accepted, honest and never moves back. */
  lemma GapStep(start: Validator, out: seq<Frame>, s: SpoolState, sourceId: Uuid, cursor: int)
    requires ValidSpool(s) && 0 <= cursor && Streaming(start, out, sourceId, cursor)
    ensures var (gap, next) := FrontGap(s, cursor);
            Streaming(start, out + gap, sourceId, next) && RowsAfter(s.rows, next) == RowsAfter(s.rows, cursor)
  {
    FrontGapIsHonest(s, cursor);
    hide AcceptAll, RowsAfter, ValidSpool, FrontGap, Honest, ValidFrame;
    var (gap, next) := FrontGap(s, cursor);
    if gap != [] {
      AcceptAllAppend(start, out, gap[0]);
      SameRowsAfter(s.rows, cursor, next);
    } else {
      assert out + gap == out;
    }
  }

  /** Skipping a range that holds no row leaves the same rows to come. */
  lemma {:induction false} SameRowsAfter(rows: seq<SpoolRow>, cursor: int, next: int)
    requires cursor <= next && forall r :: r in rows ==> r.sequence > next
    ensures RowsAfter(rows, next) == RowsAfter(rows, cursor)
  {
    if rows != [] { assert rows[0] in rows; }
  }

  lemma HelloStep(start: Validator, s: SpoolState, after: int)
    requires ValidSpool(s) && after >= 0
    requires start == Validator(PROTOCOL_VERSION, start.pinned, None, after, None, AwaitingHello)
    requires start.pinned == None || start.pinned == Some(s.sourceId)
    ensures AcceptAll(start, [HelloOf(s)])
         == Ok(start.(sourceId := Some(s.sourceId), requiredGap := LostThrough(after, Oldest(s), s.highWatermark), phase := Active))
  {
    SnapshotOfSound(s);
    assert [HelloOf(s)][..0] == [];
    assert AcceptAll(start, []) == Ok(start);
  }

  /** Right after hello, the front gap is exactly the one the validator demands. */
  lemma FirstGapStep(start: Validator, s: SpoolState, after: int)
    requires ValidSpool(s) && after >= 0
    requires start == Validator(PROTOCOL_VERSION, start.pinned, None, after, None, AwaitingHello)
    requires start.pinned == None || start.pinned == Some(s.sourceId)
    ensures Streaming(start, [HelloOf(s)] + FrontGap(s, after).0, s.sourceId, FrontGap(s, after).1)
  {
    FrontGapIsHonest(s, after);
    HelloStep(start, s, after);
    hide AcceptAll, ValidSpool, Honest, ValidFrame;
    var (gap, cursor) := FrontGap(s, after);
    if gap != [] {
      AcceptAllAppend(start, [HelloOf(s)], gap[0]);
    } else {
      assert [HelloOf(s)] + gap == [HelloOf(s)];
    }
  }

  /** One row of a page: a hole is declared first, then the event is sent; both are accepted. */
  lemma RowStep(start: Validator, out: seq<Frame>, s: SpoolState, row: SpoolRow, cursor: int)
    requires ValidSpool(s) && row in s.rows && 0 <= cursor < row.sequence
    requires forall r :: r in s.rows ==> !(cursor < r.sequence < row.sequence)
    requires Streaming(start, out, s.sourceId, cursor)
    ensures Streaming(start, out + RowFrames(row, cursor), s.sourceId, row.sequence)
    ensures forall i :: 0 <= i < |RowFrames(row, cursor)| ==> Honest(RowFrames(row, cursor)[i], s)
  {
    hide AcceptAll, StrippedOf, RemoveTerminalActivationMetadata;
    RemovalStrips(row.event);
    var event := EventFrame(row.sequence, RemoveTerminalActivationMetadata(row.event));
    if row.sequence > cursor + 1 {
      var gap := Gap(cursor, Some(row.sequence), row.sequence - 1);
      AcceptAllAppend(start, out, gap);
      AcceptAllAppend(start, out + [gap], event);
      assert (out + [gap]) + [event] == out + RowFrames(row, cursor);
    } else {
      AcceptAllAppend(start, out, event);
      assert out + [event] == out + RowFrames(row, cursor);
    }
  }

  lemma ErrorStep(start: Validator, out: seq<Frame>, sourceId: Uuid, cursor: int, error: Frame)
    requires Streaming(start, out, sourceId, cursor) && error.ErrorFrame? && ValidFrame(error)
    ensures AcceptAll(start, out + [error]).Ok? && AcceptAll(start, out + [error]).value.cursor == cursor
  {
    hide AcceptAll, ValidFrame;
    AcceptAllAppend(start, out, error);
  }

  lemma CursorAheadIsValid()
    ensures ValidFrame(CURSOR_AHEAD)
  {
  }

  lemma IdentityChangedIsPrintable()
    ensures Printable("source identity changed during the stream")
  {
  }

  lemma IdentityChangedIsValid()
    ensures ValidFrame(IDENTITY_CHANGED)
  {
    hide IsControl;
    IdentityChangedIsPrintable();
    assert Printable("source_identity_changed") by { IdentityCodeIsPrintable(); }
  }

  lemma IdentityCodeIsPrintable()
    ensures Printable("source_identity_changed")
  {
  }

  /** Taking the first row off what is to come. */
  lemma AfterFirstRow(rows: seq<SpoolRow>, cursor: int)
    requires Ascending(rows, Sequence) && RowsAfter(rows, cursor) != []
    ensures var rest := RowsAfter(rows, cursor); RowsAfter(rows, rest[0].sequence) == rest[1..]
    ensures forall r :: r in rows ==> !(cursor < r.sequence < RowsAfter(rows, cursor)[0].sequence)
    ensures RowsAfter(rows, cursor)[0] in rows && cursor < RowsAfter(rows, cursor)[0].sequence
  {
    hide RowsAfter;
    RowsAfterIsSuffix(rows, cursor);
    var rest := RowsAfter(rows, cursor);
    var k := |rows| - |rest|;
    RowsAfterRow(rows, k);
    forall r | r in rows ensures !(cursor < r.sequence < rest[0].sequence) {
      var i :| 0 <= i < |rows| && rows[i] == r;
      if i > k { assert Sequence(rows[k]) < Sequence(rows[i]); }
    }
  }

  /** A written stream so far: accepted, honest about the states it was read from. */
  datatype Stream = Stream(out: seq<Frame>, cursor: int, origin: seq<SpoolState>)

  ghost predicate AtRow(s: SpoolState, cursor: int) {
    exists r :: r in s.rows && r.sequence == cursor
  }

  /** to continues from, and everything added was read from s. */
  ghost predicate Adds(from: Stream, to: Stream, s: SpoolState) {
    && |from.origin| == |from.out| && |to.origin| == |to.out|
    && from.out <= to.out && from.origin <= to.origin
    && forall i :: |from.origin| <= i < |to.origin| ==> to.origin[i] == s
  }

  /** What has been written to to after from, read from s, is accepted and honest. */
  ghost predicate WroteSafely(start: Validator, s: SpoolState, from: Stream, to: Stream) {
    && (to.cursor == from.cursor || AtRow(s, to.cursor))
    && Streaming(start, to.out, s.sourceId, to.cursor)
    && AllHonest(to.out, to.origin)
    && Adds(from, to, s)
  }

  /** It is exactly the first k rows after from, with their holes. */
  ghost predicate WroteRows(s: SpoolState, from: Stream, k: nat, to: Stream) {
    var rest := RowsAfter(s.rows, from.cursor);
    && k <= |rest|
    && from.cursor + k <= to.cursor
    && RowsAfter(s.rows, to.cursor) == rest[k..]
    && to.out + Remaining(s, to.cursor) == from.out + Remaining(s, from.cursor)
  }

  ghost predicate Wrote(start: Validator, s: SpoolState, from: Stream, k: nat, to: Stream) {
    WroteSafely(start, s, from, to) && WroteRows(s, from, k, to)
  }

  lemma WroteNothing(start: Validator, s: SpoolState, from: Stream)
    requires Streaming(start, from.out, s.sourceId, from.cursor) && AllHonest(from.out, from.origin)
    ensures Wrote(start, s, from, 0, from)
  {
    hide AcceptAll, RowsAfter, EventFrames, Honest;
    assert RowsAfter(s.rows, from.cursor)[0..] == RowsAfter(s.rows, from.cursor);
  }

  function WriteRow(stream: Stream, row: SpoolRow, s: SpoolState): Stream {
    Stream(stream.out + RowFrames(row, stream.cursor), row.sequence,
           stream.origin + seq(|RowFrames(row, stream.cursor)|, i => s))
  }

  /** The next row of what is to come, and what is to come after it. */
  lemma NextRow(s: SpoolState, rest: seq<SpoolRow>, k: nat, cursor: int)
    requires ValidSpool(s) && k < |rest| && RowsAfter(s.rows, cursor) == rest[k..]
    ensures rest[k] in s.rows && cursor < rest[k].sequence
    ensures forall r :: r in s.rows ==> !(cursor < r.sequence < rest[k].sequence)
    ensures RowsAfter(s.rows, rest[k].sequence) == rest[k + 1..]
    ensures Remaining(s, cursor) == RowFrames(rest[k], cursor) + Remaining(s, rest[k].sequence)
  {
    hide RowsAfter, EventFrames, RowFrames, ValidSpool;
    SoundOrder(s);
    AfterFirstRow(s.rows, cursor);
    assert rest[k..][0] == rest[k] && rest[k..][1..] == rest[k + 1..];
    RemainingStep(rest[k..], cursor);
  }

  lemma WroteOneMore(start: Validator, s: SpoolState, from: Stream, k: nat, to: Stream)
    requires ValidSpool(s) && 0 <= from.cursor && Wrote(start, s, from, k, to) && k < |RowsAfter(s.rows, from.cursor)|
    ensures Wrote(start, s, from, k + 1, WriteRow(to, RowsAfter(s.rows, from.cursor)[k], s))
  {
    hide RowsAfter, Remaining, WriteRow, WroteSafely, RowFrames, ValidSpool;
    var row := RowsAfter(s.rows, from.cursor)[k];
    NextRow(s, RowsAfter(s.rows, from.cursor), k, to.cursor);
    SafeOneMore(start, s, from, row, to);
    RemainingMoves(s, from, to, row);
  }

  lemma SafeOneMore(start: Validator, s: SpoolState, from: Stream, row: SpoolRow, to: Stream)
    requires ValidSpool(s) && WroteSafely(start, s, from, to) && row in s.rows && 0 <= to.cursor < row.sequence
    requires forall r :: r in s.rows ==> !(to.cursor < r.sequence < row.sequence)
    ensures WroteSafely(start, s, from, WriteRow(to, row, s))
  {
    hide RowFrames, Honest, Streaming, AllHonest, ValidSpool, Adds;
    RowStep(start, to.out, s, row, to.cursor);
    HonestTogether(to, row, s);
    AddsTogether(from, to, row, s);
  }

  lemma RemainingMoves(s: SpoolState, from: Stream, to: Stream, row: SpoolRow)
    requires Remaining(s, to.cursor) == RowFrames(row, to.cursor) + Remaining(s, row.sequence)
    requires to.out + Remaining(s, to.cursor) == from.out + Remaining(s, from.cursor)
    ensures WriteRow(to, row, s).cursor == row.sequence
    ensures WriteRow(to, row, s).out + Remaining(s, row.sequence) == from.out + Remaining(s, from.cursor)
  {
    hide RowFrames, Remaining;
    assert to.out + (RowFrames(row, to.cursor) + Remaining(s, row.sequence))
        == (to.out + RowFrames(row, to.cursor)) + Remaining(s, row.sequence);
  }

  lemma HonestTogether(to: Stream, row: SpoolRow, s: SpoolState)
    requires AllHonest(to.out, to.origin)
    requires forall i :: 0 <= i < |RowFrames(row, to.cursor)| ==> Honest(RowFrames(row, to.cursor)[i], s)
    ensures AllHonest(WriteRow(to, row, s).out, WriteRow(to, row, s).origin)
  {
    hide RowFrames, Honest;
  }

  lemma AddsTogether(from: Stream, to: Stream, row: SpoolRow, s: SpoolState)
    requires Adds(from, to, s)
    ensures Adds(from, WriteRow(to, row, s), s)
  {
    hide RowFrames;
  }

  /** Writes one page of rows, declaring every hole before the event behind it. */
  method WritePage(page: seq<SpoolRow>, from: Stream, s: SpoolState, ghost start: Validator)
    returns (to: Stream)
    requires ValidSpool(s) && 0 <= from.cursor && page == Take(RowsAfter(s.rows, from.cursor), BRIDGE_PAGE_SIZE)
    requires Streaming(start, from.out, s.sourceId, from.cursor) && AllHonest(from.out, from.origin)
    ensures Wrote(start, s, from, |page|, to)
    ensures page == [] <==> |to.out| == |from.out|
  {
    hide RowsAfter, Streaming, AllHonest, Wrote, ValidSpool;
    WroteNothing(start, s, from);
    to := from;
    for k := 0 to |page|
      invariant Wrote(start, s, from, k, to)
      invariant if k == 0 then to == from else |to.out| > |from.out|
    {
      var row := page[k];
      WroteOneMore(start, s, from, k, to);
      ghost var next := WriteRow(to, row, s);
      var out, origin := to.out, to.origin;
      if row.sequence > to.cursor + 1 {
        out, origin := out + [Gap(to.cursor, Some(row.sequence), row.sequence - 1)], origin + [s];
      }
      out := out + [EventFrame(row.sequence, RemoveTerminalActivationMetadata(row.event))];
      origin := origin + [s];
      assert out == next.out && origin == next.origin;
      to := Stream(out, row.sequence, origin);
    }
  }

  lemma RemainingStep(rows: seq<SpoolRow>, cursor: int)
    requires rows != []
    ensures EventFrames(rows, cursor) == RowFrames(rows[0], cursor) + EventFrames(rows[1..], rows[0].sequence)
  {
  }

  datatype Turn = Continue | Stop(code: int)

  /** What one turn promises, whatever was read. */
  ghost predicate TurnOk(start: Validator, sourceId: Uuid, from: Stream, poll: Poll, to: Stream, turn: Turn) {
    && from.cursor <= to.cursor
    && AllHonest(to.out, to.origin)
    && AcceptAll(start, to.out).Ok? && AcceptAll(start, to.out).value.cursor == to.cursor
    && (turn.Continue? ==> Streaming(start, to.out, sourceId, to.cursor))
  }

  /**
   * Where the frames of a turn were read: up to g from the first snapshot, up to p from the page, the rest from the
   * second snapshot. Events come from the page, and gaps never from the second snapshot.
   */
  ghost predicate TurnReads(from: Stream, to: Stream, poll: Poll, g: nat, p: nat) {
    && |from.origin| == |from.out| && |to.origin| == |to.out|
    && from.out <= to.out && from.origin <= to.origin
    && |from.out| <= g <= p <= |to.out|
    && (forall i :: |from.out| <= i < g ==> to.origin[i] == poll.first && !to.out[i].EventFrame?)
    && (forall i :: g <= i < p ==> to.origin[i] == poll.page)
    && (forall i :: p <= i < |to.out| ==> to.origin[i] == poll.post && !to.out[i].EventFrame? && !to.out[i].Gap?)
  }

  /** A turn ends the stream either for a stated reason, or because it has caught up with its second snapshot. */
  ghost predicate TurnEnds(sourceId: Uuid, poll: Poll, follow: bool, to: Stream, turn: Turn) {
    && (turn.Stop? ==> turn.code == 0 || turn.code == 2)
    && (turn == Stop(2) ==> SaysWhy(to, sourceId))
    && (turn == Stop(0) ==> !follow && poll.post.sourceId == sourceId && to.cursor == poll.post.highWatermark)
  }

  /** A heartbeat ends a turn exactly when following, caught up, due, and the page held nothing; nothing else comes last. */
  ghost predicate Beats(poll: Poll, follow: bool, beatDue: bool, to: Stream, g: nat, p: nat) {
    && p <= |to.out|
    && to.out[p..] == if follow && beatDue && g == p && to.cursor == poll.post.highWatermark then [Heartbeat] else []
  }

  /** Emits and prunes alone never make a turn give up, and keep the cursor within what was read. */
  ghost predicate TurnSurvives(sourceId: Uuid, from: Stream, poll: Poll, to: Stream, turn: Turn) {
    Evolves(poll.first, poll.page) && Evolves(poll.page, poll.post)
    && poll.first.sourceId == sourceId && from.cursor <= poll.first.highWatermark
    ==> turn != Stop(2) && to.cursor <= poll.post.highWatermark
  }

  /** On a quiet spool a turn either finishes or moves the cursor, and sends exactly what was next. */
  ghost predicate TurnProgresses(s: SpoolState, from: Stream, follow: bool, to: Stream, turn: Turn) {
    Finishable(s, from.cursor) && from.cursor <= s.highWatermark && FrontGap(s, from.cursor).0 == [] && !follow ==>
      && to.out + Remaining(s, to.cursor) == from.out + Remaining(s, from.cursor)
      && FrontGap(s, to.cursor).0 == [] && to.cursor <= s.highWatermark
      && (turn == Stop(0) || (turn.Continue? && to.cursor > from.cursor))
      && (turn == Stop(0) ==> to.cursor == s.highWatermark && Remaining(s, to.cursor) == [])
  }

  /** A hole at the tail of a quiet spool is never declared: the loop keeps turning below it. */
  ghost predicate TurnStalls(s: SpoolState, from: Stream, to: Stream, turn: Turn) {
    !Finishable(s, from.cursor) && from.cursor < s.highWatermark ==>
      turn.Continue? && !Finishable(s, to.cursor) && to.cursor < s.highWatermark
  }

  lemma AppendHonest(from: Stream, frames: seq<Frame>, s: SpoolState)
    requires AllHonest(from.out, from.origin) && forall i :: 0 <= i < |frames| ==> Honest(frames[i], s)
    ensures AllHonest(from.out + frames, from.origin + seq(|frames|, i => s))
  {
    hide Honest;
  }

  lemma GapSent(start: Validator, from: Stream, s: SpoolState, sourceId: Uuid)
    requires ValidSpool(s) && 0 <= from.cursor
    requires Streaming(start, from.out, sourceId, from.cursor) && AllHonest(from.out, from.origin)
    ensures var (gap, next) := FrontGap(s, from.cursor);
            && Streaming(start, from.out + gap, sourceId, next)
            && AllHonest(from.out + gap, from.origin + seq(|gap|, i => s))
            && from.cursor <= next && (next != from.cursor ==> next <= s.highWatermark)
            && RowsAfter(s.rows, next) == RowsAfter(s.rows, from.cursor)
    ensures |from.origin| == |from.out|
  {
    hide Streaming, RowsAfter, ValidSpool, Honest, FrontGap;
    FrontGapIsHonest(s, from.cursor);
    GapStep(start, from.out, s, sourceId, from.cursor);
    AppendHonest(from, FrontGap(s, from.cursor).0, s);
  }

  /** emit_gap_if_needed: declares the front of the log that a snapshot says is gone. */
  method EmitGapIfNeeded(from: Stream, s: SpoolState, sourceId: Uuid, ghost start: Validator) returns (to: Stream, wrote: bool)
    requires ValidSpool(s) && 0 <= from.cursor
    requires Streaming(start, from.out, sourceId, from.cursor) && AllHonest(from.out, from.origin)
    ensures to.out == from.out + FrontGap(s, from.cursor).0 && to.cursor == FrontGap(s, from.cursor).1
    ensures Streaming(start, to.out, sourceId, to.cursor) && AllHonest(to.out, to.origin)
    ensures from.cursor <= to.cursor && (to.cursor != from.cursor ==> to.cursor <= s.highWatermark)
    ensures Adds(from, to, s) && |to.out| <= |from.out| + 1
    ensures |to.out| > |from.out| ==> to.out[|from.out|].Gap?
    ensures RowsAfter(s.rows, to.cursor) == RowsAfter(s.rows, from.cursor)
    ensures wrote <==> FrontGap(s, from.cursor).0 != []
  {
    hide Streaming, RowsAfter, ValidSpool, AllHonest;
    SnapshotOfSound(s);
    GapSent(start, from, s, sourceId);
    var snapshot := TakeSnapshot(s).value;
    match LostThrough(from.cursor, snapshot.oldest, snapshot.latest)
    case None =>
      to, wrote := from, false;
      assert from.out + [] == from.out;
    case Some(through) =>
      wrote := true;
      to := Stream(from.out + [Gap(from.cursor, snapshot.oldest, through)], through, from.origin + [s]);
      assert to.origin == from.origin + seq(1, i => s);
  }

  /** Ends a stream with a terminal error frame. */
  method WriteError(from: Stream, error: Frame, s: SpoolState, sourceId: Uuid, ghost start: Validator) returns (to: Stream)
    requires Streaming(start, from.out, sourceId, from.cursor) && AllHonest(from.out, from.origin)
    requires error == CURSOR_AHEAD || error == IDENTITY_CHANGED
    ensures to == Stream(from.out + [error], from.cursor, from.origin + [s])
    ensures AcceptAll(start, to.out).Ok? && AcceptAll(start, to.out).value.cursor == to.cursor
    ensures AllHonest(to.out, to.origin)
  {
    hide AcceptAll;
    if error == CURSOR_AHEAD { CursorAheadIsValid(); } else { IdentityChangedIsValid(); }
    hide ValidFrame;
    ErrorStep(start, from.out, sourceId, from.cursor, error);
    AppendHonest(from, [error], s);
    assert seq(|[error]|, i => s) == [s];
    to := Stream(from.out + [error], from.cursor, from.origin + [s]);
  }

  lemma StreamingIsAccepted(start: Validator, stream: Stream, sourceId: Uuid)
    requires Streaming(start, stream.out, sourceId, stream.cursor)
    ensures AcceptAll(start, stream.out).Ok? && AcceptAll(start, stream.out).value.cursor == stream.cursor
  {
    hide AcceptAll;
  }

  lemma HeartbeatStep(start: Validator, stream: Stream, sourceId: Uuid, s: SpoolState)
    requires Streaming(start, stream.out, sourceId, stream.cursor) && AllHonest(stream.out, stream.origin)
    ensures Streaming(start, stream.out + [Heartbeat], sourceId, stream.cursor)
    ensures AllHonest(stream.out + [Heartbeat], stream.origin + [s])
  {
    hide AcceptAll;
    AcceptAllAppend(start, stream.out, Heartbeat);
    AppendHonest(stream, [Heartbeat], s);
    assert seq(|[Heartbeat]|, i => s) == [s];
  }

  lemma SameLength(stream: Stream)
    requires AllHonest(stream.out, stream.origin)
    ensures |stream.origin| == |stream.out|
  {
    hide Honest;
  }

  /** The end of a turn: is there more, is the stream still valid, and if there is nothing to do, say so. */
  method CloseTurn(from: Stream, s: SpoolState, sourceId: Uuid, follow: bool, beat: bool, ghost start: Validator)
    returns (to: Stream, turn: Turn)
    requires ValidSpool(s) && Streaming(start, from.out, sourceId, from.cursor) && AllHonest(from.out, from.origin)
    ensures to.cursor == from.cursor && AllHonest(to.out, to.origin)
    ensures Adds(from, to, s) && |to.out| <= |from.out| + 1
    ensures |to.out| > |from.out| ==> to.out[|from.out|].ErrorFrame? || to.out[|from.out|].Heartbeat?
    ensures AcceptAll(start, to.out).Ok? && AcceptAll(start, to.out).value.cursor == to.cursor
    ensures turn.Continue? ==> Streaming(start, to.out, sourceId, to.cursor)
    ensures turn == Stop(2) <==> s.sourceId != sourceId || from.cursor > s.highWatermark
    ensures turn == Stop(0) <==> s.sourceId == sourceId && from.cursor == s.highWatermark && !follow
    ensures !follow && turn != Stop(2) ==> to == from
    ensures turn.Continue? ==>
              to.out == from.out + if follow && beat && from.cursor == s.highWatermark then [Heartbeat] else []
    ensures turn == Stop(2) ==> SaysWhy(to, sourceId)
    ensures turn.Stop? ==> turn.code == 0 || turn.code == 2
  {
    hide AcceptAll, Streaming, AllHonest, ValidSpool;
    SnapshotOfSound(s);
    SameLength(from);
    StreamingIsAccepted(start, from, sourceId);
    var post := TakeSnapshot(s).value;
    if post.sourceId != sourceId {
      to := WriteError(from, IDENTITY_CHANGED, s, sourceId, start);
      return to, Stop(2);
    }
    if from.cursor > post.latest {
      to := WriteError(from, CURSOR_AHEAD, s, sourceId, start);
      return to, Stop(2);
    }
    if from.cursor < post.latest {
      return from, Continue;
    }
    if !follow {
      return from, Stop(0);
    }
    if beat {
      HeartbeatStep(start, from, sourceId, s);
      to := Stream(from.out + [Heartbeat], from.cursor, from.origin + [s]);
      StreamingIsAccepted(start, to, sourceId);
      return to, Continue;
    }
    return from, Continue;
  }

  /** Reading on a quiet spool: what was next is sent, and a short page was the last one. */
  ghost predicate SendProgresses(s: SpoolState, from: Stream, to: Stream, written: nat) {
    Finishable(s, from.cursor) && FrontGap(s, from.cursor).0 == [] ==>
      && to.out + Remaining(s, to.cursor) == from.out + Remaining(s, from.cursor)
      && FrontGap(s, to.cursor).0 == [] && to.cursor <= s.highWatermark
      && (written == BRIDGE_PAGE_SIZE ==> to.cursor > from.cursor)
      && (written < BRIDGE_PAGE_SIZE ==> to.cursor == s.highWatermark && Remaining(s, to.cursor) == [])
  }

  ghost predicate SendStalls(s: SpoolState, from: Stream, to: Stream) {
    !Finishable(s, from.cursor) ==> to.cursor < s.highWatermark
  }

  lemma WroteFacts(start: Validator, s: SpoolState, from: Stream, k: nat, to: Stream)
    requires ValidSpool(s) && Wrote(start, s, from, k, to)
    ensures from.cursor <= to.cursor && Streaming(start, to.out, s.sourceId, to.cursor) && AllHonest(to.out, to.origin)
    ensures Adds(from, to, s)
    ensures to.cursor == from.cursor || to.cursor <= s.highWatermark
    ensures !TailComplete(s) && from.cursor < s.highWatermark ==> to.cursor < s.highWatermark
  {
    hide Streaming, AllHonest, RowsAfter, Remaining, FrontGap, Adds;
    TailHole(s, from.cursor);
  }

  /** The reading part of a turn: the front gap, then one page. */
  method SendNext(from: Stream, poll: Poll, sourceId: Uuid, ghost start: Validator)
    returns (to: Stream, written: nat, ghost g: nat)
    requires ValidSpool(poll.first) && ValidSpool(poll.page) && poll.page.sourceId == poll.first.sourceId == sourceId
    requires 0 <= from.cursor <= poll.first.highWatermark
    requires Streaming(start, from.out, sourceId, from.cursor) && AllHonest(from.out, from.origin)
    ensures from.cursor <= to.cursor && Streaming(start, to.out, sourceId, to.cursor) && AllHonest(to.out, to.origin)
    ensures TurnReads(from, to, poll, g, |to.out|)
    ensures poll.first.highWatermark <= poll.page.highWatermark ==> to.cursor <= poll.page.highWatermark
    ensures poll.first == poll.page ==>
              SendProgresses(poll.first, from, to, written) && SendStalls(poll.first, from, to)
    ensures written <= BRIDGE_PAGE_SIZE && (written == 0 <==> |to.out| == g)
  {
    hide AcceptAll, Streaming, RowsAfter, EventFrames, AllHonest, ValidSpool, FrontGap, Remaining, Wrote;
    hide SendProgresses, SendStalls, FirstBadRow, TurnReads, Adds;
    var afterGap, wroteGap := EmitGapIfNeeded(from, poll.first, sourceId, start);
    PageIsNextRows(poll.page, afterGap.cursor, BRIDGE_PAGE_SIZE);
    var page := EventsAfter(poll.page, afterGap.cursor, BRIDGE_PAGE_SIZE).value;
    to := WritePage(page, afterGap, poll.page, start);
    written := |page|;
    WroteFacts(start, poll.page, afterGap, written, to);
    g := |afterGap.out|;
    GapThenPage(from, afterGap, to, poll);
    if poll.first == poll.page {
      QuietTurn(start, poll.first, from, afterGap, written, to);
    }
  }

  lemma GapThenPage(from: Stream, afterGap: Stream, to: Stream, poll: Poll)
    requires Adds(from, afterGap, poll.first) && Adds(afterGap, to, poll.page)
    requires |afterGap.out| <= |from.out| + 1 && (|afterGap.out| > |from.out| ==> afterGap.out[|from.out|].Gap?)
    ensures TurnReads(from, to, poll, |afterGap.out|, |to.out|)
  {
  }

  lemma ThenClosing(from: Stream, sent: Stream, to: Stream, poll: Poll, g: nat)
    requires TurnReads(from, sent, poll, g, |sent.out|) && Adds(sent, to, poll.post) && |to.out| <= |sent.out| + 1
    requires |to.out| > |sent.out| ==> to.out[|sent.out|].ErrorFrame? || to.out[|sent.out|].Heartbeat?
    ensures TurnReads(from, to, poll, g, |sent.out|)
  {
  }

  lemma OnlyAnError(from: Stream, to: Stream, poll: Poll)
    requires AllHonest(from.out, from.origin)
    requires |to.out| == |from.out| + 1 && to.out == from.out + [to.out[|from.out|]] && to.out[|from.out|].ErrorFrame?
    requires to.origin == from.origin + [poll.first]
    ensures TurnReads(from, to, poll, |to.out|, |to.out|)
  {
    hide Honest;
  }

  /** One turn of the loop. */
  method TakeTurn(from: Stream, poll: Poll, sourceId: Uuid, follow: bool, beatDue: bool, ghost start: Validator)
    returns (to: Stream, turn: Turn, ghost g: nat, ghost p: nat)
    requires ValidSpool(poll.first) && ValidSpool(poll.page) && ValidSpool(poll.post)
    requires poll.page.sourceId == poll.first.sourceId
    requires 0 <= from.cursor && Streaming(start, from.out, sourceId, from.cursor) && AllHonest(from.out, from.origin)
    ensures TurnOk(start, sourceId, from, poll, to, turn)
    ensures TurnReads(from, to, poll, g, p)
    ensures TurnSurvives(sourceId, from, poll, to, turn)
    ensures TurnEnds(sourceId, poll, follow, to, turn)
    ensures turn.Continue? ==> Beats(poll, follow, beatDue, to, g, p)
    ensures poll.first == poll.page == poll.post && poll.first.sourceId == sourceId ==>
              TurnProgresses(poll.first, from, follow, to, turn) && TurnStalls(poll.first, from, to, turn)
  {
    hide AcceptAll, Streaming, AllHonest, ValidSpool, FrontGap, Evolves, TailComplete, Remaining, TurnReads, Adds;
    SnapshotOfSound(poll.first);
    var snapshot := TakeSnapshot(poll.first).value;
    EvolvesFacts(poll);
    SameLength(from);
    if snapshot.sourceId != sourceId {
      to := WriteError(from, IDENTITY_CHANGED, poll.first, sourceId, start);
      OnlyAnError(from, to, poll);
      return to, Stop(2), |to.out|, |to.out|;
    }
    if from.cursor > snapshot.latest {
      to := WriteError(from, CURSOR_AHEAD, poll.first, sourceId, start);
      OnlyAnError(from, to, poll);
      return to, Stop(2), |to.out|, |to.out|;
    }
    var sent, written;
    sent, written, g := SendNext(from, poll, sourceId, start);
    p := |sent.out|;
    StreamingIsAccepted(start, sent, sourceId);
    if written == BRIDGE_PAGE_SIZE {
      return sent, Continue, g, p;
    }
    to, turn := CloseTurn(sent, poll.post, sourceId, follow, written == 0 && beatDue, start);
    ThenClosing(from, sent, to, poll, g);
  }

  lemma EvolvesFacts(poll: Poll)
    ensures Evolves(poll.first, poll.page) ==> poll.first.highWatermark <= poll.page.highWatermark
    ensures Evolves(poll.page, poll.post) ==>
              poll.page.highWatermark <= poll.post.highWatermark && poll.post.sourceId == poll.page.sourceId
  {
  }

  lemma NoFrontGapMeans(s: SpoolState, cursor: int)
    ensures FrontGap(s, cursor).0 == [] <==>
              cursor >= if s.rows == [] then s.highWatermark else s.rows[0].sequence - 1
    ensures FrontGap(s, cursor).0 == [] ==> FrontGap(s, cursor).1 == cursor
  {
  }

  lemma NothingAfterTail(s: SpoolState, cursor: int)
    requires Finishable(s, cursor) || TailComplete(s)
    requires FrontGap(s, cursor).0 == [] && RowsAfter(s.rows, cursor) == []
    ensures s.highWatermark <= cursor && Remaining(s, cursor) == []
  {
    NoFrontGapMeans(s, cursor);
    hide RowsAfter, FrontGap;
    RowsAfterIsSuffix(s.rows, cursor);
    if s.rows != [] && TailComplete(s) { assert s.rows[|s.rows| - 1].sequence <= cursor; }
  }

  /** Where the newest rows are gone, nothing retained and no front gap reaches the high watermark. */
  lemma TailHole(s: SpoolState, cursor: int)
    requires ValidSpool(s)
    ensures !TailComplete(s) ==>
              && (forall r :: r in s.rows ==> r.sequence < s.highWatermark)
              && (cursor < s.highWatermark ==> FrontGap(s, cursor).1 < s.highWatermark)
  {
    if !TailComplete(s) {
      assert s.rows[|s.rows| - 1] in s.rows;
      forall r | r in s.rows ensures r.sequence < s.highWatermark {
        var i :| 0 <= i < |s.rows| && s.rows[i] == r;
        if i < |s.rows| - 1 { assert Sequence(s.rows[i]) < Sequence(s.rows[|s.rows| - 1]); }
      }
    }
  }

  lemma ShortPageIsLast(start: Validator, s: SpoolState, from: Stream, written: nat, to: Stream)
    requires Wrote(start, s, from, written, to)
    requires written == |Take(RowsAfter(s.rows, from.cursor), BRIDGE_PAGE_SIZE)|
    ensures to.out + Remaining(s, to.cursor) == from.out + Remaining(s, from.cursor)
    ensures from.cursor + written <= to.cursor
    ensures written < BRIDGE_PAGE_SIZE ==> RowsAfter(s.rows, to.cursor) == []
  {
    hide AcceptAll, Streaming, AllHonest, RowsAfter, Remaining, AtRow;
  }

  /** On a quiet spool: no further gap, and a short page leaves nothing behind. */
  lemma QuietTurn(start: Validator, s: SpoolState, from: Stream, afterGap: Stream, written: nat, to: Stream)
    requires ValidSpool(s) && Wrote(start, s, afterGap, written, to) && 0 <= from.cursor <= s.highWatermark
    requires written == |Take(RowsAfter(s.rows, afterGap.cursor), BRIDGE_PAGE_SIZE)|
    requires afterGap.out == from.out + FrontGap(s, from.cursor).0 && afterGap.cursor == FrontGap(s, from.cursor).1
    ensures SendProgresses(s, from, to, written) && SendStalls(s, from, to)
  {
    hide AcceptAll, Streaming, AllHonest, ValidSpool, RowsAfter, Remaining, TailComplete, FrontGap, Take, Wrote;
    WroteFacts(start, s, afterGap, written, to);
    ShortPageIsLast(start, s, afterGap, written, to);
    TailHole(s, from.cursor);
    NoFrontGapMeans(s, from.cursor);
    NoFrontGapMeans(s, to.cursor);
    if FrontGap(s, from.cursor).0 == [] && Finishable(s, from.cursor) {
      assert afterGap.out == from.out + [];
      if written < BRIDGE_PAGE_SIZE {
        FinishableStays(s, from.cursor, to.cursor);
        NothingAfterTail(s, to.cursor);
      }
    }
  }

  lemma FinishableStays(s: SpoolState, from: int, to: int)
    requires Finishable(s, from) && from <= to && (to == from || to <= s.highWatermark)
    ensures Finishable(s, to)
  {
    hide TailComplete;
  }

  /** Hello, and the front gap that must directly follow it. */
  lemma OpeningOk(s: SpoolState, after: int, start: Validator)
    requires ValidSpool(s) && after >= 0
    requires start == Validator(PROTOCOL_VERSION, start.pinned, None, after, None, AwaitingHello)
    requires start.pinned == None || start.pinned == Some(s.sourceId)
    ensures TakeSnapshot(s) == Ok(Snapshot(s.sourceId, Oldest(s), s.highWatermark))
    ensures AllHonest([HelloOf(s)], [s])
    ensures after > s.highWatermark ==> Streaming(start, [HelloOf(s)], s.sourceId, after)
    ensures var (gap, cursor) := FrontGap(s, after);
            && Streaming(start, [HelloOf(s)] + gap, s.sourceId, cursor)
            && AllHonest([HelloOf(s)] + gap, [s] + seq(|gap|, i => s))
            && after <= cursor && (after <= s.highWatermark ==> cursor <= s.highWatermark)
            && FrontGap(s, cursor).0 == []
            && [HelloOf(s)] + gap + Remaining(s, cursor) == QuietStream(s, after)
            && |gap| <= 1
  {
    FirstGapStep(start, s, after);
    FrontGapIsHonest(s, after);
    SnapshotOfSound(s);
    hide AcceptAll, ValidSpool, RowsAfter, EventFrames;
    var (gap, cursor) := FrontGap(s, after);
    AppendHonest(Stream([HelloOf(s)], after, [s]), gap, s);
    if after > s.highWatermark {
      assert [HelloOf(s)] + gap == [HelloOf(s)];
    }
  }

  lemma GreetingStays(from: Stream, to: Stream, poll: Poll, g: nat, p: nat, initial: SpoolState)
    requires TurnReads(from, to, poll, g, p) && Greets(from, initial)
    ensures Greets(to, initial)
  {
  }

  lemma TurnEndsStream(initial: SpoolState, polls: seq<Poll>, i: nat, follow: bool, to: Stream, turn: Turn)
    requires i < |polls| && turn.Stop? && TurnEnds(initial.sourceId, polls[i], follow, to, turn)
    ensures EndsFor(Done(turn.code), to, initial.sourceId, polls, follow)
  {
    hide SaysWhy;
    assert polls[i] in polls;
  }

  lemma CutOffEnds(stream: Stream, initial: SpoolState, polls: seq<Poll>, follow: bool)
    ensures EndsFor(Interrupted, stream, initial.sourceId, polls, follow)
  {
  }

  lemma RefusedAtOnceEnds(stream: Stream, initial: SpoolState, polls: seq<Poll>, follow: bool)
    requires Greets(stream, initial) && stream.origin == seq(|stream.out|, i => initial)
    requires stream.out != [] && stream.out[|stream.out| - 1] == CURSOR_AHEAD && stream.cursor > initial.highWatermark
    ensures EndsFor(Done(2), stream, initial.sourceId, polls, follow)
  {
  }

  lemma TurnFacts(start: Validator, sourceId: Uuid, from: Stream, poll: Poll, to: Stream, turn: Turn)
    requires TurnOk(start, sourceId, from, poll, to, turn)
    ensures from.cursor <= to.cursor && AllHonest(to.out, to.origin)
    ensures AcceptAll(start, to.out).Ok? && AcceptAll(start, to.out).value.cursor == to.cursor
    ensures turn.Continue? ==> Streaming(start, to.out, sourceId, to.cursor)
  {
    hide AcceptAll, AllHonest, Streaming;
  }

  lemma {:induction false} GrowingKeepsIdentity(initial: SpoolState, polls: seq<Poll>, i: nat)
    requires Growing(initial, polls) && i < |polls|
    ensures polls[i].first.sourceId == initial.sourceId
    ensures (if i == 0 then initial else polls[i - 1].post).highWatermark <= polls[i].first.highWatermark
  {
    assert polls[i] in polls;
    if i > 0 { assert Evolves(polls[i - 1].post, polls[i - 1 + 1].first); }
  }

  lemma GrowingTurn(initial: SpoolState, polls: seq<Poll>, i: nat, from: Stream, to: Stream, turn: Turn)
    requires Growing(initial, polls) && i < |polls|
    requires WithinLast(initial, polls, i, from)
    requires TurnSurvives(initial.sourceId, from, polls[i], to, turn)
    ensures turn != Stop(2) && WithinLast(initial, polls, i + 1, to)
  {
    hide Evolves;
    GrowingKeepsIdentity(initial, polls, i);
    assert polls[i] in polls;
  }

  /** On a quiet spool after i unfinished turns: a prefix of the canonical stream, one sequence further each turn. */
  ghost predicate QuietSoFar(s: SpoolState, after: int, i: nat, stream: Stream) {
    && stream.out + Remaining(s, stream.cursor) == QuietStream(s, after)
    && FrontGap(s, stream.cursor).0 == [] && after + i <= stream.cursor <= s.highWatermark
    && Finishable(s, stream.cursor)
  }

  lemma QuietTurnFacts(s: SpoolState, after: int, i: nat, from: Stream, poll: Poll, follow: bool, to: Stream, turn: Turn)
    requires poll == Poll(s, s, s) && !follow && QuietSoFar(s, after, i, from)
    requires from.cursor <= to.cursor && TurnProgresses(s, from, follow, to, turn)
    ensures turn == Stop(0) || (turn.Continue? && QuietSoFar(s, after, i + 1, to))
    ensures to.out <= QuietStream(s, after)
    ensures turn == Stop(0) ==> to.cursor == s.highWatermark && to.out == QuietStream(s, after)
  {
    hide Remaining, FrontGap, QuietStream, TailComplete;
    FinishableStays(s, from.cursor, to.cursor);
    if turn == Stop(0) { assert to.out + [] == to.out; }
  }

  lemma QuietPrefix(s: SpoolState, after: int, i: nat, stream: Stream)
    requires QuietSoFar(s, after, i, stream)
    ensures stream.out <= QuietStream(s, after) && i <= s.highWatermark - after
  {
    hide Remaining, FrontGap, QuietStream;
  }

  /** With only emits and prunes around, the cursor stays within what was last read. */
  ghost predicate WithinLast(initial: SpoolState, polls: seq<Poll>, i: nat, stream: Stream)
    requires i <= |polls|
  {
    stream.cursor <= (if i == 0 then initial else polls[i - 1].post).highWatermark
  }

  /** The state read r-th: -1 is the opening snapshot, then three reads a turn, first, page and second snapshot. */
  function StateRead(initial: SpoolState, polls: seq<Poll>, r: int): SpoolState
    requires -1 <= r < 3 * |polls|
  {
    if r < 0 then initial
    else if r % 3 == 0 then polls[r / 3].first
    else if r % 3 == 1 then polls[r / 3].page
    else polls[r / 3].post
  }

  /** Events are read from pages, gaps never from the second snapshot of a turn. */
  predicate ReadFor(frame: Frame, r: int) {
    (frame.EventFrame? ==> r >= 0 && r % 3 == 1) && (frame.Gap? ==> r < 0 || r % 3 != 2)
  }

  /** Frame i was written from the readings[i]-th read among those made so far, and frames follow the order of reads. */
  ghost predicate ReadsOf(stream: Stream, initial: SpoolState, polls: seq<Poll>, turns: nat, readings: seq<int>) {
    && turns <= |polls| && |readings| == |stream.out| == |stream.origin|
    && (forall i :: 0 <= i < |readings| ==>
          && -1 <= readings[i] < 3 * turns && stream.origin[i] == StateRead(initial, polls, readings[i])
          && ReadFor(stream.out[i], readings[i]))
    && (forall i, j :: 0 <= i < j < |readings| ==> readings[i] <= readings[j])
  }

  function MoreReads(readings: seq<int>, turn: nat, g: nat, p: nat, size: nat): seq<int> {
    seq(size, k requires 0 <= k < size =>
          if k < |readings| then readings[k] else if k < g then 3 * turn else if k < p then 3 * turn + 1 else 3 * turn + 2)
  }

  lemma ReadsGrow(from: Stream, to: Stream, initial: SpoolState, polls: seq<Poll>, turn: nat, readings: seq<int>, g: nat, p: nat)
    requires turn < |polls| && ReadsOf(from, initial, polls, turn, readings) && TurnReads(from, to, polls[turn], g, p)
    ensures ReadsOf(to, initial, polls, turn + 1, MoreReads(readings, turn, g, p, |to.out|))
  {
    var more := MoreReads(readings, turn, g, p, |to.out|);
    forall i | 0 <= i < |more|
      ensures -1 <= more[i] < 3 * (turn + 1) && to.origin[i] == StateRead(initial, polls, more[i]) && ReadFor(to.out[i], more[i])
    {
      if i < |readings| {
        assert to.origin[i] == from.origin[i] && to.out[i] == from.out[i];
      } else {
        RanksOfTurn(turn);
      }
    }
  }

  lemma OpeningReads(stream: Stream, initial: SpoolState, polls: seq<Poll>, readings: seq<int>)
    requires |readings| == |stream.out| == |stream.origin|
    requires forall i :: 0 <= i < |readings| ==> readings[i] == -1 && stream.origin[i] == initial && !stream.out[i].EventFrame?
    ensures forall turns: nat | turns <= |polls| :: ReadsOf(stream, initial, polls, turns, readings)
  {
  }

  lemma ReadsSoFar(stream: Stream, initial: SpoolState, polls: seq<Poll>, turns: nat, readings: seq<int>)
    requires ReadsOf(stream, initial, polls, turns, readings)
    ensures ReadsOf(stream, initial, polls, |polls|, readings)
  {
  }

  lemma RanksOfTurn(turn: nat)
    ensures 3 * turn / 3 == turn && (3 * turn + 1) / 3 == turn && (3 * turn + 2) / 3 == turn
    ensures 3 * turn % 3 == 0 && (3 * turn + 1) % 3 == 1 && (3 * turn + 2) % 3 == 2
  {
  }

  /** The opening: hello, then either the refusal of a cursor that is ahead or the gap at the front of the log. */
  method OpenStream(initial: SpoolState, after: int, ghost start: Validator) returns (stream: Stream, refused: bool)
    requires ValidSpool(initial) && after >= 0
    requires start == Validator(PROTOCOL_VERSION, start.pinned, None, after, None, AwaitingHello)
    requires start.pinned == None || start.pinned == Some(initial.sourceId)
    ensures Greets(stream, initial) && AllHonest(stream.out, stream.origin)
    ensures stream.origin == seq(|stream.out|, i => initial) && forall f :: f in stream.out ==> !f.EventFrame?
    ensures AcceptAll(start, stream.out).Ok? && AcceptAll(start, stream.out).value.cursor == stream.cursor
    ensures refused <==> after > initial.highWatermark
    ensures refused ==> stream.cursor == after && stream.out != [] && stream.out[|stream.out| - 1] == CURSOR_AHEAD
    ensures !refused ==>
              && Streaming(start, stream.out, initial.sourceId, stream.cursor)
              && stream.out == [HelloOf(initial)] + FrontGap(initial, after).0 && stream.cursor == FrontGap(initial, after).1
              && after <= stream.cursor <= initial.highWatermark && FrontGap(initial, stream.cursor).0 == []
              && stream.out + Remaining(initial, stream.cursor) == QuietStream(initial, after)
  {
    hide AcceptAll, Streaming, AllHonest, ValidSpool, Remaining;
    OpeningOk(initial, after, start);
    var snapshot := TakeSnapshot(initial).value;
    stream := Stream([Hello(PROTOCOL_VERSION, snapshot.sourceId, snapshot.oldest, snapshot.latest)], after, [initial]);
    if after > snapshot.latest {
      stream := WriteError(stream, CURSOR_AHEAD, initial, initial.sourceId, start);
      return stream, true;
    }
    var lost := LostThrough(after, snapshot.oldest, snapshot.latest);
    if lost.Some? {
      stream := Stream(stream.out + [Gap(after, snapshot.oldest, lost.value)], lost.value, stream.origin + [initial]);
    }
    assert stream.out == [HelloOf(initial)] + FrontGap(initial, after).0;
    assert stream.origin == [initial] + seq(|FrontGap(initial, after).0|, i => initial);
    StreamingIsAccepted(start, stream, initial.sourceId);
    return stream, false;
  }

  /**
   * The bridge over any interleaving with other processes: every frame it writes is accepted by a validator that
   * started at the same cursor, both cursors stay equal, events and gaps account for each sequence of
   * (after, cursor] exactly once, and no gap covers a sequence retained at the very read it was written from, as
   * recorded in readings. On a quiet spool it
   * sends the one canonical stream and, unless following, finishes within as many turns as sequences are missing;
   * it never finishes exactly when the newest rows are gone and the cursor is still below the high watermark.
   */
  method StreamBridge(initial: SpoolState, polls: seq<Poll>, after: int, follow: bool, beatDue: nat -> bool,
                      ghost pinned: Option<Uuid>)
    returns (stream: Stream, exit: Exit, ghost readings: seq<int>)
    requires Readable(initial, polls) && 0 <= after
    requires pinned == None || pinned == Some(initial.sourceId)
    ensures var start := Validator(PROTOCOL_VERSION, pinned, None, after, None, AwaitingHello);
            AcceptAll(start, stream.out).Ok? && AcceptAll(start, stream.out).value.cursor == stream.cursor
    ensures Greets(stream, initial)
    ensures Tiles(stream.out, after, stream.cursor)
    ensures EndsFor(exit, stream, initial.sourceId, polls, follow)
    ensures AllHonest(stream.out, stream.origin) && ReadsOf(stream, initial, polls, |polls|, readings)
    ensures Growing(initial, polls) && after <= initial.highWatermark ==> exit != Done(2)
    ensures Quiet(initial, initial, polls) && Finishable(initial, after) && after <= initial.highWatermark && !follow ==>
              && stream.out <= QuietStream(initial, after)
              && (exit == Done(0) || exit == Interrupted)
              && (exit == Done(0) ==> stream.out == QuietStream(initial, after) && stream.cursor == initial.highWatermark)
              && (|polls| > initial.highWatermark - after ==> exit == Done(0))
    ensures Quiet(initial, initial, polls) && !Finishable(initial, after) && after <= initial.highWatermark ==>
              exit == Interrupted
  {
    hide AcceptAll, Streaming, AllHonest, ValidSpool, TurnOk, TurnSurvives, TurnProgresses, Tiles, TailComplete;
    hide TurnReads, ReadsOf, MoreReads, Remaining, Greets, EndsFor, TurnEnds;
    ghost var start := Validator(PROTOCOL_VERSION, pinned, None, after, None, AwaitingHello);
    var refused;
    stream, refused := OpenStream(initial, after, start);
    readings := seq(|stream.out|, k => -1);
    OpeningReads(stream, initial, polls, readings);
    if refused {
      AcceptedStreamTiles(start, stream.out);
      RefusedAtOnceEnds(stream, initial, polls, follow);
      return stream, Done(2), readings;
    }
    ghost var growing := Growing(initial, polls);
    ghost var quiet := Quiet(initial, initial, polls) && Finishable(initial, after) && !follow;
    ghost var stalled := Quiet(initial, initial, polls) && !Finishable(initial, after);
    if quiet { FinishableStays(initial, after, stream.cursor); }
    TailHole(initial, after);
    for i := 0 to |polls|
      invariant 0 <= after <= stream.cursor && Streaming(start, stream.out, initial.sourceId, stream.cursor)
      invariant Greets(stream, initial)
      invariant AllHonest(stream.out, stream.origin) && ReadsOf(stream, initial, polls, i, readings)
      invariant growing ==> WithinLast(initial, polls, i, stream)
      invariant quiet ==> QuietSoFar(initial, after, i, stream)
      invariant stalled ==> !Finishable(initial, stream.cursor) && stream.cursor < initial.highWatermark
    {
      var poll := polls[i];
      assert poll in polls;
      var from := stream;
      var turn;
      ghost var g, p;
      stream, turn, g, p := TakeTurn(from, poll, initial.sourceId, follow, beatDue(i), start);
      TurnFacts(start, initial.sourceId, from, poll, stream, turn);
      GreetingStays(from, stream, poll, g, p, initial);
      ReadsGrow(from, stream, initial, polls, i, readings, g, p);
      readings := MoreReads(readings, i, g, p, |stream.out|);
      if growing { GrowingTurn(initial, polls, i, from, stream, turn); }
      if quiet { QuietTurnFacts(initial, after, i, from, poll, follow, stream, turn); }
      if turn.Stop? {
        AcceptedStreamTiles(start, stream.out);
        ReadsSoFar(stream, initial, polls, i + 1, readings);
        TurnEndsStream(initial, polls, i, follow, stream, turn);
        return stream, Done(turn.code), readings;
      }
    }
    if quiet { QuietPrefix(initial, after, |polls|, stream); }
    StreamingIsAccepted(start, stream, initial.sourceId);
    AcceptedStreamTiles(start, stream.out);
    CutOffEnds(stream, initial, polls, follow);
    return stream, Interrupted, readings;
  }
}
