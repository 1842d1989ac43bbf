/** Direct ingestion: reading a local spool straight into the desktop database. */
module Pipeline {
  import opened Base
  import opened Events
  import opened Rows
  import opened Protocol
  import opened Spools
  import opened Tables
  import opened Desktop
  import opened Remote

  const INGEST_PAGE_SIZE := 256

  datatype IngestReport = IngestReport(ingested: nat, duplicates: nat, gaps: nat)

  datatype PipelineError =
    | FromSpool(spool: SpoolError)
    | FromDatabase(database: DesktopError)
    | SourceRewind(cursor: int, highWatermark: int)

  /** What an ingestion leaves in the database, and its report. */
  datatype Ingested = Ingested(db: Db, result: Result<IngestReport, PipelineError>)

  function Count(report: IngestReport, one: IngestResult): IngestReport {
    match one
    case Inserted(_, _) => report.(ingested := report.ingested + 1)
    case Duplicate => report.(duplicates := report.duplicates + 1)
  }

  function IngestRows(db: Db, key: string, rows: seq<SpoolRow>, receivedAt: int, sizeOf: Sizer, report: IngestReport): Ingested
    decreases |rows|
  {
    if rows == [] then Ingested(db, Ok(report))
    else
      var t := Tables.IngestEvent(db, key, rows[0].sequence, rows[0].event, sizeOf(rows[0].event), receivedAt);
      if t.result.Err? then Ingested(t.db, Err(FromDatabase(t.result.error)))
      else IngestRows(t.db, key, rows[1..], receivedAt, sizeOf, Count(report, t.result.value))
  }

  lemma PageOfSuffix<T>(s: seq<T>, rest: seq<T>, limit: nat)
    requires rest != [] && |rest| <= |s| && rest == s[|s| - |rest|..] && limit > 0
    ensures var page := Take(rest, limit);
            var m := |s| - |rest| + |page| - 1;
            && page != [] && 0 <= m < |s| && page[|page| - 1] == s[m]
            && s[m + 1..] == rest[|page|..]
  {
  }

  lemma PagingMovesOn(s: SpoolState, cursor: int, limit: nat)
    requires ValidSpool(s) && limit > 0 && RowsAfter(s.rows, cursor) != []
    ensures Take(RowsAfter(s.rows, cursor), limit) != []
    ensures var page := Take(RowsAfter(s.rows, cursor), limit); cursor < page[|page| - 1].sequence
    ensures var page := Take(RowsAfter(s.rows, cursor), limit);
            RowsAfter(s.rows, page[|page| - 1].sequence) == RowsAfter(s.rows, cursor)[|page|..]
  {
    hide RowsAfter, ValidSpool, Ascending, Take;
    SoundOrder(s);
    var rest := RowsAfter(s.rows, cursor);
    RowsAfterIsSuffix(s.rows, cursor);
    PageOfSuffix(s.rows, rest, limit);
    var page := Take(rest, limit);
    var m := |s.rows| - |rest| + |page| - 1;
    assert page[|page| - 1] == s.rows[m];
    RowsAfterReach(s.rows, cursor, m);
    RowsAfterRow(s.rows, m);
  }

  /** Pages of a spool that stands still, until one comes back short. */
  function IngestPages(s: SpoolState, db: Db, key: string, cursor: int, receivedAt: int, sizeOf: Sizer, report: IngestReport): Ingested
    requires ValidSpool(s) && 0 <= cursor
    decreases |RowsAfter(s.rows, cursor)|
  {
    hide RowsAfter, ValidSpool, EventsAfter, IngestRows;
    PageIsNextRows(s, cursor, INGEST_PAGE_SIZE);
    var page := EventsAfter(s, cursor, INGEST_PAGE_SIZE).value;
    if page == [] then Ingested(db, Ok(report))
    else
      PagingMovesOn(s, cursor, INGEST_PAGE_SIZE);
      var r := IngestRows(db, key, page, receivedAt, sizeOf, report);
      if r.result.Err? || |page| < INGEST_PAGE_SIZE then r
      else IngestPages(s, r.db, key, page[|page| - 1].sequence, receivedAt, sizeOf, r.result.value)
  }

  lemma PageStep(s: SpoolState, db: Db, key: string, cursor: int, receivedAt: int, sizeOf: Sizer, report: IngestReport)
    requires ValidSpool(s) && 0 <= cursor
    ensures var page := Take(RowsAfter(s.rows, cursor), INGEST_PAGE_SIZE);
            && EventsAfter(s, cursor, INGEST_PAGE_SIZE) == Ok(page)
            && |page| <= INGEST_PAGE_SIZE
            && (page == [] ==> IngestPages(s, db, key, cursor, receivedAt, sizeOf, report) == Ingested(db, Ok(report)))
            && (page != [] ==>
                  && 0 <= page[|page| - 1].sequence
                  && |RowsAfter(s.rows, page[|page| - 1].sequence)| < |RowsAfter(s.rows, cursor)|
                  && IngestPages(s, db, key, cursor, receivedAt, sizeOf, report)
                     == var r := IngestRows(db, key, page, receivedAt, sizeOf, report);
                        if r.result.Err? || |page| < INGEST_PAGE_SIZE then r
                        else IngestPages(s, r.db, key, page[|page| - 1].sequence, receivedAt, sizeOf, r.result.value))
  {
    hide RowsAfter, ValidSpool, EventsAfter, IngestRows;
    PageIsNextRows(s, cursor, INGEST_PAGE_SIZE);
    if RowsAfter(s.rows, cursor) != [] { PagingMovesOn(s, cursor, INGEST_PAGE_SIZE); }
  }

  /** ingest_spool after the source is registered and pinned, from its durable cursor. */
  function IngestFrom(s: SpoolState, db: Db, key: string, snapshot: Snapshot, receivedAt: int, sizeOf: Sizer): Ingested
    requires ValidSpool(s) && key in db.sources && 0 <= db.sources[key].cursor
  {
    var cursor := db.sources[key].cursor;
    if cursor > snapshot.latest then Ingested(db, Err(SourceRewind(cursor, snapshot.latest)))
    else
      match LostThrough(cursor, snapshot.oldest, snapshot.latest)
      case None => IngestPages(s, db, key, cursor, receivedAt, sizeOf, IngestReport(0, 0, 0))
      case Some(through) =>
        var t := Tables.RecordGap(db, key, cursor, through, receivedAt);
        if t.result.Err? then Ingested(t.db, Err(FromDatabase(t.result.error)))
        else IngestPages(s, t.db, key, through, receivedAt, sizeOf, IngestReport(0, 0, 1))
  }

  function IngestSpool(s: SpoolState, db: Db, key: string, localLabel: string, receivedAt: int, sizeOf: Sizer): Ingested
    requires ValidSpool(s) && Sound(db)
  {
    var snapshot := TakeSnapshot(s);
    if snapshot.Err? then Ingested(db, Err(FromSpool(snapshot.error)))
    else
      var registered := Tables.RegisterSource(db, key, localLabel);
      if registered.result.Err? then Ingested(registered.db, Err(FromDatabase(registered.result.error)))
      else
        var pinned := Tables.PinSource(registered.db, key, snapshot.value.sourceId);
        if pinned.result.Err? then Ingested(pinned.db, Err(FromDatabase(pinned.result.error)))
        else
          PinnedCursorIsNatural(db, key, localLabel, snapshot.value.sourceId);
          IngestFrom(s, pinned.db, key, snapshot.value, receivedAt, sizeOf)
  }

  /**
   * Direct ingestion is refused before it reads any row: for a bad text, for a source pinned elsewhere or an identity
   * owned elsewhere, or when the durable cursor lies beyond the spool. The registration then stands, and nothing else.
   */
  lemma IngestionIsRefused(s: SpoolState, db: Db, key: string, localLabel: string, receivedAt: int, sizeOf: Sizer)
    requires ValidSpool(s) && Sound(db)
    ensures var r, registered := IngestSpool(s, db, key, localLabel, receivedAt, sizeOf), Tables.RegisterSource(db, key, localLabel);
            if registered.result.Err? then r == Ingested(db, Err(FromDatabase(registered.result.error)))
            else
              && key in registered.db.sources
              && var pinned := registered.db.sources[key].pinned;
              && (pinned.Some? && pinned.value != s.sourceId ==>
                    r == Ingested(registered.db, Err(FromDatabase(SourceIdentityChanged(key, pinned.value, s.sourceId)))))
              && (pinned.None? && OwnedElsewhere(registered.db, key, s.sourceId) ==>
                    r == Ingested(registered.db, Err(FromDatabase(DuplicateSourceRegistration(s.sourceId)))))
              && (pinned == Some(s.sourceId) && registered.db.sources[key].cursor > s.highWatermark ==>
                    r == Ingested(registered.db, Err(SourceRewind(registered.db.sources[key].cursor, s.highWatermark))))
  {
    hide Sound, IngestPages, Tables.RecordGap, OwnedElsewhere, KnownHighWatermark, Adopt;
    EverySnapshotIsAnswered(s);
    NewestWithinWatermark(s);
    RefusedRegistration(db, key, localLabel);
  }

  lemma NewestWithinWatermark(s: SpoolState)
    requires ValidSpool(s)
    ensures s.rows != [] ==> s.rows[|s.rows| - 1].sequence <= s.highWatermark
  {
    if s.rows != [] { assert s.rows[|s.rows| - 1] in s.rows; }
  }

  lemma RefusedRegistration(db: Db, key: string, localLabel: string)
    ensures var t := Tables.RegisterSource(db, key, localLabel);
            if t.result.Err? then t.db == db else key in t.db.sources
  {
  }

  lemma PinnedCursorIsNatural(db: Db, key: string, localLabel: string, id: Uuid)
    requires Sound(db) && Tables.RegisterSource(db, key, localLabel).result.Ok?
    ensures var registered := Tables.RegisterSource(db, key, localLabel).db;
            var pinned := Tables.PinSource(registered, key, id);
            && Sound(registered) && Sound(pinned.db) && key in registered.sources && key in pinned.db.sources
            && 0 <= pinned.db.sources[key].cursor
            && (pinned.result.Ok? ==> pinned.db.sources[key].pinned == Some(id))
  {
    hide Sound, KnownHighWatermark;
    Runs.RegisterKeepsSound(db, key, localLabel);
    var registered := Tables.RegisterSource(db, key, localLabel).db;
    if !OwnedElsewhere(registered, key, id) { Runs.AdoptKeepsSound(registered, key, id); }
    CursorsAreNatural(Tables.PinSource(registered, key, id).db);
  }

  lemma {:induction false} IngestRowsAppend(db: Db, key: string, first: seq<SpoolRow>, second: seq<SpoolRow>,
                                            receivedAt: int, sizeOf: Sizer, report: IngestReport)
    ensures var r := IngestRows(db, key, first, receivedAt, sizeOf, report);
            IngestRows(db, key, first + second, receivedAt, sizeOf, report)
            == if r.result.Err? then r else IngestRows(r.db, key, second, receivedAt, sizeOf, r.result.value)
    decreases |first|
  {
    hide Tables.IngestEvent;
    if first == [] {
      assert first + second == second;
    } else {
      assert (first + second)[1..] == first[1..] + second;
      var t := Tables.IngestEvent(db, key, first[0].sequence, first[0].event, sizeOf(first[0].event), receivedAt);
      if t.result.Ok? {
        IngestRowsAppend(t.db, key, first[1..], second, receivedAt, sizeOf, Count(report, t.result.value));
      }
    }
  }

  /** Page boundaries do not matter: paging ingests the rows after the cursor, each once, in order. */
  lemma {:induction false} PagesAreRows(s: SpoolState, db: Db, key: string, cursor: int, receivedAt: int, sizeOf: Sizer, report: IngestReport)
    requires ValidSpool(s) && 0 <= cursor
    ensures IngestPages(s, db, key, cursor, receivedAt, sizeOf, report)
         == IngestRows(db, key, RowsAfter(s.rows, cursor), receivedAt, sizeOf, report)
    decreases |RowsAfter(s.rows, cursor)|
  {
    hide RowsAfter, ValidSpool, EventsAfter, IngestRows, IngestPages;
    PageStep(s, db, key, cursor, receivedAt, sizeOf, report);
    var rest := RowsAfter(s.rows, cursor);
    var page := Take(rest, INGEST_PAGE_SIZE);
    IngestNothing(db, key, receivedAt, sizeOf, report);
    if page != [] {
      PagingMovesOn(s, cursor, INGEST_PAGE_SIZE);
      assert rest == page + rest[|page|..];
      IngestRowsAppend(db, key, page, rest[|page|..], receivedAt, sizeOf, report);
      var r := IngestRows(db, key, page, receivedAt, sizeOf, report);
      if r.result.Ok? {
        if |page| < INGEST_PAGE_SIZE {
          assert rest[|page|..] == [];
          IngestNothing(r.db, key, receivedAt, sizeOf, r.result.value);
        } else {
          PagesAreRows(s, r.db, key, page[|page| - 1].sequence, receivedAt, sizeOf, r.result.value);
        }
      }
    }
  }

  lemma IngestNothing(db: Db, key: string, receivedAt: int, sizeOf: Sizer, report: IngestReport)
    ensures IngestRows(db, key, [], receivedAt, sizeOf, report) == Ingested(db, Ok(report))
  {
  }

  lemma {:induction false} IngestFirst(db: Db, key: string, rows: seq<SpoolRow>, receivedAt: int, sizeOf: Sizer, report: IngestReport)
    requires rows != []
    ensures var t := Tables.IngestEvent(db, key, rows[0].sequence, rows[0].event, sizeOf(rows[0].event), receivedAt);
            IngestRows(db, key, rows, receivedAt, sizeOf, report)
            == if t.result.Err? then Ingested(t.db, Err(FromDatabase(t.result.error)))
               else IngestRows(t.db, key, rows[1..], receivedAt, sizeOf, Count(report, t.result.value))
  {
  }

  /** The direct path as the program runs it, on a spool that stands still meanwhile. */
  method IngestLocalSpool(spool: Spool, desktop: DesktopState, key: string, localLabel: string, receivedAt: int, sizeOf: Sizer)
    returns (result: Result<IngestReport, PipelineError>)
    requires ValidSpool(spool.State()) && Sound(desktop.Contents())
    modifies desktop
    ensures Ingested(desktop.Contents(), result)
         == IngestSpool(spool.State(), old(desktop.Contents()), key, localLabel, receivedAt, sizeOf)
  {
    hide ValidSpool, Sound, IngestPages, Tables.RegisterSource, Tables.PinSource, Tables.RecordGap, TakeSnapshot;
    var read := TakeSnapshot(spool.State());
    if read.Err? { return Err(FromSpool(read.error)); }
    var snapshot := read.value;
    var registered := desktop.RegisterSource(key, localLabel);
    if registered.Err? { return Err(FromDatabase(registered.error)); }
    PinnedCursorIsNatural(old(desktop.Contents()), key, localLabel, snapshot.sourceId);
    var pinned := desktop.PinSource(key, snapshot.sourceId);
    if pinned.Err? { return Err(FromDatabase(pinned.error)); }
    var found := desktop.FindSource(key);
    var cursor := found.value.cursor;
    if cursor > snapshot.latest { return Err(SourceRewind(cursor, snapshot.latest)); }
    var report := IngestReport(0, 0, 0);
    var lost := LostThrough(cursor, snapshot.oldest, snapshot.latest);
    if lost.Some? {
      var recorded := desktop.RecordGap(key, cursor, lost.value, receivedAt);
      if recorded.Err? { return Err(FromDatabase(recorded.error)); }
      cursor := lost.value;
      report := report.(gaps := 1);
    }
    result := IngestAllPages(spool, desktop, key, cursor, receivedAt, sizeOf, report);
  }

  method IngestAllPages(spool: Spool, desktop: DesktopState, key: string, from: int, receivedAt: int, sizeOf: Sizer, before: IngestReport)
    returns (result: Result<IngestReport, PipelineError>)
    requires ValidSpool(spool.State()) && 0 <= from
    modifies desktop
    ensures Ingested(desktop.Contents(), result)
         == IngestPages(spool.State(), old(desktop.Contents()), key, from, receivedAt, sizeOf, before)
  {
    hide ValidSpool, RowsAfter, EventsAfter, IngestRows, IngestPages, Take;
    var cursor, report := from, before;
    ghost var s := spool.State();
    while true
      invariant spool.State() == s && 0 <= cursor
      invariant IngestPages(s, old(desktop.Contents()), key, from, receivedAt, sizeOf, before)
             == IngestPages(s, desktop.Contents(), key, cursor, receivedAt, sizeOf, report)
      decreases |RowsAfter(s.rows, cursor)|
    {
      PageStep(s, desktop.Contents(), key, cursor, receivedAt, sizeOf, report);
      var page := EventsAfter(spool.State(), cursor, INGEST_PAGE_SIZE).value;
      if page == [] { return Ok(report); }
      result := IngestPage(desktop, key, page, receivedAt, sizeOf, report);
      if result.Err? || |page| < INGEST_PAGE_SIZE { return; }
      report := result.value;
      cursor := page[|page| - 1].sequence;
    }
  }

  method IngestPage(desktop: DesktopState, key: string, page: seq<SpoolRow>, receivedAt: int, sizeOf: Sizer, before: IngestReport)
    returns (result: Result<IngestReport, PipelineError>)
    modifies desktop
    ensures Ingested(desktop.Contents(), result) == IngestRows(old(desktop.Contents()), key, page, receivedAt, sizeOf, before)
  {
    hide IngestRows, Tables.IngestEvent, Count;
    var report := before;
    for i := 0 to |page|
      invariant IngestRows(old(desktop.Contents()), key, page, receivedAt, sizeOf, before)
             == IngestRows(desktop.Contents(), key, page[i..], receivedAt, sizeOf, report)
    {
      IngestFirst(desktop.Contents(), key, page[i..], receivedAt, sizeOf, report);
      assert page[i..][1..] == page[i + 1..];
      var one := desktop.IngestEvent(key, page[i].sequence, page[i].event, sizeOf(page[i].event), receivedAt);
      if one.Err? { return Err(FromDatabase(one.error)); }
      report := Count(report, one.value);
    }
    IngestNothing(desktop.Contents(), key, receivedAt, sizeOf, report);
    assert page[|page|..] == [];
    return Ok(report);
  }
}
