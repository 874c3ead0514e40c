/**
 * The extractor of extractor/psql_extractor.py (and its copy in ETL.py):
 * reads the checkpoint, takes the run flag, runs the change-detection and
 * batch queries against the cursor, and either hands the batch on or, when
 * no film rows came back, gives the flag back with the cursor unchanged.
 */
module Extractor {
  import opened Wrappers
  import opened Timestamps
  import opened RS = RedisStorage
  import opened SourceDb
  import opened ChangeDetection
  import opened BatchQueries
  import FetchFirst

  /** An exception that escapes `extract`. */
  datatype ExtractError =
    | KeyErrorLockFlag   // the checkpoint has no `can_start_ETL` field
    | QueryFailed        // Postgres refused the cursor text or a negative limit

  /** What one call of `extract` ends in. */
  datatype Outcome =
    | LockHeld           // the flag is not 'True': nothing is read or written
    | NoChanges          // no film rows: the flag is given back, the cursor kept
    | Handoff(batch: Batch)
    | Failed(error: ExtractError)

  /** The cursor text: the stored `last_update` when it is present and non-empty, otherwise the epoch. */
  function CursorText(stored: State): (s: string)
    ensures LAST_UPDATE in stored && stored[LAST_UPDATE] != "" ==> s == stored[LAST_UPDATE]
    ensures !(LAST_UPDATE in stored && stored[LAST_UPDATE] != "") ==> s == EPOCH_TEXT
  {
    if LAST_UPDATE in stored && |stored[LAST_UPDATE]| > 0 then stored[LAST_UPDATE] else EPOCH_TEXT
  }

  /**
   * The statements of one extraction, from CREATE_TMP_LAST_UPDATED_FILMS to
   * GET_UPDATED_PERSONS_INFO, as written: the per-film groups are built from
   * the detected rows before CLEAR_DATA_OVER_LIMIT deletes by film_id, the
   * genre rows carry no genre_films column, and each person row lists only
   * the batch's films of its group.
   */
  function RunQueries(db: Db, cursor: Timestamp, limit: nat, collation: string -> int): (batch: Batch)
    ensures FetchFirst.SortedBy(batch.films, FilmInfoTime)
    ensures forall x :: x in batch.genres ==> x.genreFilms.None?
  {
    var detected := DetectedChanges(db, cursor);
    var tfg := TmpFilmGenres(db, detected, limit);
    var tfp := TmpFilmPersons(db, detected, limit);
    var cleared := ClearDataOverLimit(detected, limit);
    Batch(UpdatedPersonsInfoAsWritten(db, cleared, collation), UpdatedGenresInfoAsWritten(db, cleared), UpdatedFilmsInfo(db, cleared, tfg, tfp))
  }

  /**
   * The same statements with the three corrections: the delete keyed on
   * (film_id, last_update), the genre query selecting genre_films, and the
   * person query listing all of a person's films in the role.
   */
  function RunQueriesCorrected(db: Db, cursor: Timestamp, limit: nat, collation: string -> int): (batch: Batch)
    ensures FetchFirst.SortedBy(batch.films, FilmInfoTime)
    ensures forall x :: x in batch.genres ==> x.genreFilms.Some?
  {
    DetectedChangesSpec(db, cursor);
    var detected := DetectedChanges(db, cursor);
    var tfg := TmpFilmGenres(db, detected, limit);
    var tfp := TmpFilmPersons(db, detected, limit);
    var cleared := ClearDataBeyondCutoff(detected, limit);
    Batch(UpdatedPersonsInfo(db, cleared, collation), UpdatedGenresInfo(db, cleared), UpdatedFilmsInfo(db, cleared, tfg, tfp))
  }

  /** The checkpoint with the flag taken: the whole retrieved hash, flag set to 'False'. */
  function Locked(stored: State): (locked: State)
    ensures locked.Keys == stored.Keys + {CAN_START} && locked[CAN_START] == "False"
    ensures forall k :: k in stored && k != CAN_START ==> locked[k] == stored[k]
    ensures CursorText(locked) == CursorText(stored)
  {
    stored[CAN_START := "False"]
  }


  /** Writing a key twice leaves the second value. */
  lemma UpdateTwice(m: map<string, State>, k: string, a: State, b: State)
    ensures m[k := a][k := b] == m[k := b]
  {
  }

  /** One extraction on the stored checkpoint: its outcome and the checkpoint it leaves. */
  function ExtractStep(stored: State, db: Db, limit: int, collation: string -> int): (r: (Outcome, State))
    ensures r.0 == Failed(KeyErrorLockFlag) <==> CAN_START !in stored
    ensures r.0 == LockHeld <==> CAN_START in stored && stored[CAN_START] != "True"
    ensures r.0 == Failed(QueryFailed) <==>
      CAN_START in stored && stored[CAN_START] == "True" && (ParseTimestamp(CursorText(stored)).None? || limit < 0)
    ensures r.0 == LockHeld || r.0 == Failed(KeyErrorLockFlag) ==> r.1 == stored
    ensures r.0 == Failed(QueryFailed) || r.0.Handoff? ==> r.1 == Locked(stored)
    ensures r.0 == NoChanges ==> r.1 == Merge(Locked(stored), StateDict(CursorText(stored), "True"))
    ensures r.0.Handoff? ==> |r.0.batch.films| > 0
    ensures (r.0.Handoff? || r.0 == NoChanges) ==>
      limit >= 0 && ParseTimestamp(CursorText(stored)).Some? &&
      var batch := RunQueries(db, ParseTimestamp(CursorText(stored)).value, limit, collation);
      (r.0 == NoChanges <==> |batch.films| == 0) && (r.0.Handoff? ==> r.0.batch == batch)
  {
    match Gate(stored)
    case Some(held) => (held, stored)
    case None => QueryStep(Locked(stored), CursorText(stored), db, limit, collation)
  }

  /** The flag check: the outcome when `extract` stops before the queries, `None` when it takes the flag. */
  function Gate(stored: State): (held: Option<Outcome>)
    ensures held.None? <==> CAN_START in stored && stored[CAN_START] == "True"
  {
    if CAN_START !in stored then Some(Failed(KeyErrorLockFlag))
    else if stored[CAN_START] != "True" then Some(LockHeld)
    else None
  }

  /** The query phase, on the checkpoint with the flag taken. */
  function QueryStep(locked: State, cursorText: string, db: Db, limit: int, collation: string -> int): (Outcome, State)
  {
    var cursor := ParseTimestamp(cursorText);
    if cursor.None? || limit < 0 then (Failed(QueryFailed), locked)
    else
      var batch := RunQueries(db, cursor.value, limit, collation);
      if |batch.films| == 0 then (NoChanges, Merge(locked, StateDict(cursorText, "True")))
      else (Handoff(batch), locked)
  }

  /** Once the flag is taken, an extraction is its query phase. */
  lemma GateOpen(stored: State, db: Db, limit: int, collation: string -> int)
    requires Gate(stored).None?
    ensures ExtractStep(stored, db, limit, collation) == QueryStep(Locked(stored), CursorText(stored), db, limit, collation)
  {
  }

  /** The rows left by the delete changed after the cursor. */
  lemma ClearedAfterCursor(db: Db, cursor: Timestamp, limit: nat, k: (Id, Timestamp))
    requires DetectedChangesSpecHolds(db, cursor)
    requires k in Keys(ClearDataOverLimit(DetectedChanges(db, cursor), limit))
    ensures k.1 > cursor
  {
    var detected := DetectedChanges(db, cursor);
    var t :| t in ClearDataOverLimit(detected, limit) && Key(t) == k;
    assert t in detected;
  }

  predicate DetectedChangesSpecHolds(db: Db, cursor: Timestamp)
  {
    UniqueKeys(DetectedChanges(db, cursor)) && forall r :: r in DetectedChanges(db, cursor) ==> r.lastUpdate > cursor
  }

  /** Every film row of a batch changed after the cursor it was extracted with. */
  lemma BatchAfterCursor(db: Db, cursor: Timestamp, limit: nat, collation: string -> int, x: FilmInfoRow)
    requires x in RunQueries(db, cursor, limit, collation).films
    ensures x.lastUpdate > cursor
  {
    DetectedChangesSpec(db, cursor);
    var detected := DetectedChanges(db, cursor);
    var cleared := ClearDataOverLimit(detected, limit);
    FilmInfoFromChangeRow(db, cleared, TmpFilmGenres(db, detected, limit), TmpFilmPersons(db, detected, limit), x);
    ClearedAfterCursor(db, cursor, limit, (x.filmId, x.lastUpdate));
  }

  /** A batch handed on carries a next cursor strictly after the one it was extracted with. */
  lemma HandoffAdvancesCursor(stored: State, db: Db, limit: int, collation: string -> int, batch: Batch)
    requires ExtractStep(stored, db, limit, collation).0 == Handoff(batch)
    ensures batch.films[|batch.films| - 1].lastUpdate > ParseTimestamp(CursorText(stored)).value
  {
    var cursor := ParseTimestamp(CursorText(stored)).value;
    assert batch == RunQueries(db, cursor, limit, collation);
    BatchAfterCursor(db, cursor, limit, collation, batch.films[|batch.films| - 1]);
  }

  /** As written, a handed-on batch has film rows, its genre rows have no genre_films, and the flag stays taken. */
  lemma HandoffGenresLackFilms(stored: State, db: Db, limit: int, collation: string -> int, batch: Batch)
    requires ExtractStep(stored, db, limit, collation).0 == Handoff(batch)
    ensures CAN_START in stored && stored[CAN_START] == "True"
    ensures |batch.films| > 0 && ExtractStep(stored, db, limit, collation).1 == Locked(stored)
    ensures forall x :: x in batch.genres ==> x.genreFilms.None?
  {
    assert batch == RunQueries(db, ParseTimestamp(CursorText(stored)).value, limit, collation);
  }

  /** While one run holds the flag, a second extraction reads nothing and writes nothing. */
  lemma HeldFlagExcludesSecondRun(stored: State, db: Db, db2: Db, limit: int, limit2: int, collation: string -> int)
    requires ExtractStep(stored, db, limit, collation).0.Handoff?
    ensures var after := ExtractStep(stored, db, limit, collation).1;
      ExtractStep(after, db2, limit2, collation) == (LockHeld, after)
  {
  }

  /** A query that fails leaves the flag taken: every later extraction is held until the flag is reset. */
  lemma FailedQueryKeepsFlag(stored: State, db: Db, db2: Db, limit: int, limit2: int, collation: string -> int)
    requires ExtractStep(stored, db, limit, collation).0 == Failed(QueryFailed)
    ensures var after := ExtractStep(stored, db, limit, collation).1;
      ExtractStep(after, db2, limit2, collation) == (LockHeld, after)
  {
  }

  /** With no changes the flag is given back and the cursor text is kept, so the next extraction reads the same cursor. */
  lemma NoChangesKeepsCursor(stored: State, db: Db, limit: int, collation: string -> int)
    requires ExtractStep(stored, db, limit, collation).0 == NoChanges
    ensures var after := ExtractStep(stored, db, limit, collation).1;
      after[CAN_START] == "True" && CursorText(after) == CursorText(stored)
  {
  }

  /** The extractor, holding the checkpoint storage it shares with the loader. */
  class PsqlExtractor {
    const storage: RS.RedisStorage

    constructor (storage: RS.RedisStorage)
      ensures this.storage == storage
    {
      this.storage := storage;
    }

    /** `extract`: one extraction against the database snapshot `db`. */
    method Extract(db: Db, limit: int, collation: string -> int) returns (out: Outcome)
      modifies storage
      ensures (out, storage.Stored()) == ExtractStep(old(storage.Stored()), db, limit, collation)
      ensures out == LockHeld || out == Failed(KeyErrorLockFlag) ==> storage.server == old(storage.server)
      ensures !(out == LockHeld || out == Failed(KeyErrorLockFlag)) ==>
        storage.server == old(storage.server)[R_HASH := storage.Stored()]
    {
      var held, lastUpdate := TakeFlag();
      if held.Some? {
        return held.value;
      }
      ghost var locked := storage.Stored();
      GateOpen(old(storage.Stored()), db, limit, collation);
      out := RunLocked(db, lastUpdate, limit, collation);
      if out == NoChanges {
        UpdateTwice(old(storage.server), R_HASH, locked, storage.Stored());
      }
    }

    /** The first half of `extract`: read the checkpoint and take the flag if it is 'True'. */
    method TakeFlag() returns (held: Option<Outcome>, lastUpdate: string)
      modifies storage
      ensures held == Gate(old(storage.Stored())) && lastUpdate == CursorText(old(storage.Stored()))
      ensures held.Some? ==> storage.server == old(storage.server)
      ensures held.None? ==> storage.Stored() == Locked(old(storage.Stored()))
      ensures held.None? ==> storage.server == old(storage.server)[R_HASH := storage.Stored()]
    {
      var state := storage.RetrieveState();
      lastUpdate := if LAST_UPDATE in state && |state[LAST_UPDATE]| > 0 then state[LAST_UPDATE] else EPOCH_TEXT;
      if CAN_START !in state {
        return Some(Failed(KeyErrorLockFlag)), lastUpdate;
      }
      if state[CAN_START] == "True" {
        state := state[CAN_START := "False"];
        storage.SaveState(state);
        assert Merge(old(storage.Stored()), state) == state;
      } else {
        return Some(LockHeld), lastUpdate;
      }
      held := None;
    }

    /** The second half of `extract`, with the flag taken: the queries, and the hand-back when no film rows came back. */
    method RunLocked(db: Db, lastUpdate: string, limit: int, collation: string -> int) returns (out: Outcome)
      modifies storage
      ensures (out, storage.Stored()) == QueryStep(old(storage.Stored()), lastUpdate, db, limit, collation)
      ensures out == NoChanges ==> storage.server == old(storage.server)[R_HASH := storage.Stored()]
      ensures out != NoChanges ==> storage.server == old(storage.server)
    {
      var cursor := ParseTimestamp(lastUpdate);
      if cursor.None? || limit < 0 {
        return Failed(QueryFailed);
      }
      var batch := RunQueries(db, cursor.value, limit, collation);
      if |batch.films| == 0 {
        storage.SaveState(StateDict(lastUpdate, "True"));
        return NoChanges;
      }
      return Handoff(batch);
    }
  }
}
