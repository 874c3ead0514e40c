/**
 * The pipeline driver of ETL.py: at start-up the run flag is set to 'True';
 * then every period one extraction runs, whose batch flows through the
 * transformer into the loader. An exception raised anywhere in that chain
 * leaves `ETL.run` and ends the process.
 */
module Etl {
  import opened Wrappers
  import opened Timestamps
  import opened RS = RedisStorage
  import opened SourceDb
  import opened Documents
  import opened BatchQueries
  import opened Transformer
  import opened Extractor
  import opened EsLoader
  import Text

  /** What the outside world does during one period: the database contents and how Elasticsearch behaves. */
  datatype Env = Env(db: Db, failAt: Option<Step>, rejected: set<DocKey>)

  /** The exception that ends the process. */
  datatype Crash = ExtractCrash(error: ExtractError) | TransformCrash(terror: TransformError) | BulkCrash(errors: seq<DocKey>)

  /** What one period ends in. */
  datatype Tick =
    | Idle(outcome: Outcome)         // LockHeld or NoChanges
    | Synced(loaded: LoadOutcome)    // the batch reached the loader: Loaded or ConnectionFailed
    | Crashed(crash: Crash)

  /** The persistent state the pipeline touches: the checkpoint hash and the cluster. */
  datatype World = World(stored: State, indices: set<string>, documents: map<DocKey, Document>)

  /** One period: extract, and for a handed-on batch, transform and load. */
  function TickStep(w: World, env: Env, limit: int, collation: string -> int): (Tick, World)
  {
    var extracted := ExtractStep(w.stored, env.db, limit, collation);
    AfterExtract(w.(stored := extracted.1), extracted.0, env)
  }

  /** What follows an extraction that ended in `out` and left the world `w`. */
  function AfterExtract(w: World, out: Outcome, env: Env): (Tick, World)
  {
    match out
    case Failed(e) => (Crashed(ExtractCrash(e)), w)
    case Handoff(batch) => AfterTransform(w, Transformed(batch), env)
    case _ => (Idle(out), w)
  }

  /** What follows the transformation of a handed-on batch. */
  function AfterTransform(w: World, r: Result<Loadable, TransformError>, env: Env): (Tick, World)
  {
    match r
    case Err(e) => (Crashed(TransformCrash(e)), w)
    case Ok(loadable) =>
      AfterLoad(LoadStep(w.indices, w.documents, w.stored, loadable.docs, loadable.lastUpdate, env.failAt, env.rejected))
  }

  /** A load's effect, with a rejected document raised as the end of the process. */
  function AfterLoad(e: LoadEffect): (Tick, World)
  {
    var next := World(e.stored, e.indices, e.documents);
    if e.out.BulkFailed? then (Crashed(BulkCrash(e.out.errors)), next) else (Synced(e.out), next)
  }

  /** `ETL.run` over a sequence of periods: it stops at the first crash. */
  function RunSteps(w: World, envs: seq<Env>, limit: int, collation: string -> int): (seq<Tick>, World)
    decreases |envs|
  {
    if |envs| == 0 then ([], w)
    else
      var step := TickStep(w, envs[0], limit, collation);
      if step.0.Crashed? then ([step.0], step.1)
      else
        var rest := RunSteps(step.1, envs[1..], limit, collation);
        ([step.0] + rest.0, rest.1)
  }

  /** A period is what follows its extraction. */
  lemma TickAfterExtract(w: World, env: Env, limit: int, collation: string -> int, out: Outcome, stored: State)
    requires ExtractStep(w.stored, env.db, limit, collation) == (out, stored)
    ensures TickStep(w, env, limit, collation) == AfterExtract(w.(stored := stored), out, env)
  {
  }

  /** The run from the `i`-th period: that period, then the rest unless it crashed. */
  lemma RunStepsFrom(w: World, envs: seq<Env>, i: nat, limit: int, collation: string -> int)
    requires i < |envs|
    ensures var step := TickStep(w, envs[i], limit, collation);
      RunSteps(w, envs[i..], limit, collation) ==
        if step.0.Crashed? then ([step.0], step.1)
        else ([step.0] + RunSteps(step.1, envs[i + 1..], limit, collation).0, RunSteps(step.1, envs[i + 1..], limit, collation).1)
  {
    assert envs[i..][0] == envs[i] && envs[i..][1..] == envs[i + 1..];
  }

  lemma ConcatAssoc(a: seq<Tick>, b: seq<Tick>, c: seq<Tick>)
    ensures a + (b + c) == (a + b) + c
  {
  }

  /** One turn of `run`'s loop, seen against the whole run: what is left after `ticks` and one more period. */
  lemma RunLoopStep(start: World, before: World, after: World, t: Tick, ticks: seq<Tick>, envs: seq<Env>, i: nat,
                    limit: int, collation: string -> int)
    requires i < |envs|
    requires (t, after) == TickStep(before, envs[i], limit, collation)
    requires RunSteps(start, envs, limit, collation).0 == ticks + RunSteps(before, envs[i..], limit, collation).0
    requires RunSteps(start, envs, limit, collation).1 == RunSteps(before, envs[i..], limit, collation).1
    ensures t.Crashed? ==> RunSteps(start, envs, limit, collation) == (ticks + [t], after)
    ensures !t.Crashed? ==>
      && RunSteps(start, envs, limit, collation).0 == (ticks + [t]) + RunSteps(after, envs[i + 1..], limit, collation).0
      && RunSteps(start, envs, limit, collation).1 == RunSteps(after, envs[i + 1..], limit, collation).1
  {
    RunStepsFrom(before, envs, i, limit, collation);
    ConcatAssoc(ticks, [t], RunSteps(after, envs[i + 1..], limit, collation).0);
  }

  /** The start-up `save_state({'can_start_ETL': 'True'})`. */
  function Restarted(stored: State): (restarted: State)
    ensures restarted.Keys == stored.Keys + {CAN_START} && restarted[CAN_START] == "True"
    ensures forall k :: k in stored && k != CAN_START ==> restarted[k] == stored[k]
  {
    Merge(stored, map[CAN_START := "True"])
  }

  // ---------------------------------------------------------------- properties

  /** `ticks` are the periods of a run over `n` periods that stops at its first crash. */
  predicate StopsAtFirstCrash(ticks: seq<Tick>, n: nat)
  {
    && |ticks| <= n
    && (forall i :: 0 <= i < |ticks| - 1 ==> !ticks[i].Crashed?)
    && (|ticks| < n ==> |ticks| > 0 && ticks[|ticks| - 1].Crashed?)
    && (n > 0 ==> |ticks| > 0)
  }

  lemma StopsAtFirstCrashCons(t: Tick, rest: seq<Tick>, n: nat)
    requires !t.Crashed? && StopsAtFirstCrash(rest, n)
    ensures StopsAtFirstCrash([t] + rest, n + 1)
  {
    var ticks := [t] + rest;
    assert forall i :: 1 <= i < |ticks| ==> ticks[i] == rest[i - 1];
  }

  /** `run` runs one period per environment until the first crash, and the crash is its last period. */
  lemma {:induction false} RunStopsAtFirstCrash(w: World, envs: seq<Env>, limit: int, collation: string -> int)
    ensures StopsAtFirstCrash(RunSteps(w, envs, limit, collation).0, |envs|)
    decreases |envs|
  {
    if |envs| > 0 {
      var step := TickStep(w, envs[0], limit, collation);
      if !step.0.Crashed? {
        var rest := RunSteps(step.1, envs[1..], limit, collation).0;
        RunStopsAtFirstCrash(step.1, envs[1..], limit, collation);
        StopsAtFirstCrashCons(step.0, rest, |envs| - 1);
      }
    }
  }

  /** While another run holds the flag, a period reads nothing and changes nothing. */
  lemma HeldFlagIdles(w: World, env: Env, limit: int, collation: string -> int)
    requires CAN_START in w.stored && w.stored[CAN_START] != "True"
    ensures TickStep(w, env, limit, collation) == (Idle(LockHeld), w)
  {
  }

  /** A period reaches the loader only through a handed-on batch. */
  lemma SyncedTick(w: World, env: Env, limit: int, collation: string -> int)
    requires TickStep(w, env, limit, collation).0.Synced?
    ensures var extracted := ExtractStep(w.stored, env.db, limit, collation);
      && extracted.0.Handoff?
      && TickStep(w, env, limit, collation) == AfterTransform(w.(stored := extracted.1), Transformed(extracted.0.batch), env)
  {
  }

  /** A load that returns commits the batch's cursor and leaves the batch indexed, nothing refused. */
  lemma LoadedAfterTransform(w: World, r: Result<Loadable, TransformError>, env: Env, n: nat)
    requires AfterTransform(w, r, env).0 == Synced(Loaded(n))
    ensures r.Ok?
    ensures var next := AfterTransform(w, r, env).1;
      && next.stored == Merge(w.stored, Committed(r.value.lastUpdate))
      && next.documents == Indexed(w.documents, r.value.docs, env.rejected)
      && n == |r.value.docs|
      && forall i :: 0 <= i < |r.value.docs| ==> KeyOf(r.value.docs[i]) !in env.rejected
  {
  }

  /** A load that cannot reach Elasticsearch changes neither the checkpoint nor the documents. */
  lemma UnreachedAfterTransform(w: World, r: Result<Loadable, TransformError>, env: Env)
    requires AfterTransform(w, r, env).0 == Synced(ConnectionFailed)
    ensures AfterTransform(w, r, env).1.stored == w.stored && AfterTransform(w, r, env).1.documents == w.documents
  {
  }

  /** The checkpoint `load` commits holds the batch's cursor and a free flag. */
  lemma CommittedCheckpoint(stored: State, lastUpdate: Timestamp)
    ensures var next := Merge(stored, Committed(lastUpdate));
      && CAN_START in next && next[CAN_START] == "True"
      && ParseTimestamp(CursorText(next)) == Some(lastUpdate)
  {
    ParseIsoFormat(lastUpdate);
  }

  /**
   * A period that loads commits a cursor the next extraction reads back,
   * strictly after the one it started from, and gives the flag back.
   */
  lemma LoadedTickAdvancesCursor(w: World, env: Env, limit: int, collation: string -> int, n: nat)
    requires TickStep(w, env, limit, collation).0 == Synced(Loaded(n))
    ensures ParseTimestamp(CursorText(w.stored)).Some?
    ensures var next := TickStep(w, env, limit, collation).1;
      && CAN_START in next.stored && next.stored[CAN_START] == "True"
      && ParseTimestamp(CursorText(next.stored)).Some?
      && ParseTimestamp(CursorText(next.stored)).value > ParseTimestamp(CursorText(w.stored)).value
  {
    SyncedTick(w, env, limit, collation);
    var extracted := ExtractStep(w.stored, env.db, limit, collation);
    var batch := extracted.0.batch;
    LoadedAfterTransform(w.(stored := extracted.1), Transformed(batch), env, n);
    TransformedCursor(batch);
    HandoffAdvancesCursor(w.stored, env.db, limit, collation, batch);
    CommittedCheckpoint(extracted.1, Transformed(batch).value.lastUpdate);
  }

  /** A period that loads leaves every document of its batch in the cluster. */
  lemma LoadedTickIndexesBatch(w: World, env: Env, limit: int, collation: string -> int, n: nat)
    requires TickStep(w, env, limit, collation).0 == Synced(Loaded(n))
    ensures var docs := Transformed(ExtractStep(w.stored, env.db, limit, collation).0.batch).value.docs;
      var next := TickStep(w, env, limit, collation).1;
      && n == |docs|
      && next.documents == Indexed(w.documents, docs, env.rejected)
      && forall i :: 0 <= i < |docs| ==> KeyOf(docs[i]) in next.documents
  {
    SyncedTick(w, env, limit, collation);
    var extracted := ExtractStep(w.stored, env.db, limit, collation);
    var r := Transformed(extracted.0.batch);
    LoadedAfterTransform(w.(stored := extracted.1), r, env, n);
    AllIndexed(w.documents, r.value.docs, env.rejected);
  }

  /** A load that cannot reach Elasticsearch keeps the flag taken: every later period idles until a restart. */
  lemma ConnectionFailureStalls(w: World, env: Env, limit: int, collation: string -> int, envs: seq<Env>)
    requires TickStep(w, env, limit, collation).0 == Synced(ConnectionFailed)
    ensures var next := TickStep(w, env, limit, collation).1;
      && CAN_START in next.stored && next.stored[CAN_START] == "False"
      && next.documents == w.documents
      && RunSteps(next, envs, limit, collation) == (Idles(|envs|), next)
  {
    SyncedTick(w, env, limit, collation);
    var extracted := ExtractStep(w.stored, env.db, limit, collation);
    UnreachedAfterTransform(w.(stored := extracted.1), Transformed(extracted.0.batch), env);
    var next := TickStep(w, env, limit, collation).1;
    assert next.stored == Locked(w.stored);
    HeldFlagRuns(next, envs, limit, collation);
  }

  /**
   * As written, a handed-on batch with a genre row ends the process: the
   * genre rows lack genre_films, so the transformer raises KeyError before
   * anything is loaded, and the checkpoint keeps the flag taken.
   */
  lemma GenreChangeCrashes(w: World, env: Env, limit: int, collation: string -> int, batch: Batch)
    requires ExtractStep(w.stored, env.db, limit, collation).0 == Handoff(batch)
    requires |batch.genres| > 0
    ensures TickStep(w, env, limit, collation) == (Crashed(TransformCrash(KeyError("genre_films"))), w.(stored := Locked(w.stored)))
  {
    HandoffGenresLackFilms(w.stored, env.db, limit, collation, batch);
    TickAfterExtract(w, env, limit, collation, Handoff(batch), Locked(w.stored));
    GenreRowCrashesTransform(w.(stored := Locked(w.stored)), batch, env);
  }

  /** A batch whose first genre row lacks genre_films stops the period at the transformer. */
  lemma GenreRowCrashesTransform(w: World, batch: Batch, env: Env)
    requires |batch.films| > 0 && |batch.genres| > 0 && batch.genres[0].genreFilms.None?
    ensures AfterExtract(w, Handoff(batch), env) == (Crashed(TransformCrash(KeyError("genre_films"))), w)
  {
    assert !AllHaveFilms(batch.genres);
  }

  /**
   * After that crash every later period of the same run idles, and a restart
   * gives back exactly the world the crashed period started from, so with
   * the same database the next period crashes the same way.
   */
  lemma GenreCrashRecurs(w: World, env: Env, limit: int, collation: string -> int, batch: Batch, envs: seq<Env>)
    requires ExtractStep(w.stored, env.db, limit, collation).0 == Handoff(batch)
    requires |batch.genres| > 0
    ensures var next := TickStep(w, env, limit, collation).1;
      && RunSteps(next, envs, limit, collation) == (Idles(|envs|), next)
      && next.(stored := Restarted(next.stored)) == w
  {
    GenreChangeCrashes(w, env, limit, collation, batch);
    HandoffGenresLackFilms(w.stored, env.db, limit, collation, batch);
    HeldFlagRuns(w.(stored := Locked(w.stored)), envs, limit, collation);
    RestartUndoesLock(w.stored);
  }

  /** Restarting after the flag was taken from a free checkpoint gives that checkpoint back. */
  lemma RestartUndoesLock(stored: State)
    requires CAN_START in stored && stored[CAN_START] == "True"
    ensures Restarted(Locked(stored)) == stored
  {
    assert Restarted(Locked(stored)).Keys == stored.Keys;
  }

  /**
   * With the corrected queries every genre row has its films, so a batch
   * with film rows always transforms: the genre documents carry genre_films.
   */
  lemma CorrectedBatchTransforms(db: Db, cursor: Timestamp, limit: nat, collation: string -> int)
    ensures var batch := RunQueriesCorrected(db, cursor, limit, collation);
      |batch.films| > 0 ==> Transformed(batch).Ok?
  {
    var batch := RunQueriesCorrected(db, cursor, limit, collation);
    assert AllHaveFilms(batch.genres) by {
      forall i | 0 <= i < |batch.genres| ensures batch.genres[i].genreFilms.Some? {
        assert batch.genres[i] in batch.genres;
      }
    }
  }

  /** `n` periods that each found the flag taken. */
  function Idles(n: nat): (ticks: seq<Tick>)
    ensures |ticks| == n && forall i :: 0 <= i < n ==> ticks[i] == Idle(LockHeld)
  {
    if n == 0 then [] else [Idle(LockHeld)] + Idles(n - 1)
  }

  /** With the flag held, a whole run idles. */
  lemma {:induction false} HeldFlagRuns(w: World, envs: seq<Env>, limit: int, collation: string -> int)
    requires CAN_START in w.stored && w.stored[CAN_START] != "True"
    ensures RunSteps(w, envs, limit, collation) == (Idles(|envs|), w)
    decreases |envs|
  {
    if |envs| > 0 {
      HeldFlagIdles(w, envs[0], limit, collation);
      HeldFlagRuns(w, envs[1..], limit, collation);
    }
  }

  /** A restart gives the flag back and keeps the cursor: the changes of an unfinished period are extracted again. */
  lemma RestartResumes(stored: State)
    ensures Restarted(stored)[CAN_START] == "True"
    ensures CursorText(Restarted(stored)) == CursorText(stored)
  {
  }

  // ---------------------------------------------------------------- the driver

  /** The ETL object: extractor and loader share one checkpoint storage. */
  class ETL {
    const extractor: PsqlExtractor
    const loader: ESLoader
    const limit: int

    constructor (extractor: PsqlExtractor, loader: ESLoader, limit: int)
      requires extractor.storage == loader.storage
      ensures this.extractor == extractor && this.loader == loader && this.limit == limit
      ensures this.extractor.storage == this.loader.storage
    {
      this.extractor := extractor;
      this.loader := loader;
      this.limit := limit;
    }

    /** The persistent state as the pipeline sees it. */
    function Now(): World
      reads extractor.storage, loader.connect
    {
      World(extractor.storage.Stored(), loader.connect.indices, loader.connect.documents)
    }

    /** The start-up write of the flag. */
    method Startup()
      requires extractor.storage == loader.storage
      modifies extractor.storage
      ensures Now() == old(Now()).(stored := Restarted(old(Now()).stored))
    {
      extractor.storage.SaveState(map[CAN_START := "True"]);
    }

    /** One period of `run`: `extract`, which sends its batch through `transform` into `load`. */
    method RunOnce(env: Env, collation: string -> int) returns (t: Tick)
      requires extractor.storage == loader.storage
      modifies extractor.storage, loader.connect
      ensures (t, Now()) == TickStep(old(Now()), env, limit, collation)
    {
      ghost var w := Now();
      var out := extractor.Extract(env.db, limit, collation);
      ghost var stored := extractor.storage.Stored();
      TickAfterExtract(w, env, limit, collation, out, stored);
      if out.Handoff? {
        t := Deliver(out.batch, env);
      } else {
        t := if out.Failed? then Crashed(ExtractCrash(out.error)) else Idle(out);
      }
    }

    /** A handed-on batch: `transform`, then `load`. */
    method Deliver(batch: Batch, env: Env) returns (t: Tick)
      requires extractor.storage == loader.storage
      modifies extractor.storage, loader.connect
      ensures (t, Now()) == AfterTransform(old(Now()), Transformed(batch), env)
    {
      var r := Transform(batch);
      if r.Err? {
        return Crashed(TransformCrash(r.error));
      }
      var loaded := loader.Load(r.value.docs, r.value.lastUpdate, env.failAt, env.rejected);
      if loaded.BulkFailed? {
        return Crashed(BulkCrash(loaded.errors));
      }
      return Synced(loaded);
    }

    /** `run`: one period per element of `envs`, until an exception ends the loop. */
    method Run(envs: seq<Env>, collation: string -> int) returns (ticks: seq<Tick>)
      requires extractor.storage == loader.storage
      modifies extractor.storage, loader.connect
      ensures (ticks, Now()) == RunSteps(old(Now()), envs, limit, collation)
    {
      ghost var start := Now();
      ticks := [];
      var i := 0;
      var crashed := false;
      assert envs[0..] == envs;
      while i < |envs| && !crashed
        invariant 0 <= i <= |envs|
        invariant crashed ==> RunSteps(start, envs, limit, collation) == (ticks, Now())
        invariant !crashed ==>
          && RunSteps(start, envs, limit, collation).0 == ticks + RunSteps(Now(), envs[i..], limit, collation).0
          && RunSteps(start, envs, limit, collation).1 == RunSteps(Now(), envs[i..], limit, collation).1
        decreases |envs| - i
      {
        ghost var before := Now();
        var t := RunOnce(envs[i], collation);
        RunLoopStep(start, before, Now(), t, ticks, envs, i, limit, collation);
        ticks := ticks + [t];
        crashed := t.Crashed?;
        i := i + 1;
      }
      if !crashed {
        assert envs[i..] == [];
        assert ticks + [] == ticks;
      }
    }
  }
}
