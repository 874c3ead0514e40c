/**
 * The loader of loader/es_loader.py (and its copy in ETL.py): checks that
 * Elasticsearch answers, creates the `genre` and `person` indices when they
 * are missing, bulk-indexes the documents and, only after all of that
 * succeeded, commits the new cursor and gives the run flag back.
 */
module EsLoader {
  import opened Wrappers
  import opened Timestamps
  import opened RS = RedisStorage
  import opened SourceDb
  import opened Documents

  /** Where a document lives: its `_index` and its `_id`. */
  type DocKey = (string, Id)

  function KeyOf(d: Document): DocKey
  {
    (d.Index(), d.DocId())
  }

  /**
   * The calls `load` makes on Elasticsearch, in order; any of them can raise
   * ConnectionError. `Ping` is kept as an abstract availability probe: the
   * client's ping reports an unreachable cluster by returning False, which
   * `is_available_service` ignores, so a failure there has the same effect as
   * one at the first index check.
   */
  datatype Step = Ping | GenreExists | CreateGenre | PersonExists | CreatePerson | Bulk

  /** What one call of `load` ends in. */
  datatype LoadOutcome =
    | ConnectionFailed            // caught and logged; nothing is committed
    | Loaded(success: nat)        // committed: the cursor advances and the flag is given back
    | BulkFailed(errors: seq<DocKey>)  // the bulk helper raised: the exception leaves `load`

  // ---------------------------------------------------------------- bulk indexing

  /** The documents after bulk-indexing `docs` in order: each accepted document replaces what its key held. */
  function Indexed(m: map<DocKey, Document>, docs: seq<Document>, rejected: set<DocKey>): map<DocKey, Document>
    decreases |docs|
  {
    if |docs| == 0 then m
    else
      var prev := Indexed(m, docs[..|docs| - 1], rejected);
      var d := docs[|docs| - 1];
      if KeyOf(d) in rejected then prev else prev[KeyOf(d) := d]
  }

  /** The keys the batch writes. */
  function AcceptedKeys(docs: seq<Document>, rejected: set<DocKey>): set<DocKey>
  {
    set i | 0 <= i < |docs| && KeyOf(docs[i]) !in rejected :: KeyOf(docs[i])
  }

  /** How many documents the bulk request indexed. */
  function AcceptedCount(docs: seq<Document>, rejected: set<DocKey>): nat
    decreases |docs|
  {
    if |docs| == 0 then 0
    else AcceptedCount(docs[..|docs| - 1], rejected) + (if KeyOf(docs[|docs| - 1]) in rejected then 0 else 1)
  }

  /** The keys of the documents Elasticsearch refused, in order. */
  function RejectedKeys(docs: seq<Document>, rejected: set<DocKey>): seq<DocKey>
    decreases |docs|
  {
    if |docs| == 0 then []
    else RejectedKeys(docs[..|docs| - 1], rejected) + (if KeyOf(docs[|docs| - 1]) in rejected then [KeyOf(docs[|docs| - 1])] else [])
  }

  lemma AcceptedKeysStep(docs: seq<Document>, rejected: set<DocKey>)
    requires |docs| > 0
    ensures AcceptedKeys(docs, rejected) ==
      AcceptedKeys(docs[..|docs| - 1], rejected) + (if KeyOf(docs[|docs| - 1]) in rejected then {} else {KeyOf(docs[|docs| - 1])})
  {
    var prefix := docs[..|docs| - 1];
    forall k | k in AcceptedKeys(docs, rejected)
      ensures k in AcceptedKeys(prefix, rejected) + (if KeyOf(docs[|docs| - 1]) in rejected then {} else {KeyOf(docs[|docs| - 1])})
    {
      var i :| 0 <= i < |docs| && KeyOf(docs[i]) !in rejected && k == KeyOf(docs[i]);
      if i < |prefix| {
        assert KeyOf(prefix[i]) == k;
      }
    }
    forall k | k in AcceptedKeys(prefix, rejected) ensures k in AcceptedKeys(docs, rejected) {
      var i :| 0 <= i < |prefix| && KeyOf(prefix[i]) !in rejected && k == KeyOf(prefix[i]);
      assert KeyOf(docs[i]) == k;
    }
  }

  /** Every document is either indexed or reported. */
  lemma {:induction false} BulkAccountsForAll(docs: seq<Document>, rejected: set<DocKey>)
    ensures AcceptedCount(docs, rejected) + |RejectedKeys(docs, rejected)| == |docs|
    ensures forall k :: k in RejectedKeys(docs, rejected) ==> k in rejected
    decreases |docs|
  {
    if |docs| > 0 {
      BulkAccountsForAll(docs[..|docs| - 1], rejected);
    }
  }

  /** A key the batch does not write keeps what it held. */
  lemma {:induction false} IndexedFrame(m: map<DocKey, Document>, docs: seq<Document>, rejected: set<DocKey>, k: DocKey)
    requires k !in AcceptedKeys(docs, rejected)
    ensures k in Indexed(m, docs, rejected) <==> k in m
    ensures k in m ==> Indexed(m, docs, rejected)[k] == m[k]
    decreases |docs|
  {
    if |docs| > 0 {
      AcceptedKeysStep(docs, rejected);
      IndexedFrame(m, docs[..|docs| - 1], rejected, k);
    }
  }

  /** What a written key holds afterwards does not depend on what the index held before. */
  lemma {:induction false} IndexedWritten(m1: map<DocKey, Document>, m2: map<DocKey, Document>, docs: seq<Document>, rejected: set<DocKey>, k: DocKey)
    requires k in AcceptedKeys(docs, rejected)
    ensures k in Indexed(m1, docs, rejected) && k in Indexed(m2, docs, rejected)
    ensures Indexed(m1, docs, rejected)[k] == Indexed(m2, docs, rejected)[k]
    decreases |docs|
  {
    AcceptedKeysStep(docs, rejected);
    var d := docs[|docs| - 1];
    if !(KeyOf(d) !in rejected && KeyOf(d) == k) {
      IndexedWritten(m1, m2, docs[..|docs| - 1], rejected, k);
    }
  }

  /** The last accepted document with a given key is what the key holds. */
  lemma {:induction false} IndexedLastWins(m: map<DocKey, Document>, docs: seq<Document>, rejected: set<DocKey>, i: nat)
    requires i < |docs| && KeyOf(docs[i]) !in rejected
    requires forall j :: i < j < |docs| ==> KeyOf(docs[j]) != KeyOf(docs[i])
    ensures KeyOf(docs[i]) in Indexed(m, docs, rejected) && Indexed(m, docs, rejected)[KeyOf(docs[i])] == docs[i]
    decreases |docs|
  {
    if i < |docs| - 1 {
      IndexedLastWins(m, docs[..|docs| - 1], rejected, i);
    }
  }

  /** Indexing the same batch again changes nothing: re-sending a batch after a failure is harmless. */
  lemma IndexedIdempotent(m: map<DocKey, Document>, docs: seq<Document>, rejected: set<DocKey>)
    ensures Indexed(Indexed(m, docs, rejected), docs, rejected) == Indexed(m, docs, rejected)
  {
    var once := Indexed(m, docs, rejected);
    var twice := Indexed(once, docs, rejected);
    forall k ensures (k in twice <==> k in once) && (k in once ==> twice[k] == once[k]) {
      if k in AcceptedKeys(docs, rejected) {
        IndexedWritten(once, m, docs, rejected, k);
      } else {
        IndexedFrame(once, docs, rejected, k);
      }
    }
  }

  /** The keys afterwards: the old keys and the written ones. */
  lemma {:induction false} IndexedKeys(m: map<DocKey, Document>, docs: seq<Document>, rejected: set<DocKey>)
    ensures Indexed(m, docs, rejected).Keys == m.Keys + AcceptedKeys(docs, rejected)
    decreases |docs|
  {
    if |docs| > 0 {
      AcceptedKeysStep(docs, rejected);
      IndexedKeys(m, docs[..|docs| - 1], rejected);
    }
  }

  /** When nothing is refused, every document's key is in the index afterwards. */
  lemma AllIndexed(m: map<DocKey, Document>, docs: seq<Document>, rejected: set<DocKey>)
    requires forall i :: 0 <= i < |docs| ==> KeyOf(docs[i]) !in rejected
    ensures forall i :: 0 <= i < |docs| ==> KeyOf(docs[i]) in Indexed(m, docs, rejected)
  {
    IndexedKeys(m, docs, rejected);
    forall i | 0 <= i < |docs| ensures KeyOf(docs[i]) in AcceptedKeys(docs, rejected) {
    }
  }

  // ---------------------------------------------------------------- the index server

  /** The Elasticsearch cluster as the loader sees it. */
  class Elastic {
    var indices: set<string>
    var documents: map<DocKey, Document>

    constructor (indices: set<string>, documents: map<DocKey, Document>)
      ensures this.indices == indices && this.documents == documents
    {
      this.indices := indices;
      this.documents := documents;
    }

    /** `indices.create`. */
    method CreateIndex(name: string)
      modifies this
      ensures indices == old(indices) + {name} && documents == old(documents)
    {
      indices := indices + {name};
    }

    /** The bulk helper: indexes the documents one by one; the refused ones are reported, the others written. */
    method BulkIndex(docs: seq<Document>, rejected: set<DocKey>) returns (success: nat, errors: seq<DocKey>)
      modifies this
      ensures documents == Indexed(old(documents), docs, rejected) && indices == old(indices)
      ensures success == AcceptedCount(docs, rejected) && errors == RejectedKeys(docs, rejected)
    {
      success := 0;
      errors := [];
      var i := 0;
      while i < |docs|
        invariant 0 <= i <= |docs|
        invariant documents == Indexed(old(documents), docs[..i], rejected) && indices == old(indices)
        invariant success == AcceptedCount(docs[..i], rejected) && errors == RejectedKeys(docs[..i], rejected)
      {
        var d := docs[i];
        assert docs[..i + 1][..i] == docs[..i];
        if KeyOf(d) in rejected {
          errors := errors + [KeyOf(d)];
        } else {
          documents := documents[KeyOf(d) := d];
          success := success + 1;
        }
        i := i + 1;
      }
      assert docs[..i] == docs;
    }
  }

  // ---------------------------------------------------------------- load

  /** The indices after the existence checks and creations, or `None` when one of those calls fails. */
  function PreparedIndices(indices: set<string>, failAt: Option<Step>): (r: Option<set<string>>)
    ensures r.Some? ==> r.value == indices + {"genre", "person"}
    ensures failAt == Some(Ping) || failAt == Some(GenreExists) || failAt == Some(PersonExists) ==> r.None?
    ensures failAt.None? || failAt == Some(Bulk) ==> r.Some?
  {
    if failAt == Some(Ping) || failAt == Some(GenreExists) then None
    else if "genre" !in indices && failAt == Some(CreateGenre) then None
    else if failAt == Some(PersonExists) then None
    else if "person" !in indices && failAt == Some(CreatePerson) then None
    else Some(indices + {"genre", "person"})
  }

  /** The indices that exist when a call fails: those created before it. */
  function IndicesAtFailure(indices: set<string>, failAt: Option<Step>): (r: set<string>)
    ensures indices <= r <= indices + {"genre", "person"}
    ensures failAt == Some(Ping) ==> r == indices
    ensures failAt == Some(PersonExists) || failAt == Some(CreatePerson) ==> "genre" in r
  {
    if failAt == Some(Ping) || failAt == Some(GenreExists) || failAt == Some(CreateGenre) then indices
    else if failAt == Some(PersonExists) || failAt == Some(CreatePerson) then indices + {"genre"}
    else indices + {"genre", "person"}
  }

  /** The fields the loader commits for a cursor. */
  function Committed(lastUpdate: Timestamp): (fields: State)
    ensures fields.Keys == {LAST_UPDATE, CAN_START} && fields[CAN_START] == "True"
    ensures ParseTimestamp(fields[LAST_UPDATE]) == Some(lastUpdate)
  {
    ParseIsoFormat(lastUpdate);
    StateDict(IsoFormat(lastUpdate), "True")
  }

  /** The whole effect of one `load`: outcome, indices, documents and checkpoint. */
  datatype LoadEffect = LoadEffect(out: LoadOutcome, indices: set<string>, documents: map<DocKey, Document>, stored: State)

  function LoadStep(indices: set<string>, documents: map<DocKey, Document>, stored: State,
                    docs: seq<Document>, lastUpdate: Timestamp, failAt: Option<Step>, rejected: set<DocKey>): (e: LoadEffect)
    ensures e.out.ConnectionFailed? ==> e.documents == documents && e.stored == stored && e.indices == IndicesAtFailure(indices, failAt)
    ensures e.out.ConnectionFailed? <==> PreparedIndices(indices, failAt).None? || failAt == Some(Bulk)
    ensures !e.out.ConnectionFailed? ==> e.indices == indices + {"genre", "person"} && e.documents == Indexed(documents, docs, rejected)
    ensures e.out.BulkFailed? ==> e.stored == stored && |e.out.errors| > 0 && e.out.errors == RejectedKeys(docs, rejected)
    ensures e.out.Loaded? ==> e.stored == Merge(stored, Committed(lastUpdate)) && e.out.success == |docs|
    ensures e.out.Loaded? <==> (PreparedIndices(indices, failAt).Some? && failAt != Some(Bulk) &&
      forall i :: 0 <= i < |docs| ==> KeyOf(docs[i]) !in rejected)
  {
    BulkAccountsForAll(docs, rejected);
    NoneRejected(docs, rejected);
    match PreparedIndices(indices, failAt)
    case None => LoadEffect(ConnectionFailed, IndicesAtFailure(indices, failAt), documents, stored)
    case Some(prepared) =>
      if failAt == Some(Bulk) then LoadEffect(ConnectionFailed, prepared, documents, stored)
      else
        var errors := RejectedKeys(docs, rejected);
        if |errors| > 0 then LoadEffect(BulkFailed(errors), prepared, Indexed(documents, docs, rejected), stored)
        else LoadEffect(Loaded(AcceptedCount(docs, rejected)), prepared, Indexed(documents, docs, rejected), Merge(stored, Committed(lastUpdate)))
  }

  /** No key is reported exactly when no document was refused. */
  lemma {:induction false} NoneRejected(docs: seq<Document>, rejected: set<DocKey>)
    ensures |RejectedKeys(docs, rejected)| == 0 <==> forall i :: 0 <= i < |docs| ==> KeyOf(docs[i]) !in rejected
    decreases |docs|
  {
    if |docs| > 0 {
      NoneRejected(docs[..|docs| - 1], rejected);
    }
  }

  /** The loader, holding the cluster and the checkpoint storage it shares with the extractor. */
  class ESLoader {
    const connect: Elastic
    const storage: RS.RedisStorage

    constructor (connect: Elastic, storage: RS.RedisStorage)
      ensures this.connect == connect && this.storage == storage
    {
      this.connect := connect;
      this.storage := storage;
    }

    /**
     * One iteration of `load`: `failAt` is the first call that raises
     * ConnectionError (the probe step `Ping` included), `rejected` the
     * documents Elasticsearch refuses.
     */
    method Load(docs: seq<Document>, lastUpdate: Timestamp, failAt: Option<Step>, rejected: set<DocKey>) returns (out: LoadOutcome)
      modifies connect, storage
      ensures LoadEffect(out, connect.indices, connect.documents, storage.Stored()) ==
        LoadStep(old(connect.indices), old(connect.documents), old(storage.Stored()), docs, lastUpdate, failAt, rejected)
      ensures out.Loaded? ==> storage.server == old(storage.server)[R_HASH := storage.Stored()]
      ensures !out.Loaded? ==> storage.server == old(storage.server)
    {
      var ready := PrepareIndices(failAt);
      if !ready || failAt == Some(Bulk) {
        return ConnectionFailed;
      }
      var success, errors := connect.BulkIndex(docs, rejected);
      if |errors| > 0 {
        return BulkFailed(errors);
      }
      storage.SaveState(Committed(lastUpdate));
      return Loaded(success);
    }

    /** The start of the `try` block: the ping, then each index checked and created when missing. */
    method PrepareIndices(failAt: Option<Step>) returns (ready: bool)
      modifies connect
      ensures ready == PreparedIndices(old(connect.indices), failAt).Some?
      ensures ready ==> connect.indices == PreparedIndices(old(connect.indices), failAt).value
      ensures !ready ==> connect.indices == IndicesAtFailure(old(connect.indices), failAt)
      ensures connect.documents == old(connect.documents)
    {
      if failAt == Some(Ping) || failAt == Some(GenreExists) {
        return false;
      }
      if "genre" !in connect.indices {
        if failAt == Some(CreateGenre) {
          return false;
        }
        connect.CreateIndex("genre");
      }
      if failAt == Some(PersonExists) {
        return false;
      }
      if "person" !in connect.indices {
        if failAt == Some(CreatePerson) {
          return false;
        }
        connect.CreateIndex("person");
      }
      return true;
    }
  }
}
