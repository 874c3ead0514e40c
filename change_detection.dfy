/**
 * The temporary table `tmp_last_updated_films` of SQL_scripts.py: the three
 * change-detection inserts, the tie-inclusive cutoff over it and the delete
 * that prunes it to the batch.
 */
module ChangeDetection {
  import opened Timestamps
  import opened SourceDb
  import Seqs
  import FetchFirst

  /** `changed_parameter`: why a film is in the table. */
  datatype Reason = ChangeGenre | ChangePerson | ChangeFilm

  /** A row of `tmp_last_updated_films (film_id, changed_parameter, last_update)`. */
  datatype Row = Row(filmId: Id, changedParameter: Reason, lastUpdate: Timestamp)

  function LastUpdateOf(r: Row): int
  {
    r.lastUpdate
  }

  /** The table's UNIQUE (film_id, last_update) key. */
  function Key(r: Row): (Id, Timestamp)
  {
    (r.filmId, r.lastUpdate)
  }

  function Keys(t: seq<Row>): set<(Id, Timestamp)>
  {
    set r | r in t :: Key(r)
  }

  predicate UniqueKeys(t: seq<Row>)
  {
    forall i, j :: 0 <= i < j < |t| ==> Key(t[i]) != Key(t[j])
  }

  ghost predicate GenreChangeRow(db: Db, cursor: Timestamp, r: Row)
  {
    exists fw, gfw, g :: fw in db.film && gfw in db.filmGenre && g in db.genre
      && fw.id == gfw.filmId && gfw.genreId == g.id && g.updatedAt > cursor
      && r == Row(fw.id, ChangeGenre, g.updatedAt)
  }

  ghost predicate PersonChangeRow(db: Db, cursor: Timestamp, r: Row)
  {
    exists fw, pfw, p :: fw in db.film && pfw in db.filmPerson && p in db.person
      && fw.id == pfw.filmId && pfw.personId == p.id && p.updatedAt > cursor
      && r == Row(fw.id, ChangePerson, p.updatedAt)
  }

  /** The SELECT of FIND_UPDATED_GENRES: one row per film and genre changed after the cursor. */
  function GenreChanges(db: Db, cursor: Timestamp): (rows: seq<Row>)
    ensures forall r :: r in rows <==> GenreChangeRow(db, cursor, r)
  {
    Seqs.FlatMap(db.film, (fw: Film) =>
      Seqs.FlatMap(Seqs.Filter(db.filmGenre, (gfw: FilmGenre) => fw.id == gfw.filmId), (gfw: FilmGenre) =>
        Seqs.Map(Seqs.Filter(db.genre, (g: Genre) => gfw.genreId == g.id && g.updatedAt > cursor),
                 (g: Genre) => Row(fw.id, ChangeGenre, g.updatedAt))))
  }

  /** The SELECT of FIND_UPDATED_PERSONS: one row per film and person changed after the cursor. */
  function PersonChanges(db: Db, cursor: Timestamp): (rows: seq<Row>)
    ensures forall r :: r in rows <==> PersonChangeRow(db, cursor, r)
  {
    Seqs.FlatMap(db.film, (fw: Film) =>
      Seqs.FlatMap(Seqs.Filter(db.filmPerson, (pfw: FilmPerson) => fw.id == pfw.filmId), (pfw: FilmPerson) =>
        Seqs.Map(Seqs.Filter(db.person, (p: Person) => pfw.personId == p.id && p.updatedAt > cursor),
                 (p: Person) => Row(fw.id, ChangePerson, p.updatedAt))))
  }

  /** The SELECT of FIND_UPDATED_FILMS: one row per film changed after the cursor. */
  function FilmChanges(db: Db, cursor: Timestamp): (rows: seq<Row>)
    ensures forall r :: r in rows <==> exists fw :: fw in db.film && fw.updatedAt > cursor && r == Row(fw.id, ChangeFilm, fw.updatedAt)
  {
    Seqs.Map(Seqs.Filter(db.film, (fw: Film) => fw.updatedAt > cursor), (fw: Film) => Row(fw.id, ChangeFilm, fw.updatedAt))
  }

  lemma KeysAppend(t: seq<Row>, x: Row)
    ensures Keys(t + [x]) == Keys(t) + {Key(x)}
  {
    assert forall r :: r in t + [x] <==> r in t || r == x;
  }

  lemma KeysCons(rows: seq<Row>)
    requires |rows| > 0
    ensures Keys(rows) == {Key(rows[0])} + Keys(rows[1..])
  {
    assert forall r :: r in rows <==> r == rows[0] || r in rows[1..];
  }

  /** One row of INSERT ... ON CONFLICT (film_id, last_update) DO NOTHING. */
  function InsertRow(table: seq<Row>, x: Row): (t: seq<Row>)
    ensures t == table || t == table + [x]
    ensures Keys(t) == Keys(table) + {Key(x)}
    ensures forall y :: y in t ==> y in table || (y == x && Key(x) !in Keys(table))
    ensures UniqueKeys(table) ==> UniqueKeys(t)
  {
    KeysAppend(table, x);
    if Key(x) in Keys(table) then table
    else
      assert UniqueKeys(table) ==> UniqueKeys(table + [x]) by {
        if UniqueKeys(table) {
          forall i, j | 0 <= i < j < |table| + 1 ensures Key((table + [x])[i]) != Key((table + [x])[j]) {
            if j == |table| {
              assert (table + [x])[i] in table;
            }
          }
        }
      }
      table + [x]
  }

  lemma InsertStep(table: seq<Row>, rows: seq<Row>, t: seq<Row>, r: seq<Row>)
    requires |rows| > 0 && t == InsertRow(table, rows[0])
    requires InsertedFrom(t, rows[1..], r)
    ensures InsertedFrom(table, rows, r)
  {
    KeysCons(rows);
    forall x | x in r ensures x in table || (x in rows && Key(x) !in Keys(table)) {
      if x !in t {
        assert x in rows[1..];
      }
    }
  }

  /**
   * INSERT ... ON CONFLICT (film_id, last_update) DO NOTHING: rows are added in
   * order, each one only when its key is not yet in the table.
   */
  function InsertOnConflictDoNothing(table: seq<Row>, rows: seq<Row>): (r: seq<Row>)
    ensures |table| <= |r| && r[..|table|] == table
    decreases |rows|
  {
    if |rows| == 0 then table
    else
      var t := InsertRow(table, rows[0]);
      var r := InsertOnConflictDoNothing(t, rows[1..]);
      assert r[..|table|] == r[..|t|][..|table|];
      r
  }

  /** What one INSERT ... ON CONFLICT DO NOTHING leaves: the rows before it, and new rows with new keys. */
  predicate InsertedFrom(table: seq<Row>, rows: seq<Row>, r: seq<Row>)
  {
    && Keys(r) == Keys(table) + Keys(rows)
    && (UniqueKeys(table) ==> UniqueKeys(r))
    && forall x :: x in r ==> x in table || (x in rows && Key(x) !in Keys(table))
  }

  /** The insert adds exactly the keys of the new rows, keeps keys unique, and adds a row only under a new key. */
  lemma {:induction false} Inserted(table: seq<Row>, rows: seq<Row>)
    ensures InsertedFrom(table, rows, InsertOnConflictDoNothing(table, rows))
    decreases |rows|
  {
    if |rows| == 0 {
      assert Keys(rows) == {};
    } else {
      var t := InsertRow(table, rows[0]);
      Inserted(t, rows[1..]);
      InsertStep(table, rows, t, InsertOnConflictDoNothing(t, rows[1..]));
    }
  }

  /** A row whose key is already present leaves the table unchanged: the first-inserted row keeps its reason. */
  lemma InsertExistingKeyIsNoOp(table: seq<Row>, row: Row)
    requires Key(row) in Keys(table)
    ensures InsertOnConflictDoNothing(table, [row]) == table
  {
  }

  /** Whatever is inserted later, a row already in a table with unique keys is the only row with its key. */
  lemma FirstInsertWins(table: seq<Row>, rows: seq<Row>, x: Row, y: Row)
    requires UniqueKeys(table) && x in table
    requires y in InsertOnConflictDoNothing(table, rows) && Key(y) == Key(x)
    ensures y == x
  {
    var r := InsertOnConflictDoNothing(table, rows);
    Inserted(table, rows);
    var i :| 0 <= i < |table| && table[i] == x;
    var j :| 0 <= j < |r| && r[j] == y;
    assert r[i] == x;
    assert Key(r[i]) == Key(r[j]);
  }

  /** The table after FIND_UPDATED_GENRES, FIND_UPDATED_PERSONS and FIND_UPDATED_FILMS, in that order. */
  function DetectedChanges(db: Db, cursor: Timestamp): seq<Row>
  {
    var afterGenres := InsertOnConflictDoNothing([], GenreChanges(db, cursor));
    var afterPersons := InsertOnConflictDoNothing(afterGenres, PersonChanges(db, cursor));
    InsertOnConflictDoNothing(afterPersons, FilmChanges(db, cursor))
  }

  /** The reason a key ends up with when genre, person and film rows are inserted in that order: genre beats person beats film. */
  function FirstReason(g: seq<Row>, p: seq<Row>, k: (Id, Timestamp)): Reason
  {
    if k in Keys(g) then ChangeGenre else if k in Keys(p) then ChangePerson else ChangeFilm
  }

  /** Three inserts in a row into an empty table keep the first reason given for each key. */
  lemma InsertedThrice(g: seq<Row>, p: seq<Row>, f: seq<Row>, cursor: Timestamp, t1: seq<Row>, t2: seq<Row>, t: seq<Row>)
    requires forall r :: r in g ==> r.changedParameter == ChangeGenre && r.lastUpdate > cursor
    requires forall r :: r in p ==> r.changedParameter == ChangePerson && r.lastUpdate > cursor
    requires forall r :: r in f ==> r.changedParameter == ChangeFilm && r.lastUpdate > cursor
    requires InsertedFrom([], g, t1) && InsertedFrom(t1, p, t2) && InsertedFrom(t2, f, t)
    ensures UniqueKeys(t) && Keys(t) == Keys(g) + Keys(p) + Keys(f)
    ensures forall r :: r in t ==> r.lastUpdate > cursor && r.changedParameter == FirstReason(g, p, Key(r))
  {
    assert UniqueKeys([]);
    assert Keys([]) == {};
    forall r | r in t
      ensures r.lastUpdate > cursor && r.changedParameter == FirstReason(g, p, Key(r))
    {
      if r in t2 {
        if r in t1 {
          assert Key(r) in Keys(g);
        }
      }
    }
  }

  /**
   * Change detection: the table is the three inserts into an empty table, its
   * keys are exactly those of the three selects, each appears once, every row
   * changed strictly after the cursor, and each key carries the reason of the
   * first insert that produced it.
   */
  lemma DetectedChangesSpec(db: Db, cursor: Timestamp)
    ensures var g, p, f := GenreChanges(db, cursor), PersonChanges(db, cursor), FilmChanges(db, cursor);
      var t := DetectedChanges(db, cursor);
      && t == InsertOnConflictDoNothing(InsertOnConflictDoNothing(InsertOnConflictDoNothing([], g), p), f)
      && UniqueKeys(t)
      && Keys(t) == Keys(g) + Keys(p) + Keys(f)
      && (forall r :: r in t ==> r.lastUpdate > cursor && r.changedParameter == FirstReason(g, p, Key(r)))
  {
    GenreRows(db, cursor);
    PersonRows(db, cursor);
    FilmRows(db, cursor);
    var g, p, f := GenreChanges(db, cursor), PersonChanges(db, cursor), FilmChanges(db, cursor);
    var t1 := InsertOnConflictDoNothing([], g);
    var t2 := InsertOnConflictDoNothing(t1, p);
    Inserted([], g);
    Inserted(t1, p);
    Inserted(t2, f);
    InsertedThrice(g, p, f, cursor, t1, t2, InsertOnConflictDoNothing(t2, f));
  }

  lemma GenreRows(db: Db, cursor: Timestamp)
    ensures forall r :: r in GenreChanges(db, cursor) ==> r.changedParameter == ChangeGenre && r.lastUpdate > cursor
  {
    forall r | r in GenreChanges(db, cursor) ensures r.changedParameter == ChangeGenre && r.lastUpdate > cursor {
      assert GenreChangeRow(db, cursor, r);
    }
  }

  lemma FilmRows(db: Db, cursor: Timestamp)
    ensures forall r :: r in FilmChanges(db, cursor) ==> r.changedParameter == ChangeFilm && r.lastUpdate > cursor
  {
    forall r | r in FilmChanges(db, cursor) ensures r.changedParameter == ChangeFilm && r.lastUpdate > cursor {
      var fw :| fw in db.film && fw.updatedAt > cursor && r == Row(fw.id, ChangeFilm, fw.updatedAt);
    }
  }

  lemma PersonRows(db: Db, cursor: Timestamp)
    ensures forall r :: r in PersonChanges(db, cursor) ==> r.changedParameter == ChangePerson && r.lastUpdate > cursor
  {
    forall r | r in PersonChanges(db, cursor) ensures r.changedParameter == ChangePerson && r.lastUpdate > cursor {
      assert PersonChangeRow(db, cursor, r);
    }
  }

  /** The rows the subquery of CLEAR_DATA_OVER_LIMIT selects: the table ordered by last_update, first `limit` with ties. */
  function CutoffRows(table: seq<Row>, limit: nat): seq<Row>
  {
    FetchFirst.FetchFirstOrdered(table, LastUpdateOf, limit)
  }

  /**
   * CLEAR_DATA_OVER_LIMIT as written: deletes every row whose film_id does not
   * occur among the cutoff rows, so later rows of a cutoff film survive.
   */
  function ClearDataOverLimit(table: seq<Row>, limit: nat): (r: seq<Row>)
    ensures forall x :: x in r <==> x in table && exists y :: y in CutoffRows(table, limit) && y.filmId == x.filmId
    ensures forall x :: x in CutoffRows(table, limit) ==> x in r
  {
    var kept := CutoffRows(table, limit);
    var ids := set y | y in kept :: y.filmId;
    Seqs.Filter(table, (x: Row) => x.filmId in ids)
  }

  /**
   * CLEAR_DATA_OVER_LIMIT keyed on (film_id, last_update): deletes every row
   * that is not itself a cutoff row.
   */
  function ClearDataBeyondCutoff(table: seq<Row>, limit: nat): (r: seq<Row>)
    requires UniqueKeys(table)
    ensures forall x :: x in r <==> x in CutoffRows(table, limit)
  {
    var kept := CutoffRows(table, limit);
    var keys := Keys(kept);
    forall x | x in table && Key(x) in keys ensures x in kept {
      var y :| y in kept && Key(y) == Key(x);
      var i :| 0 <= i < |table| && table[i] == x;
      var j :| 0 <= j < |table| && table[j] == y;
      assert i == j;
    }
    Seqs.Filter(table, (x: Row) => Key(x) in keys)
  }

  /** After the keyed delete, every row of the table no later than a kept row is kept: the batch has no gap. */
  lemma ClearBeyondCutoffNoGap(table: seq<Row>, limit: nat, x: Row, y: Row)
    requires UniqueKeys(table)
    requires x in table && y in ClearDataBeyondCutoff(table, limit)
    requires x.lastUpdate <= y.lastUpdate
    ensures x in ClearDataBeyondCutoff(table, limit)
  {
    FetchFirst.FetchFirstOrderedClosed(table, LastUpdateOf, limit, x, y);
  }

  /**
   * The delete by film_id can leave a row later than a row it removes: with a
   * limit of 1, film A changed at t1 < t3 and another film B at t2 between
   * them, A@t3 survives and B@t2 does not, so a cursor taken from the batch
   * passes B@t2.
   */
  lemma ClearByFilmIdLeavesGap(a1: Row, b2: Row, a3: Row)
    requires a1.filmId == a3.filmId && b2.filmId != a1.filmId
    requires a1.lastUpdate < b2.lastUpdate < a3.lastUpdate
    ensures var cleared := ClearDataOverLimit([a1, b2, a3], 1);
      && a3 in cleared
      && b2 !in cleared
  {
    var table := [a1, b2, a3];
    EarliestRowKept(table);
    ClearDataOverLimitKeeps(table, 1, a1, a3);
    ClearDataOverLimitDrops(table);
  }

  /** With a limit of 1, the earliest of three rows is a cutoff row and the middle one is not. */
  lemma EarliestRowKept(table: seq<Row>)
    requires |table| == 3 && table[0].lastUpdate < table[1].lastUpdate < table[2].lastUpdate
    ensures table[0] in CutoffRows(table, 1)
    ensures table[1] !in CutoffRows(table, 1)
  {
    FirstRowKept(table);
    if table[1] in CutoffRows(table, 1) {
      FetchFirst.FetchFirstOrderedBelow(table, LastUpdateOf, 1, table[1]);
      EarlierRowCounted(table);
      assert false;
    }
  }

  lemma FirstRowKept(table: seq<Row>)
    requires |table| == 3 && table[0].lastUpdate < table[1].lastUpdate < table[2].lastUpdate
    ensures table[0] in CutoffRows(table, 1)
  {
    var cut := CutoffRows(table, 1);
    var y := cut[0];
    assert y in table;
    assert y == table[0] || y == table[1] || y == table[2];
    assert table[0] in table;
    FetchFirst.FetchFirstOrderedClosed(table, LastUpdateOf, 1, table[0], y);
  }

  lemma EarlierRowCounted(table: seq<Row>)
    requires |table| == 3 && table[0].lastUpdate < table[1].lastUpdate
    ensures |FetchFirst.AtMost(table, LastUpdateOf, table[1].lastUpdate - 1)| >= 1
  {
    var below := FetchFirst.AtMost(table, LastUpdateOf, table[1].lastUpdate - 1);
    FetchFirst.AtMostCount(table, LastUpdateOf, table[1].lastUpdate - 1, table[0]);
    assert multiset(table)[table[0]] >= 1;
    assert multiset(below)[table[0]] >= 1;
    assert table[0] in below;
  }

  lemma ClearDataOverLimitKeeps(table: seq<Row>, limit: nat, y: Row, x: Row)
    requires y in CutoffRows(table, limit) && x in table && x.filmId == y.filmId
    ensures x in ClearDataOverLimit(table, limit)
  {
  }

  lemma ClearDataOverLimitDrops(table: seq<Row>)
    requires |table| == 3 && table[1].filmId != table[0].filmId && table[2].filmId == table[0].filmId
    requires table[1] !in CutoffRows(table, 1)
    ensures table[1] !in ClearDataOverLimit(table, 1)
  {
    var cut := CutoffRows(table, 1);
    forall y | y in cut ensures y.filmId != table[1].filmId {
      assert y in table;
      var i :| 0 <= i < |table| && table[i] == y;
    }
    NoCutoffFilmDropped(table, 1, table[1]);
  }

  lemma NoCutoffFilmDropped(table: seq<Row>, limit: nat, x: Row)
    requires forall y :: y in CutoffRows(table, limit) ==> y.filmId != x.filmId
    ensures x !in ClearDataOverLimit(table, limit)
  {
  }
}
