/**
 * The queries that turn the pruned change table into the extractor's batch:
 * the aggregate tables tmp_film_genres and tmp_film_persons (each with its
 * own FETCH FIRST ... WITH TIES), GET_UPDATED_FILMS_INFO, GET_UPDATED_GENRES_INFO
 * and GET_UPDATED_PERSONS_INFO of SQL_scripts.py.
 */
module BatchQueries {
  import opened Wrappers
  import opened Timestamps
  import opened SourceDb
  import opened ChangeDetection
  import Seqs
  import FetchFirst
  import Text

  /** One record of `jsonify_persons`, taken as already parsed. */
  datatype PersonEntry = PersonEntry(id: Id, name: string, role: string)

  /** A row of tmp_film_genres: the film and its genre names joined by ','. */
  datatype GenreGroup = GenreGroup(filmId: Id, genre: string)

  /** A row of tmp_film_persons. */
  datatype PersonGroup = PersonGroup(filmId: Id, rating: Option<real>, title: string, description: Option<string>, persons: seq<PersonEntry>)

  /** A row of GET_UPDATED_FILMS_INFO. */
  datatype FilmInfoRow = FilmInfoRow(
    filmId: Id,
    title: string,
    description: Option<string>,
    rating: Option<real>,
    genre: string,
    persons: seq<PersonEntry>,
    lastUpdate: Timestamp)

  /**
   * A row of GET_UPDATED_GENRES_INFO as the transformer reads it: `genreFilms`
   * is the `genre_films` column, `None` when the query does not select it.
   */
  datatype GenreInfoRow = GenreInfoRow(genreId: Id, genreName: string, genreDescription: Option<string>, genreFilms: Option<string>)

  /** A row of GET_UPDATED_PERSONS_INFO; `personFilms` is the ', '-joined film ids. */
  datatype PersonInfoRow = PersonInfoRow(personId: Id, fullName: string, role: string, personFilms: string)

  /** What the extractor hands to the transformer: `(persons, genres, films)`. */
  datatype Batch = Batch(persons: seq<PersonInfoRow>, genres: seq<GenreInfoRow>, films: seq<FilmInfoRow>)

  /** A group row paired with the `tuf.last_update` it is ordered by. */
  datatype Timed<T> = Timed(lastUpdate: Timestamp, row: T)

  function TimeOf<T>(t: Timed<T>): int
  {
    t.lastUpdate
  }

  /** The group row without its ordering column: the SELECT list of the tmp table. */
  function RowOf<T>(t: Timed<T>): T
  {
    t.row
  }

  /**
   * The FETCH FIRST `limit` ROWS WITH TIES cut of a tmp table, on its group
   * rows: the kept rows are the `.row` image of the fetch-first groups, a group
   * no later than a kept one is kept, fewer than `limit` groups are strictly
   * earlier than a kept one, and with `limit` at least the number of groups all
   * of them are kept.
   */
  lemma GroupCut<T(!new)>(groups: seq<Timed<T>>, limit: nat, r: seq<T>)
    requires r == Seqs.Map(FetchFirst.FetchFirstOrdered(groups, TimeOf, limit), RowOf)
    ensures forall x, y :: x in groups && y in FetchFirst.FetchFirstOrdered(groups, TimeOf, limit) && x.lastUpdate <= y.lastUpdate ==> x.row in r
    ensures forall y :: y in FetchFirst.FetchFirstOrdered(groups, TimeOf, limit) ==> |FetchFirst.AtMost(groups, TimeOf, y.lastUpdate - 1)| < limit
    ensures limit >= |groups| ==> |r| == |groups| && forall x :: x in groups ==> x.row in r
  {
    var kept := FetchFirst.FetchFirstOrdered(groups, TimeOf, limit);
    GroupCutClosed(groups, limit, kept, r);
    GroupCutBelow(groups, limit, kept);
    if limit >= |groups| {
      GroupCutAll(groups, limit, kept, r);
    }
  }

  lemma GroupCutClosed<T(!new)>(groups: seq<Timed<T>>, limit: nat, kept: seq<Timed<T>>, r: seq<T>)
    requires kept == FetchFirst.FetchFirstOrdered(groups, TimeOf, limit) && r == Seqs.Map(kept, RowOf)
    ensures forall x, y :: x in groups && y in kept && x.lastUpdate <= y.lastUpdate ==> x.row in r
  {
    forall x, y | x in groups && y in kept && x.lastUpdate <= y.lastUpdate ensures x.row in r {
      FetchFirst.FetchFirstOrderedClosed(groups, TimeOf, limit, x, y);
      RowKept(kept, r, x);
    }
  }

  lemma GroupCutBelow<T(!new)>(groups: seq<Timed<T>>, limit: nat, kept: seq<Timed<T>>)
    requires kept == FetchFirst.FetchFirstOrdered(groups, TimeOf, limit)
    ensures forall y :: y in kept ==> |FetchFirst.AtMost(groups, TimeOf, y.lastUpdate - 1)| < limit
  {
    forall y | y in kept ensures |FetchFirst.AtMost(groups, TimeOf, y.lastUpdate - 1)| < limit {
      FetchFirst.FetchFirstOrderedBelow(groups, TimeOf, limit, y);
    }
  }

  lemma GroupCutAll<T(!new)>(groups: seq<Timed<T>>, limit: nat, kept: seq<Timed<T>>, r: seq<T>)
    requires kept == FetchFirst.FetchFirstOrdered(groups, TimeOf, limit) && r == Seqs.Map(kept, RowOf)
    requires limit >= |groups|
    ensures |r| == |groups| && forall x :: x in groups ==> x.row in r
  {
    assert multiset(kept) == multiset(groups);
    assert |kept| == |groups| by {
      assert |multiset(kept)| == |kept| && |multiset(groups)| == |groups|;
    }
    forall x | x in groups ensures x.row in r {
      assert x in multiset(groups);
      RowKept(kept, r, x);
    }
  }

  lemma RowKept<T(!new)>(kept: seq<Timed<T>>, r: seq<T>, x: Timed<T>)
    requires r == Seqs.Map(kept, RowOf) && x in kept
    ensures x.row in r
  {
    var i :| 0 <= i < |kept| && kept[i] == x;
    assert r[i] == x.row;
  }

  // ---------------------------------------------------------------- tmp_film_genres

  /** The names of the genres of one film, one per film_genre link. */
  function FilmGenreNames(db: Db, filmId: Id): (names: seq<string>)
    ensures forall n :: n in names <==>
      exists gfw, g :: gfw in db.filmGenre && g in db.genre && gfw.filmId == filmId && gfw.genreId == g.id && n == g.name
  {
    Seqs.FlatMap(Seqs.Filter(db.filmGenre, (gfw: FilmGenre) => gfw.filmId == filmId), (gfw: FilmGenre) =>
      Seqs.Map(Seqs.Filter(db.genre, (g: Genre) => g.id == gfw.genreId), (g: Genre) => g.name))
  }

  /** The groups of CREATE_TMP_FILM_GENRES before the cutoff: one per change row whose film has a genre. */
  function GenreGroupsTimed(db: Db, table: seq<Row>): (groups: seq<Timed<GenreGroup>>)
    ensures forall x :: x in groups <==>
      exists t :: t in table && |FilmGenreNames(db, t.filmId)| > 0
        && x == Timed(t.lastUpdate, GenreGroup(t.filmId, Text.Join(FilmGenreNames(db, t.filmId), ",")))
  {
    Seqs.FlatMap(table, (t: Row) =>
      var names := FilmGenreNames(db, t.filmId);
      if |names| == 0 then [] else [Timed(t.lastUpdate, GenreGroup(t.filmId, Text.Join(names, ",")))])
  }

  /** CREATE_TMP_FILM_GENRES: the groups, ordered by last_update, first `limit` with ties. */
  function TmpFilmGenres(db: Db, table: seq<Row>, limit: nat): (r: seq<GenreGroup>)
    ensures forall g :: g in r ==> |FilmGenreNames(db, g.filmId)| > 0 && g.genre == Text.Join(FilmGenreNames(db, g.filmId), ",")
  {
    var kept := FetchFirst.FetchFirstOrdered(GenreGroupsTimed(db, table), TimeOf, limit);
    Seqs.Map(kept, RowOf)
  }

  /** The cut of CREATE_TMP_FILM_GENRES, stated on the film-genre groups of the change table. */
  lemma TmpFilmGenresCut(db: Db, table: seq<Row>, limit: nat)
    ensures var groups := GenreGroupsTimed(db, table);
      var kept := FetchFirst.FetchFirstOrdered(groups, TimeOf, limit);
      var r := TmpFilmGenres(db, table, limit);
      && r == Seqs.Map(kept, RowOf)
      && (forall x, y :: x in groups && y in kept && x.lastUpdate <= y.lastUpdate ==> x.row in r)
      && (forall y :: y in kept ==> |FetchFirst.AtMost(groups, TimeOf, y.lastUpdate - 1)| < limit)
      && (limit >= |groups| ==> |r| == |groups| && forall x :: x in groups ==> x.row in r)
  {
    GroupCut(GenreGroupsTimed(db, table), limit, TmpFilmGenres(db, table, limit));
  }

  // ---------------------------------------------------------------- tmp_film_persons

  /** The persons of one film with their roles, one per film_person link. */
  function PersonEntries(db: Db, filmId: Id): (entries: seq<PersonEntry>)
    ensures forall e :: e in entries <==>
      exists pfw, p :: pfw in db.filmPerson && p in db.person && pfw.filmId == filmId && pfw.personId == p.id
        && e == PersonEntry(p.id, p.fullName, pfw.role)
  {
    Seqs.FlatMap(Seqs.Filter(db.filmPerson, (pfw: FilmPerson) => pfw.filmId == filmId), (pfw: FilmPerson) =>
      Seqs.Map(Seqs.Filter(db.person, (p: Person) => p.id == pfw.personId), (p: Person) => PersonEntry(p.id, p.fullName, pfw.role)))
  }

  function PersonGroupOf(db: Db, fw: Film): PersonGroup
  {
    PersonGroup(fw.id, fw.rating, fw.title, fw.description, PersonEntries(db, fw.id))
  }

  /** The groups of CREATE_TMP_FILM_PERSONS before the cutoff: one per change row and film having a person. */
  function PersonGroupsTimed(db: Db, table: seq<Row>): (groups: seq<Timed<PersonGroup>>)
    ensures forall x :: x in groups <==>
      exists t, fw :: t in table && fw in db.film && fw.id == t.filmId && |PersonEntries(db, fw.id)| > 0
        && x == Timed(t.lastUpdate, PersonGroupOf(db, fw))
  {
    Seqs.FlatMap(table, (t: Row) =>
      Seqs.FlatMap(Seqs.Filter(db.film, (fw: Film) => fw.id == t.filmId), (fw: Film) =>
        if |PersonEntries(db, fw.id)| == 0 then [] else [Timed(t.lastUpdate, PersonGroupOf(db, fw))]))
  }

  /** CREATE_TMP_FILM_PERSONS: the groups, ordered by last_update, first `limit` with ties. */
  function TmpFilmPersons(db: Db, table: seq<Row>, limit: nat): (r: seq<PersonGroup>)
    ensures forall p :: p in r ==> exists fw :: fw in db.film && p == PersonGroupOf(db, fw) && |p.persons| > 0
  {
    var kept := FetchFirst.FetchFirstOrdered(PersonGroupsTimed(db, table), TimeOf, limit);
    Seqs.Map(kept, RowOf)
  }

  /** The cut of CREATE_TMP_FILM_PERSONS, stated on the film-person groups of the change table. */
  lemma TmpFilmPersonsCut(db: Db, table: seq<Row>, limit: nat)
    ensures var groups := PersonGroupsTimed(db, table);
      var kept := FetchFirst.FetchFirstOrdered(groups, TimeOf, limit);
      var r := TmpFilmPersons(db, table, limit);
      && r == Seqs.Map(kept, RowOf)
      && (forall x, y :: x in groups && y in kept && x.lastUpdate <= y.lastUpdate ==> x.row in r)
      && (forall y :: y in kept ==> |FetchFirst.AtMost(groups, TimeOf, y.lastUpdate - 1)| < limit)
      && (limit >= |groups| ==> |r| == |groups| && forall x :: x in groups ==> x.row in r)
  {
    GroupCut(PersonGroupsTimed(db, table), limit, TmpFilmPersons(db, table, limit));
  }

  // ---------------------------------------------------------------- GET_UPDATED_FILMS_INFO

  /** The inner join of GET_UPDATED_FILMS_INFO, row by row. */
  ghost predicate FilmInfoJoin(db: Db, cleared: seq<Row>, tfg: seq<GenreGroup>, tfp: seq<PersonGroup>, x: FilmInfoRow)
  {
    exists t, fw, g, p :: t in cleared && fw in db.film && g in tfg && p in tfp
      && fw.id == t.filmId && g.filmId == t.filmId && p.filmId == g.filmId
      && x == FilmInfoRow(t.filmId, fw.title, fw.description, p.rating, g.genre, p.persons, t.lastUpdate)
  }

  function FilmInfoTime(x: FilmInfoRow): int
  {
    x.lastUpdate
  }

  /** What one change row, film and genre group contribute: one row per person group of the film. */
  function GroupJoin(t: Row, fw: Film, g: GenreGroup, tfp: seq<PersonGroup>): (rows: seq<FilmInfoRow>)
    ensures forall x :: x in rows <==>
      exists p :: p in tfp && p.filmId == g.filmId
        && x == FilmInfoRow(t.filmId, fw.title, fw.description, p.rating, g.genre, p.persons, t.lastUpdate)
  {
    Seqs.Map(Seqs.Filter(tfp, (p: PersonGroup) => p.filmId == g.filmId), (p: PersonGroup) =>
      FilmInfoRow(t.filmId, fw.title, fw.description, p.rating, g.genre, p.persons, t.lastUpdate))
  }

  /** What one change row and film contribute: the genre groups of the film, each joined with the person groups. */
  function FilmJoin(t: Row, fw: Film, tfg: seq<GenreGroup>, tfp: seq<PersonGroup>): (rows: seq<FilmInfoRow>)
    ensures forall x :: x in rows <==>
      exists g, p :: g in tfg && p in tfp && g.filmId == t.filmId && p.filmId == g.filmId
        && x == FilmInfoRow(t.filmId, fw.title, fw.description, p.rating, g.genre, p.persons, t.lastUpdate)
  {
    Seqs.FlatMap(Seqs.Filter(tfg, (g: GenreGroup) => g.filmId == t.filmId), (g: GenreGroup) => GroupJoin(t, fw, g, tfp))
  }

  /** What one change row contributes: its film, joined with its genre and person groups. */
  function ChangeJoin(db: Db, t: Row, tfg: seq<GenreGroup>, tfp: seq<PersonGroup>): (rows: seq<FilmInfoRow>)
    ensures forall x :: x in rows <==>
      exists fw, g, p :: fw in db.film && g in tfg && p in tfp
        && fw.id == t.filmId && g.filmId == t.filmId && p.filmId == g.filmId
        && x == FilmInfoRow(t.filmId, fw.title, fw.description, p.rating, g.genre, p.persons, t.lastUpdate)
  {
    Seqs.FlatMap(Seqs.Filter(db.film, (fw: Film) => fw.id == t.filmId), (fw: Film) => FilmJoin(t, fw, tfg, tfp))
  }

  function JoinedFilmRows(db: Db, cleared: seq<Row>, tfg: seq<GenreGroup>, tfp: seq<PersonGroup>): (rows: seq<FilmInfoRow>)
    ensures forall x :: x in rows <==> FilmInfoJoin(db, cleared, tfg, tfp, x)
  {
    Seqs.FlatMap(cleared, (t: Row) => ChangeJoin(db, t, tfg, tfp))
  }

  /**
   * GET_UPDATED_FILMS_INFO: the join, ascending by last_update. A change row
   * yields film rows only if its film has both a genre group and a person group.
   */
  function UpdatedFilmsInfo(db: Db, cleared: seq<Row>, tfg: seq<GenreGroup>, tfp: seq<PersonGroup>): (r: seq<FilmInfoRow>)
    ensures FetchFirst.SortedBy(r, FilmInfoTime)
    ensures multiset(r) == multiset(JoinedFilmRows(db, cleared, tfg, tfp))
    ensures forall x :: x in r <==> FilmInfoJoin(db, cleared, tfg, tfp, x)
  {
    var rows := JoinedFilmRows(db, cleared, tfg, tfp);
    var r := FetchFirst.SortBy(rows, FilmInfoTime);
    assert forall x :: x in r <==> x in multiset(r);
    assert forall x :: x in rows <==> x in multiset(rows);
    r
  }

  /** Every film row stems from a change row: same film, same last_update. */
  lemma FilmInfoFromChangeRow(db: Db, cleared: seq<Row>, tfg: seq<GenreGroup>, tfp: seq<PersonGroup>, x: FilmInfoRow)
    requires x in UpdatedFilmsInfo(db, cleared, tfg, tfp)
    ensures Key(Row(x.filmId, ChangeFilm, x.lastUpdate)) in Keys(cleared)
  {
    assert FilmInfoJoin(db, cleared, tfg, tfp, x);
    JoinedFromChangeRow(db, cleared, tfg, tfp, x);
  }

  lemma JoinedFromChangeRow(db: Db, cleared: seq<Row>, tfg: seq<GenreGroup>, tfp: seq<PersonGroup>, x: FilmInfoRow)
    requires FilmInfoJoin(db, cleared, tfg, tfp, x)
    ensures Key(Row(x.filmId, ChangeFilm, x.lastUpdate)) in Keys(cleared)
  {
    var t, fw, g, p :| t in cleared && fw in db.film && g in tfg && p in tfp
      && fw.id == t.filmId && g.filmId == t.filmId && p.filmId == g.filmId
      && x == FilmInfoRow(t.filmId, fw.title, fw.description, p.rating, g.genre, p.persons, t.lastUpdate);
    assert Key(Row(x.filmId, ChangeFilm, x.lastUpdate)) == Key(t);
    assert Key(t) in Keys(cleared);
  }

  /** The last film row carries the largest last_update of the batch. */
  lemma LastFilmRowIsLatest(films: seq<FilmInfoRow>, i: nat)
    requires FetchFirst.SortedBy(films, FilmInfoTime) && i < |films|
    ensures films[i].lastUpdate <= films[|films| - 1].lastUpdate
  {
    assert FilmInfoTime(films[i]) <= FilmInfoTime(films[|films| - 1]);
  }

  // ---------------------------------------------------------------- GET_UPDATED_GENRES_INFO

  /** The genres of the films changed because of a genre, one per film_genre link. */
  function ChangedGenreEntries(db: Db, cleared: seq<Row>): (gs: seq<Genre>)
    ensures forall g :: g in gs <==>
      exists t, gfw :: t in cleared && t.changedParameter == ChangeGenre && gfw in db.filmGenre
        && gfw.filmId == t.filmId && g in db.genre && g.id == gfw.genreId
  {
    Seqs.FlatMap(Seqs.Filter(cleared, (t: Row) => t.changedParameter == ChangeGenre), (t: Row) =>
      Seqs.FlatMap(Seqs.Filter(db.filmGenre, (gfw: FilmGenre) => gfw.filmId == t.filmId), (gfw: FilmGenre) =>
        Seqs.Filter(db.genre, (g: Genre) => g.id == gfw.genreId)))
  }

  function GenreIdOf(g: Genre): Id
  {
    g.id
  }

  /**
   * GET_UPDATED_GENRES_INFO as written: one row per genre id of a
   * 'change genre' film, with no genre_films column.
   */
  function UpdatedGenresInfoAsWritten(db: Db, cleared: seq<Row>): (r: seq<GenreInfoRow>)
    ensures forall x :: x in r ==> x.genreFilms == None
    ensures forall x :: x in r ==> exists g :: g in ChangedGenreEntries(db, cleared) && x.genreId == g.id && x.genreName == g.name && x.genreDescription == g.description
    ensures forall i, j :: 0 <= i < j < |r| ==> r[i].genreId != r[j].genreId
    ensures forall g :: g in ChangedGenreEntries(db, cleared) ==> exists x :: x in r && x.genreId == g.id
  {
    var entries := ChangedGenreEntries(db, cleared);
    var groups := Seqs.DistinctBy(entries, GenreIdOf);
    var r := Seqs.Map(groups, (g: Genre) => GenreInfoRow(g.id, g.name, g.description, None));
    GenreRowsCover(entries, groups, r);
    GenreRowsFromEntries(entries, groups, r);
    r
  }

  /** Each row of the corrected query lists its own genre's films. */
  lemma GenreRowsListFilms(db: Db, r: seq<GenreInfoRow>)
    requires forall i :: 0 <= i < |r| ==> r[i].genreFilms == Some(Text.Join(GenreFilmIds(db, r[i].genreId), ", "))
    ensures forall x :: x in r ==> x.genreFilms == Some(Text.Join(GenreFilmIds(db, x.genreId), ", "))
  {
    forall x | x in r ensures x.genreFilms == Some(Text.Join(GenreFilmIds(db, x.genreId), ", ")) {
      var i :| 0 <= i < |r| && r[i] == x;
    }
  }

  /** Rows built one per group, each from its group's genre, are the genres of the entries. */
  lemma GenreRowsFromEntries(entries: seq<Genre>, groups: seq<Genre>, r: seq<GenreInfoRow>)
    requires forall g :: g in groups ==> g in entries
    requires |r| == |groups|
    requires forall i :: 0 <= i < |groups| ==>
      r[i].genreId == groups[i].id && r[i].genreName == groups[i].name && r[i].genreDescription == groups[i].description
    ensures forall x :: x in r ==> exists g :: g in entries && x.genreId == g.id && x.genreName == g.name && x.genreDescription == g.description
  {
    forall x | x in r ensures exists g :: g in entries && x.genreId == g.id && x.genreName == g.name && x.genreDescription == g.description {
      var i :| 0 <= i < |r| && r[i] == x;
      assert groups[i] in entries;
    }
  }

  /** Rows built one per group, with the group's id, cover every genre id of the entries. */
  lemma GenreRowsCover(entries: seq<Genre>, groups: seq<Genre>, r: seq<GenreInfoRow>)
    requires Seqs.KeySet(groups, GenreIdOf) == Seqs.KeySet(entries, GenreIdOf)
    requires |r| == |groups| && forall i :: 0 <= i < |groups| ==> r[i].genreId == groups[i].id
    ensures forall g :: g in entries ==> exists x :: x in r && x.genreId == g.id
  {
    forall g | g in entries ensures exists x :: x in r && x.genreId == g.id {
      assert GenreIdOf(g) in Seqs.KeySet(entries, GenreIdOf);
      var h :| h in groups && GenreIdOf(h) == g.id;
      var i :| 0 <= i < |groups| && groups[i] == h;
      assert r[i] in r;
    }
  }

  /** As written, there is a genre row exactly when some 'change genre' film is linked to an existing genre. */
  lemma GenreRowsPresent(db: Db, cleared: seq<Row>)
    ensures |UpdatedGenresInfoAsWritten(db, cleared)| > 0 <==> |ChangedGenreEntries(db, cleared)| > 0
  {
    var entries := ChangedGenreEntries(db, cleared);
    var genres := UpdatedGenresInfoAsWritten(db, cleared);
    if |entries| > 0 {
      assert entries[0] in entries;
    }
    if |genres| > 0 {
      assert genres[0] in genres;
    }
  }

  /** The distinct films linked to a genre. */
  function GenreFilmIds(db: Db, genreId: Id): (ids: seq<Id>)
    ensures forall f :: f in ids <==> FilmGenre(f, genreId) in db.filmGenre
    ensures forall i, j :: 0 <= i < j < |ids| ==> ids[i] != ids[j]
  {
    var links := Seqs.Filter(db.filmGenre, (gfw: FilmGenre) => gfw.genreId == genreId);
    var ids := Seqs.Map(links, (gfw: FilmGenre) => gfw.filmId);
    assert forall f :: FilmGenre(f, genreId) in db.filmGenre ==> FilmGenre(f, genreId) in links;
    Seqs.Distinct(ids)
  }

  /**
   * GET_UPDATED_GENRES_INFO with the genre_films column the transformer reads:
   * the distinct ids of the genre's films, ', '-joined.
   */
  function UpdatedGenresInfo(db: Db, cleared: seq<Row>): (r: seq<GenreInfoRow>)
    ensures forall x :: x in r ==> x.genreFilms == Some(Text.Join(GenreFilmIds(db, x.genreId), ", "))
    ensures forall x :: x in r ==> exists g :: g in ChangedGenreEntries(db, cleared) && x.genreId == g.id && x.genreName == g.name && x.genreDescription == g.description
    ensures forall i, j :: 0 <= i < j < |r| ==> r[i].genreId != r[j].genreId
    ensures forall g :: g in ChangedGenreEntries(db, cleared) ==> exists x :: x in r && x.genreId == g.id
  {
    var entries := ChangedGenreEntries(db, cleared);
    var groups := Seqs.DistinctBy(entries, GenreIdOf);
    var r := Seqs.Map(groups, (g: Genre) => GenreInfoRow(g.id, g.name, g.description, Some(Text.Join(GenreFilmIds(db, g.id), ", "))));
    GenreRowsCover(entries, groups, r);
    GenreRowsFromEntries(entries, groups, r);
    GenreRowsListFilms(db, r);
    r
  }

  /** Both genre queries select the same genres; they differ only in genre_films. */
  lemma GenresInfoSameGenres(db: Db, cleared: seq<Row>)
    ensures |UpdatedGenresInfo(db, cleared)| == |UpdatedGenresInfoAsWritten(db, cleared)|
    ensures forall i :: 0 <= i < |UpdatedGenresInfo(db, cleared)| ==>
      UpdatedGenresInfo(db, cleared)[i].genreId == UpdatedGenresInfoAsWritten(db, cleared)[i].genreId
  {
  }

  // ---------------------------------------------------------------- GET_UPDATED_PERSONS_INFO

  /** One joined row of GET_UPDATED_PERSONS_INFO before grouping. */
  datatype PersonFilm = PersonFilm(personId: Id, fullName: string, role: string, filmId: Id)

  function GroupOf(e: PersonFilm): (Id, string, string)
  {
    (e.personId, e.fullName, e.role)
  }

  /** The persons of the films changed because of a person, with the film that brought them in. */
  function ChangedPersonEntries(db: Db, cleared: seq<Row>): (es: seq<PersonFilm>)
    ensures forall e :: e in es <==>
      exists t, fp, p :: t in cleared && t.changedParameter == ChangePerson && fp in db.filmPerson && p in db.person
        && fp.filmId == t.filmId && fp.personId == p.id && e == PersonFilm(p.id, p.fullName, fp.role, t.filmId)
  {
    Seqs.FlatMap(Seqs.Filter(cleared, (t: Row) => t.changedParameter == ChangePerson), (t: Row) =>
      Seqs.FlatMap(Seqs.Filter(db.filmPerson, (fp: FilmPerson) => fp.filmId == t.filmId), (fp: FilmPerson) =>
        Seqs.Map(Seqs.Filter(db.person, (p: Person) => p.id == fp.personId), (p: Person) =>
          PersonFilm(p.id, p.fullName, fp.role, t.filmId))))
  }

  /** string_agg(DISTINCT tuf.film_id) of a group as written: the batch films of that group only. */
  function BatchFilmIds(entries: seq<PersonFilm>, group: (Id, string, string)): (ids: seq<Id>)
    ensures forall f :: f in ids <==> exists e :: e in entries && GroupOf(e) == group && e.filmId == f
    ensures forall i, j :: 0 <= i < j < |ids| ==> ids[i] != ids[j]
  {
    var members := Seqs.Filter(entries, (e: PersonFilm) => GroupOf(e) == group);
    Seqs.Distinct(Seqs.Map(members, (e: PersonFilm) => e.filmId))
  }

  /** The distinct films in which a person has a role. */
  function RoleFilmIds(db: Db, personId: Id, role: string): (ids: seq<Id>)
    ensures forall f :: f in ids <==> FilmPerson(f, personId, role) in db.filmPerson
    ensures forall i, j :: 0 <= i < j < |ids| ==> ids[i] != ids[j]
  {
    var links := Seqs.Filter(db.filmPerson, (fp: FilmPerson) => fp.personId == personId && fp.role == role);
    assert forall f :: FilmPerson(f, personId, role) in db.filmPerson ==> FilmPerson(f, personId, role) in links;
    Seqs.Distinct(Seqs.Map(links, (fp: FilmPerson) => fp.filmId))
  }

  /** ORDER BY full_name, under a collation given as a rank on names. */
  function NameRank(collation: string -> int): PersonInfoRow -> int
  {
    (x: PersonInfoRow) => collation(x.fullName)
  }

  /** The GROUP BY key of a persons-info row: (person_id, full_name, role). */
  function InfoKey(x: PersonInfoRow): (Id, string, string)
  {
    (x.personId, x.fullName, x.role)
  }

  /**
   * Rows built one per group by `f`, which keeps the group's key, and then
   * ordered into `r`: one row per (person_id, full_name, role), every group
   * of the entries present, and every row built from an entry.
   */
  lemma GroupedRows(entries: seq<PersonFilm>, groups: seq<PersonFilm>, f: PersonFilm -> PersonInfoRow, r: seq<PersonInfoRow>)
    requires Seqs.KeySet(groups, GroupOf) == Seqs.KeySet(entries, GroupOf)
    requires forall x :: x in groups ==> x in entries
    requires forall i, j :: 0 <= i < j < |groups| ==> GroupOf(groups[i]) != GroupOf(groups[j])
    requires forall e :: InfoKey(f(e)) == GroupOf(e)
    requires multiset(r) == multiset(Seqs.Map(groups, f))
    ensures forall i, j :: 0 <= i < j < |r| ==> InfoKey(r[i]) != InfoKey(r[j])
    ensures forall e :: e in entries ==> exists x :: x in r && InfoKey(x) == GroupOf(e)
    ensures forall x :: x in r ==> exists e :: e in entries && x == f(e)
  {
    var rows := Seqs.Map(groups, f);
    forall i, j | 0 <= i < j < |rows| ensures InfoKey(rows[i]) != InfoKey(rows[j]) {
      assert GroupOf(groups[i]) != GroupOf(groups[j]);
    }
    Seqs.DistinctKeysPermutation(rows, r, InfoKey);
    forall e | e in entries ensures exists x :: x in r && InfoKey(x) == GroupOf(e) {
      assert GroupOf(e) in Seqs.KeySet(entries, GroupOf);
      var h :| h in groups && GroupOf(h) == GroupOf(e);
      var i :| 0 <= i < |groups| && groups[i] == h;
      assert rows[i] in multiset(r);
    }
    forall x | x in r ensures exists e :: e in entries && x == f(e) {
      assert x in multiset(rows);
    }
  }

  function PersonRowAsWritten(entries: seq<PersonFilm>, e: PersonFilm): PersonInfoRow
  {
    PersonInfoRow(e.personId, e.fullName, e.role, Text.Join(BatchFilmIds(entries, GroupOf(e)), ", "))
  }

  function PersonRow(db: Db, e: PersonFilm): PersonInfoRow
  {
    PersonInfoRow(e.personId, e.fullName, e.role, Text.Join(RoleFilmIds(db, e.personId, e.role), ", "))
  }

  /**
   * GET_UPDATED_PERSONS_INFO as written: one row per (person, full_name, role)
   * among the 'change person' films, listing only the batch films of the group.
   */
  function UpdatedPersonsInfoAsWritten(db: Db, cleared: seq<Row>, collation: string -> int): (r: seq<PersonInfoRow>)
    ensures FetchFirst.SortedBy(r, NameRank(collation))
    ensures forall i, j :: 0 <= i < j < |r| ==> InfoKey(r[i]) != InfoKey(r[j])
    ensures forall e :: e in ChangedPersonEntries(db, cleared) ==> exists x :: x in r && InfoKey(x) == GroupOf(e)
    ensures forall x :: x in r ==> (x.personId, x.fullName, x.role) in Seqs.KeySet(ChangedPersonEntries(db, cleared), GroupOf)
    ensures forall x :: x in r ==> x.personFilms == Text.Join(BatchFilmIds(ChangedPersonEntries(db, cleared), (x.personId, x.fullName, x.role)), ", ")
  {
    var entries := ChangedPersonEntries(db, cleared);
    var groups := Seqs.DistinctBy(entries, GroupOf);
    var f := (e: PersonFilm) => PersonRowAsWritten(entries, e);
    var r := FetchFirst.SortBy(Seqs.Map(groups, f), NameRank(collation));
    GroupedRows(entries, groups, f, r);
    r
  }

  /**
   * GET_UPDATED_PERSONS_INFO listing every film in which the person has the
   * group's role, so that re-indexing the person keeps all of their films.
   */
  function UpdatedPersonsInfo(db: Db, cleared: seq<Row>, collation: string -> int): (r: seq<PersonInfoRow>)
    ensures FetchFirst.SortedBy(r, NameRank(collation))
    ensures forall i, j :: 0 <= i < j < |r| ==> InfoKey(r[i]) != InfoKey(r[j])
    ensures forall e :: e in ChangedPersonEntries(db, cleared) ==> exists x :: x in r && InfoKey(x) == GroupOf(e)
    ensures forall x :: x in r ==> (x.personId, x.fullName, x.role) in Seqs.KeySet(ChangedPersonEntries(db, cleared), GroupOf)
    ensures forall x :: x in r ==> x.personFilms == Text.Join(RoleFilmIds(db, x.personId, x.role), ", ")
  {
    var entries := ChangedPersonEntries(db, cleared);
    var groups := Seqs.DistinctBy(entries, GroupOf);
    var f := (e: PersonFilm) => PersonRow(db, e);
    var r := FetchFirst.SortBy(Seqs.Map(groups, f), NameRank(collation));
    GroupedRows(entries, groups, f, r);
    r
  }

  /**
   * As written, a film in which the person has the role but which has no
   * 'change person' row in the batch is missing from the group's film list,
   * while the corrected query lists it: when person Q of film A changes, the
   * row of person P of film A lists A and drops P's other film B.
   */
  lemma PersonFilmsAsWrittenMissesFilm(db: Db, cleared: seq<Row>, e: PersonFilm, b: Id)
    requires FilmPerson(b, e.personId, e.role) in db.filmPerson
    requires forall t :: t in cleared && t.filmId == b ==> t.changedParameter != ChangePerson
    ensures b !in BatchFilmIds(ChangedPersonEntries(db, cleared), GroupOf(e))
    ensures b in RoleFilmIds(db, e.personId, e.role)
  {
    var entries := ChangedPersonEntries(db, cleared);
    forall x | x in entries && GroupOf(x) == GroupOf(e) ensures x.filmId != b {
      var t, fp, p :| t in cleared && t.changedParameter == ChangePerson && fp in db.filmPerson && p in db.person
        && fp.filmId == t.filmId && fp.personId == p.id && x == PersonFilm(p.id, p.fullName, fp.role, t.filmId);
    }
  }
}
