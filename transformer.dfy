/**
 * The document transformer of transformer/transormer.py (and its copy in
 * ETL.py): film rows become FilmMap documents, genre rows GenreMap
 * documents and person rows PersonMap documents, appended in that order to
 * one list, together with the cursor the loader is to commit.
 */
module Transformer {
  import opened Wrappers
  import opened Timestamps
  import opened SourceDb
  import opened Documents
  import opened BatchQueries
  import Text

  // ---------------------------------------------------------------- films

  /** The `{id, name}` entries of the persons whose role is exactly `role`, in input order. */
  function RoleList(persons: seq<PersonEntry>, role: string): seq<Participant>
    decreases |persons|
  {
    if |persons| == 0 then []
    else
      var last := persons[|persons| - 1];
      RoleList(persons[..|persons| - 1], role) + (if last.role == role then [Participant(last.id, last.name)] else [])
  }

  /** The name of the last person whose role is exactly `Director`. */
  function DirectorOf(persons: seq<PersonEntry>): Option<string>
    decreases |persons|
  {
    if |persons| == 0 then None
    else if persons[|persons| - 1].role == "Director" then Some(persons[|persons| - 1].name)
    else DirectorOf(persons[..|persons| - 1])
  }

  /** The `name` projection of a list of participants. */
  function Names(ps: seq<Participant>): (names: seq<string>)
    ensures |names| == |ps|
    ensures forall i :: 0 <= i < |ps| ==> names[i] == ps[i].name
  {
    seq(|ps|, i requires 0 <= i < |ps| => ps[i].name)
  }

  /** `float(rating) if rating else None`: a missing or zero rating gives no rating. */
  function RatingOf(rating: Option<real>): (r: Option<real>)
    ensures r.Some? <==> rating.Some? && rating.value != 0.0
    ensures r.Some? ==> r == rating
  {
    if rating.None? || rating.value == 0.0 then None else rating
  }

  /** The FilmMap document of one film row. */
  function FilmDocOf(info: FilmInfoRow): (doc: Document)
    ensures doc.FilmDoc? && doc.Index() == "movies" && doc.DocId() == info.filmId
    ensures Text.Join(doc.genre, ",") == info.genre
    ensures |doc.genre| == Text.Count(info.genre, ',') + 1
    ensures |doc.actorsNames| == |doc.actors| && forall i :: 0 <= i < |doc.actors| ==> doc.actorsNames[i] == doc.actors[i].name
    ensures |doc.writersNames| == |doc.writers| && forall i :: 0 <= i < |doc.writers| ==> doc.writersNames[i] == doc.writers[i].name
  {
    var actors := RoleList(info.persons, "Actor");
    var writers := RoleList(info.persons, "Writer");
    Text.JoinSplit(info.genre, ',');
    Text.SplitLength(info.genre, ',');
    FilmDoc(info.filmId, RatingOf(info.rating), Text.Split(info.genre, ','), info.title, info.description,
            DirectorOf(info.persons), Names(actors), Names(writers), actors, writers)
  }

  /** `persons` is a list of the film's persons: the fields the film document takes from it. */
  lemma {:induction false} RoleListMembership(persons: seq<PersonEntry>, role: string, x: Participant)
    ensures x in RoleList(persons, role) <==> exists e :: e in persons && e.role == role && x == Participant(e.id, e.name)
    decreases |persons|
  {
    if |persons| > 0 {
      var prefix := persons[..|persons| - 1];
      var last := persons[|persons| - 1];
      RoleListMembership(prefix, role, x);
      assert persons == prefix + [last];
      assert forall e :: e in persons <==> e in prefix || e == last;
    }
  }

  /** The role list of a concatenation is the concatenation of the role lists: input order is kept. */
  lemma {:induction false} RoleListConcat(a: seq<PersonEntry>, b: seq<PersonEntry>, role: string)
    ensures RoleList(a + b, role) == RoleList(a, role) + RoleList(b, role)
    decreases |b|
  {
    if |b| == 0 {
      assert a + b == a;
    } else {
      var last := b[|b| - 1];
      assert (a + b)[..|a + b| - 1] == a + b[..|b| - 1];
      RoleListConcat(a, b[..|b| - 1], role);
    }
  }

  /** A single person contributes an entry exactly when the role matches, case-sensitively. */
  lemma RoleListSingle(e: PersonEntry, role: string)
    ensures RoleList([e], role) == if e.role == role then [Participant(e.id, e.name)] else []
  {
    assert [e][..0] == [];
  }

  /** The director is the last person with role `Director`. */
  lemma {:induction false} DirectorIsLast(persons: seq<PersonEntry>, i: nat)
    requires i < |persons| && persons[i].role == "Director"
    requires forall j :: i < j < |persons| ==> persons[j].role != "Director"
    ensures DirectorOf(persons) == Some(persons[i].name)
    decreases |persons|
  {
    if i < |persons| - 1 {
      DirectorIsLast(persons[..|persons| - 1], i);
    }
  }

  /** There is no director exactly when no person has role `Director`. */
  lemma {:induction false} DirectorNone(persons: seq<PersonEntry>)
    ensures DirectorOf(persons) == None <==> forall j :: 0 <= j < |persons| ==> persons[j].role != "Director"
    decreases |persons|
  {
    if |persons| > 0 {
      DirectorNone(persons[..|persons| - 1]);
    }
  }

  /** The genre list is the source string split on ','; with ','-free names it gives back the names. */
  lemma FilmGenresAreNames(info: FilmInfoRow, names: seq<string>)
    requires |names| >= 1 && info.genre == Text.Join(names, ",")
    requires forall i :: 0 <= i < |names| ==> ',' !in names[i]
    ensures FilmDocOf(info).genre == names
  {
    Text.SplitJoin(names, ',');
  }

  /** The inner loop of transform_films: classifies the persons of one film row. */
  method TransformFilm(info: FilmInfoRow) returns (doc: Document)
    ensures doc == FilmDocOf(info)
  {
    var persons := info.persons;
    var actors: seq<Participant> := [];
    var writers: seq<Participant> := [];
    var director: Option<string> := None;
    var k := 0;
    while k < |persons|
      invariant 0 <= k <= |persons|
      invariant actors == RoleList(persons[..k], "Actor")
      invariant writers == RoleList(persons[..k], "Writer")
      invariant director == DirectorOf(persons[..k])
    {
      var person := persons[k];
      assert persons[..k + 1][..k] == persons[..k];
      if person.role == "Actor" {
        actors := actors + [Participant(person.id, person.name)];
      } else if person.role == "Writer" {
        writers := writers + [Participant(person.id, person.name)];
      } else if person.role == "Director" {
        director := Some(person.name);
      }
      k := k + 1;
    }
    assert persons[..k] == persons;
    doc := FilmDoc(info.filmId, RatingOf(info.rating), Text.Split(info.genre, ','), info.title, info.description,
                   director, Names(actors), Names(writers), actors, writers);
  }

  /** The documents of a list of film rows, in order. */
  function FilmDocs(films: seq<FilmInfoRow>): (docs: seq<Document>)
    ensures |docs| == |films|
    ensures forall i :: 0 <= i < |films| ==> docs[i] == FilmDocOf(films[i])
  {
    seq(|films|, i requires 0 <= i < |films| => FilmDocOf(films[i]))
  }

  // ---------------------------------------------------------------- the output list

  /** The `pure_data` list the transformer appends to. */
  class DocumentList {
    var items: seq<Document>

    constructor()
      ensures items == []
    {
      items := [];
    }

    method Append(doc: Document)
      modifies this
      ensures items == old(items) + [doc]
    {
      items := items + [doc];
    }
  }

  /** transform_films: appends one document per film row, in order. */
  method TransformFilms(rawFilms: seq<FilmInfoRow>, pureData: DocumentList)
    modifies pureData
    ensures pureData.items == old(pureData.items) + FilmDocs(rawFilms)
  {
    var i := 0;
    while i < |rawFilms|
      invariant 0 <= i <= |rawFilms|
      invariant pureData.items == old(pureData.items) + FilmDocs(rawFilms[..i])
    {
      var doc := TransformFilm(rawFilms[i]);
      assert FilmDocs(rawFilms[..i + 1]) == FilmDocs(rawFilms[..i]) + [doc];
      pureData.Append(doc);
      i := i + 1;
    }
    assert rawFilms[..i] == rawFilms;
  }

  // ---------------------------------------------------------------- genres

  /** An exception the transformer raises. */
  datatype TransformError = KeyError(key: string) | IndexError

  /** The GenreMap document of a genre row that has its films column. */
  function GenreDocOf(g: GenreInfoRow): (doc: Document)
    requires g.genreFilms.Some?
    ensures doc.GenreDoc? && doc.Index() == "genre" && doc.DocId() == g.genreId
    ensures doc.name == g.genreName && doc.films == g.genreFilms.value
  {
    GenreDoc(g.genreId, g.genreName, g.genreFilms.value)
  }

  predicate AllHaveFilms(genres: seq<GenreInfoRow>)
  {
    forall i :: 0 <= i < |genres| ==> genres[i].genreFilms.Some?
  }

  function GenreDocs(genres: seq<GenreInfoRow>): (docs: seq<Document>)
    requires AllHaveFilms(genres)
    ensures |docs| == |genres|
    ensures forall i :: 0 <= i < |genres| ==> docs[i] == GenreDocOf(genres[i])
  {
    seq(|genres|, i requires 0 <= i < |genres| => GenreDocOf(genres[i]))
  }

  /** The index of the first genre row without its films column, or the length when there is none. */
  function FirstMissingFilms(genres: seq<GenreInfoRow>): (k: nat)
    ensures k <= |genres| && AllHaveFilms(genres[..k])
    ensures k < |genres| ==> genres[k].genreFilms.None?
    ensures k == |genres| <==> AllHaveFilms(genres)
    decreases |genres|
  {
    if |genres| == 0 then 0
    else if genres[0].genreFilms.None? then 0
    else
      var k := FirstMissingFilms(genres[1..]);
      assert genres[..k + 1] == [genres[0]] + genres[1..][..k];
      assert k == |genres| - 1 ==> genres[1..][..k] == genres[1..];
      k + 1
  }

  /**
   * transform_genres: appends one document per genre row; a row without
   * `genre_films` raises KeyError after the documents of the rows before it
   * have been appended.
   */
  method TransformGenres(rawGenres: seq<GenreInfoRow>, pureData: DocumentList) returns (err: Option<TransformError>)
    modifies pureData
    ensures err.None? <==> AllHaveFilms(rawGenres)
    ensures err.Some? ==> err == Some(KeyError("genre_films"))
    ensures var k := FirstMissingFilms(rawGenres); pureData.items == old(pureData.items) + GenreDocs(rawGenres[..k])
  {
    var k := FirstMissingFilms(rawGenres);
    var i := 0;
    while i < |rawGenres|
      invariant 0 <= i <= k
      invariant pureData.items == old(pureData.items) + GenreDocs(rawGenres[..i])
    {
      var genre := rawGenres[i];
      if genre.genreFilms.None? {
        return Some(KeyError("genre_films"));
      }
      assert AllHaveFilms(rawGenres[..i + 1]);
      var doc := GenreDoc(genre.genreId, genre.genreName, genre.genreFilms.value);
      assert GenreDocs(rawGenres[..i + 1]) == GenreDocs(rawGenres[..i]) + [doc];
      pureData.Append(doc);
      i := i + 1;
    }
    assert rawGenres[..i] == rawGenres;
    return None;
  }

  // ---------------------------------------------------------------- persons

  /** Distinct person ids in order of first occurrence: the insertion order of `dictable_pure_data`. */
  function PersonIds(rows: seq<PersonInfoRow>): (ids: seq<Id>)
    decreases |rows|
  {
    if |rows| == 0 then []
    else
      var prefix := PersonIds(rows[..|rows| - 1]);
      var pid := rows[|rows| - 1].personId;
      if pid in prefix then prefix else prefix + [pid]
  }

  /** The full name of the first row of a person. */
  function FirstName(rows: seq<PersonInfoRow>, pid: Id): string
    decreases |rows|
  {
    if |rows| == 0 then ""
    else if pid in PersonIds(rows[..|rows| - 1]) then FirstName(rows[..|rows| - 1], pid)
    else if rows[|rows| - 1].personId == pid then rows[|rows| - 1].fullName
    else ""
  }

  /** The `person_films` of the last row of a person whose lower-cased role is `role`. */
  function RoleFilms(rows: seq<PersonInfoRow>, pid: Id, role: string): Option<string>
    decreases |rows|
  {
    if |rows| == 0 then None
    else
      var last := rows[|rows| - 1];
      if last.personId == pid && Text.Lower(last.role) == role then Some(last.personFilms)
      else RoleFilms(rows[..|rows| - 1], pid, role)
  }

  /** The PersonMap document a person ends up with after all rows. */
  function PersonDocOf(rows: seq<PersonInfoRow>, pid: Id): Document
  {
    PersonDoc(pid, FirstName(rows, pid), RoleFilms(rows, pid, "actor"), RoleFilms(rows, pid, "writer"), RoleFilms(rows, pid, "director"))
  }

  /** The person documents, one per distinct person, in order of first occurrence. */
  function PersonDocs(rows: seq<PersonInfoRow>): (docs: seq<Document>)
    ensures |docs| == |PersonIds(rows)|
    ensures forall j :: 0 <= j < |docs| ==> docs[j] == PersonDocOf(rows, PersonIds(rows)[j])
  {
    var ids := PersonIds(rows);
    seq(|ids|, j requires 0 <= j < |ids| => PersonDocOf(rows, ids[j]))
  }

  /** Exactly the person ids of the rows, each once. */
  lemma {:induction false} PersonIdsSpec(rows: seq<PersonInfoRow>)
    ensures forall pid :: pid in PersonIds(rows) <==> exists i :: 0 <= i < |rows| && rows[i].personId == pid
    ensures forall a, b :: 0 <= a < b < |PersonIds(rows)| ==> PersonIds(rows)[a] != PersonIds(rows)[b]
    decreases |rows|
  {
    if |rows| > 0 {
      var prefix := rows[..|rows| - 1];
      PersonIdsSpec(prefix);
      forall pid ensures pid in PersonIds(rows) <==> exists i :: 0 <= i < |rows| && rows[i].personId == pid {
        if pid in PersonIds(prefix) {
          var i :| 0 <= i < |prefix| && prefix[i].personId == pid;
          assert rows[i].personId == pid;
        }
        if exists i :: 0 <= i < |rows| && rows[i].personId == pid {
          var i :| 0 <= i < |rows| && rows[i].personId == pid;
          if i < |prefix| {
            assert prefix[i].personId == pid;
          }
        }
      }
    }
  }

  /** A person's name is taken from the first of their rows. */
  lemma {:induction false} FirstNameIsFirst(rows: seq<PersonInfoRow>, pid: Id, i: nat)
    requires i < |rows| && rows[i].personId == pid
    requires forall j :: 0 <= j < i ==> rows[j].personId != pid
    ensures FirstName(rows, pid) == rows[i].fullName
    decreases |rows|
  {
    var prefix := rows[..|rows| - 1];
    PersonIdsSpec(prefix);
    if i < |rows| - 1 {
      assert prefix[i].personId == pid;
      FirstNameIsFirst(prefix, pid, i);
    } else {
      assert forall j :: 0 <= j < |prefix| ==> prefix[j].personId != pid;
    }
  }

  /** A role field is set exactly when some row of the person has that role, and then by the last such row. */
  lemma {:induction false} RoleFilmsIsLast(rows: seq<PersonInfoRow>, pid: Id, role: string, i: nat)
    requires i < |rows| && rows[i].personId == pid && Text.Lower(rows[i].role) == role
    requires forall j :: i < j < |rows| ==> !(rows[j].personId == pid && Text.Lower(rows[j].role) == role)
    ensures RoleFilms(rows, pid, role) == Some(rows[i].personFilms)
    decreases |rows|
  {
    if i < |rows| - 1 {
      RoleFilmsIsLast(rows[..|rows| - 1], pid, role, i);
    }
  }

  lemma {:induction false} RoleFilmsNone(rows: seq<PersonInfoRow>, pid: Id, role: string)
    ensures RoleFilms(rows, pid, role) == None <==>
      forall j :: 0 <= j < |rows| ==> !(rows[j].personId == pid && Text.Lower(rows[j].role) == role)
    decreases |rows|
  {
    if |rows| > 0 {
      RoleFilmsNone(rows[..|rows| - 1], pid, role);
    }
  }

  /** A person document after one row's role has been recorded, as the three `if`s of the loop do. */
  function WithRole(doc: Document, role: string, films: string): (d: Document)
    requires doc.PersonDoc?
    ensures d.PersonDoc? && d.id == doc.id && d.fullName == doc.fullName
    ensures d.filmsAsActor == (if role == "actor" then Some(films) else doc.filmsAsActor)
    ensures d.filmsAsWriter == (if role == "writer" then Some(films) else doc.filmsAsWriter)
    ensures d.filmsAsDirector == (if role == "director" then Some(films) else doc.filmsAsDirector)
  {
    if role == "actor" then doc.(filmsAsActor := Some(films))
    else if role == "writer" then doc.(filmsAsWriter := Some(films))
    else if role == "director" then doc.(filmsAsDirector := Some(films))
    else doc
  }

  /** One step of the loop of transform_persons, for everyone but the person of the new row. */
  lemma PersonStepOthers(rows: seq<PersonInfoRow>, i: nat)
    requires i < |rows|
    ensures PersonIds(rows[..i + 1]) ==
      (if rows[i].personId in PersonIds(rows[..i]) then PersonIds(rows[..i]) else PersonIds(rows[..i]) + [rows[i].personId])
    ensures forall pid :: pid != rows[i].personId ==> PersonDocOf(rows[..i + 1], pid) == PersonDocOf(rows[..i], pid)
  {
    assert rows[..i + 1][..i] == rows[..i];
  }

  /** One step of the loop of transform_persons, for the person of the new row. */
  lemma PersonStepSelf(rows: seq<PersonInfoRow>, i: nat, doc: Document)
    requires i < |rows|
    requires rows[i].personId in PersonIds(rows[..i]) ==> doc == PersonDocOf(rows[..i], rows[i].personId)
    requires rows[i].personId !in PersonIds(rows[..i]) ==> doc == PersonDoc(rows[i].personId, rows[i].fullName, None, None, None)
    ensures WithRole(doc, Text.Lower(rows[i].role), rows[i].personFilms) == PersonDocOf(rows[..i + 1], rows[i].personId)
  {
    var pre, row := rows[..i], rows[i];
    assert rows[..i + 1][..i] == pre;
    assert rows[..i + 1][i] == row;
    if row.personId !in PersonIds(pre) {
      PersonIdsSpec(pre);
      forall role ensures RoleFilms(pre, row.personId, role) == None {
        RoleFilmsNone(pre, row.personId, role);
        assert forall j :: 0 <= j < i ==> pre[j].personId != row.personId;
      }
      assert FirstName(rows[..i + 1], row.personId) == row.fullName;
      assert RoleFilms(pre, row.personId, "actor") == None;
      assert RoleFilms(pre, row.personId, "writer") == None;
      assert RoleFilms(pre, row.personId, "director") == None;
    }
  }

  /** The loop of transform_persons that fills `persons_info`: one document per person id, ids in order of first occurrence. */
  method GroupPersons(rawPersons: seq<PersonInfoRow>) returns (byId: map<Id, Document>, order: seq<Id>)
    ensures order == PersonIds(rawPersons)
    ensures forall pid :: pid in byId <==> pid in order
    ensures forall pid :: pid in byId ==> byId[pid] == PersonDocOf(rawPersons, pid)
  {
    byId := map[];
    order := [];
    var i := 0;
    while i < |rawPersons|
      invariant 0 <= i <= |rawPersons|
      invariant order == PersonIds(rawPersons[..i])
      invariant forall pid :: pid in byId <==> pid in order
      invariant forall pid :: pid in byId ==> byId[pid] == PersonDocOf(rawPersons[..i], pid)
    {
      var person := rawPersons[i];
      var pid := person.personId;
      PersonStepOthers(rawPersons, i);
      var doc: Document;
      if pid !in byId {
        doc := PersonDoc(pid, person.fullName, None, None, None);
        order := order + [pid];
      } else {
        doc := byId[pid];
      }
      PersonStepSelf(rawPersons, i, doc);
      byId := byId[pid := WithRole(doc, Text.Lower(person.role), person.personFilms)];
      i := i + 1;
    }
    assert rawPersons[..i] == rawPersons;
  }

  /**
   * transform_persons: groups the rows by person id into one document each,
   * appended in order of first occurrence; nothing is appended for no rows.
   */
  method TransformPersons(rawPersons: seq<PersonInfoRow>, pureData: DocumentList)
    modifies pureData
    ensures pureData.items == old(pureData.items) + PersonDocs(rawPersons)
  {
    if |rawPersons| == 0 {
      return;
    }
    var byId, order := GroupPersons(rawPersons);
    assert PersonDocs(rawPersons)[..0] == [];
    var j := 0;
    while j < |order|
      invariant 0 <= j <= |order|
      invariant pureData.items == old(pureData.items) + PersonDocs(rawPersons)[..j]
    {
      assert PersonDocs(rawPersons)[..j + 1] == PersonDocs(rawPersons)[..j] + [byId[order[j]]];
      pureData.Append(byId[order[j]]);
      j := j + 1;
    }
    assert PersonDocs(rawPersons)[..j] == PersonDocs(rawPersons);
  }

  // ---------------------------------------------------------------- transform

  /** What the transformer sends on: the documents and the cursor to commit. */
  datatype Loadable = Loadable(docs: seq<Document>, lastUpdate: Timestamp)

  /**
   * What one pass of Transformer.transform sends to the loader: film
   * documents, then genre documents, then person documents, and the
   * last_update of the last film row; or the exception it raises.
   */
  function Transformed(batch: Batch): (r: Result<Loadable, TransformError>)
    ensures |batch.films| == 0 ==> r == Err(IndexError)
    ensures |batch.films| > 0 && !AllHaveFilms(batch.genres) ==> r == Err(KeyError("genre_films"))
    ensures r.Ok? ==> AllHaveFilms(batch.genres) && |batch.films| > 0
  {
    if |batch.films| == 0 then Err(IndexError)
    else if !AllHaveFilms(batch.genres) then Err(KeyError("genre_films"))
    else Ok(Loadable(FilmDocs(batch.films) + GenreDocs(batch.genres) + PersonDocs(batch.persons), batch.films[|batch.films| - 1].lastUpdate))
  }

  /** The documents of a pass: one per film row, then one per genre row, then one per person, in that order. */
  lemma TransformedLayout(batch: Batch)
    requires Transformed(batch).Ok?
    ensures var docs := Transformed(batch).value.docs;
      && |docs| == |batch.films| + |batch.genres| + |PersonIds(batch.persons)|
      && docs[..|batch.films|] == FilmDocs(batch.films)
      && docs[|batch.films|..|batch.films| + |batch.genres|] == GenreDocs(batch.genres)
      && docs[|batch.films| + |batch.genres|..] == PersonDocs(batch.persons)
  {
    var docs := Transformed(batch).value.docs;
    assert docs[..|batch.films|] == FilmDocs(batch.films);
    assert docs[|batch.films|..|batch.films| + |batch.genres|] == GenreDocs(batch.genres);
    assert docs[|batch.films| + |batch.genres|..] == PersonDocs(batch.persons);
  }

  /** The next cursor is the `last_update` of the batch's last film row. */
  lemma TransformedCursor(batch: Batch)
    requires Transformed(batch).Ok?
    ensures |batch.films| > 0 && Transformed(batch).value.lastUpdate == batch.films[|batch.films| - 1].lastUpdate
  {
  }

  /** Transformer.transform, for one batch. */
  method Transform(batch: Batch) returns (r: Result<Loadable, TransformError>)
    ensures r == Transformed(batch)
  {
    var pureData := new DocumentList();
    TransformFilms(batch.films, pureData);
    assert pureData.items == FilmDocs(batch.films);
    if |batch.films| == 0 {
      return Err(IndexError);
    }
    var lastUpdatedFilm := batch.films[|batch.films| - 1].lastUpdate;
    var err := TransformGenres(batch.genres, pureData);
    if err.Some? {
      return Err(err.value);
    }
    assert batch.genres[..|batch.genres|] == batch.genres;
    assert pureData.items == FilmDocs(batch.films) + GenreDocs(batch.genres);
    TransformPersons(batch.persons, pureData);
    return Ok(Loadable(pureData.items, lastUpdatedFilm));
  }
}
