/**
 * The tables of the `content` schema the pipeline reads: films, genres, persons
 * and the two link tables. Each table is the sequence of its rows; the
 * database is one snapshot of all five, as the queries of one extraction see it.
 */
module SourceDb {
  import opened Wrappers
  import opened Timestamps

  type Id = string

  /** content.film; `rating` is the numeric column, NULL as `None`. */
  datatype Film = Film(id: Id, title: string, description: Option<string>, rating: Option<real>, updatedAt: Timestamp)

  /** content.genre */
  datatype Genre = Genre(id: Id, name: string, description: Option<string>, updatedAt: Timestamp)

  /** content.person */
  datatype Person = Person(id: Id, fullName: string, updatedAt: Timestamp)

  /** content.film_genre */
  datatype FilmGenre = FilmGenre(filmId: Id, genreId: Id)

  /** content.film_person; `role` is free text such as `Actor`. */
  datatype FilmPerson = FilmPerson(filmId: Id, personId: Id, role: string)

  datatype Db = Db(
    film: seq<Film>,
    genre: seq<Genre>,
    person: seq<Person>,
    filmGenre: seq<FilmGenre>,
    filmPerson: seq<FilmPerson>)
}
