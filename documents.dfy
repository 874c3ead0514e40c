/**
 * The documents the transformer produces (FilmMap, GenreMap and PersonMap of
 * models.py); the loader sends each to the index named by its `_index` and
 * under the id named by its `_id`.
 */
module Documents {
  import opened Wrappers
  import opened SourceDb

  /** An `{id, name}` entry of a film's `actors` or `writers`. */
  datatype Participant = Participant(id: Id, name: string)

  datatype Document =
    | FilmDoc(
        id: Id,
        imdbRating: Option<real>,
        genre: seq<string>,
        title: string,
        description: Option<string>,
        director: Option<string>,
        actorsNames: seq<string>,
        writersNames: seq<string>,
        actors: seq<Participant>,
        writers: seq<Participant>)
    | GenreDoc(id: Id, name: string, films: string)
    | PersonDoc(id: Id, fullName: string, filmsAsActor: Option<string>, filmsAsWriter: Option<string>, filmsAsDirector: Option<string>)
  {
    /** The `_index` the transformer sets. */
    function Index(): string
    {
      match this
      case FilmDoc(_, _, _, _, _, _, _, _, _, _) => "movies"
      case GenreDoc(_, _, _) => "genre"
      case PersonDoc(_, _, _, _, _) => "person"
    }

    /** The `_id` the transformer sets: the document's own id. */
    function DocId(): Id
    {
      id
    }
  }
}
