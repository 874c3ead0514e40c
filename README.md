# Async API sprint 4: the Postgres → Elasticsearch sync engine and the read-API helpers, in Dafny

This project models the incremental synchronisation pipeline of `postgres_to_es/`. It also models the arithmetic and cache logic of the read API under `src/`.

**The pipeline.**

- **Checkpoint.** A Redis hash `postgresql_films` holds the checkpoint: the cursor `last_update` and the run flag `can_start_ETL`.
- **One period.**
  - The extractor reads the checkpoint and refuses to run unless the flag is `'True'`.
  - Otherwise it takes the flag and runs a fixed series of SQL statements against the cursor.
  - The three change-detection inserts (genre, person, film) fill a temporary table, deduplicated on `(film_id, last_update)`.
  - Two aggregate tables follow, each cut to the first `limit` rows by `last_update` `WITH TIES`.
  - Then a pruning `DELETE` and the three batch queries.
  - When no film rows come back, the extractor gives the flag back with the cursor unchanged.
  - Otherwise it hands `(persons, genres, films)` to the transformer, which builds the `movies`, `genre` and `person` documents and picks the next cursor.
  - The loader then makes sure the `genre` and `person` indices exist and bulk-indexes the documents. Only after that does it commit the new cursor and give the flag back.
- **The loop.** `ETL.run` repeats this every period. An exception raised anywhere in the chain ends the process.

**The read API.**

- `FilterParams` validates the `page` and `size` query parameters and computes the offset.
- `Service.prepare_params_for_search` turns the filters into Elasticsearch parameters.
- `get_by_id` and `get_all_from_elastic` read through a Redis cache.
- The person endpoint collects a person's film ids from their three role lists.

**How it is modelled.**

- **State and the outside world.**
  - Each stateful object of the source is a class whose methods change its fields: the two Redis stores, the Elasticsearch cluster, the extractor, the loader, the transformer's output list, `FilterParams`, the service and the `ETL` driver.
  - The database is an immutable snapshot passed to each extraction.
  - What Elasticsearch does, whether it is reachable and which documents it refuses, is a parameter.
- **Methods and specification functions.** Every method is proved against a specification function of the old state.
  - `ExtractStep` for `extract`, `LoadStep` for `load`, `Transformed` for `transform`.
  - `TickStep` and `RunSteps` for a period and for `run`.
  - `Prepared` for `prepare_params_for_search`, and so on.
  - The properties are proved as lemmas about those functions.
- **The SQL statements** are functions on sequences of rows:
  - `INSERT ... ON CONFLICT DO NOTHING`;
  - `ORDER BY ... FETCH FIRST n ROWS WITH TIES`, as the fetch-first clause of ISO/IEC 9075-2 defines it;
  - the inner joins and `GROUP BY`s.

  The pipeline runs the statements as written. The corrected statements of "## Findings" are modelled beside them and used only in the lemmas about the corrections.
- **Python semantics** are written out where the code relies on them:
  - truthiness;
  - dictionary insertion order;
  - `str * int` repetition;
  - the `TypeError` of `str - int`;
  - the `AttributeError` of `int.startswith`;
  - `str.split`, `str.strip`, `str.isnumeric` and `int()`.

**Module layout.** The modules follow the source files:

| Dafny file | source |
|---|---|
| `redis_storage.dfy` | `state_storage/redis_storage.py` |
| `change_detection.dfy`, `fetch_first.dfy`, `batch_queries.dfy` | `SQL_scripts.py` |
| `extractor.dfy` | `extractor/psql_extractor.py` |
| `transformer.dfy` | `transformer/transormer.py` |
| `es_loader.dfy` | `loader/es_loader.py` |
| `etl.dfy` | `ETL.py` |
| `service.dfy` | `src/services/service.py` with `src/db/redis.py` |
| `filter_params.dfy` | `src/models/film.py` with the middleware of `src/main.py` |
| `person_api.dfy` | `src/api/v1/person.py` |

Shared modules:

- `source_db.dfy`, `documents.dfy` and `timestamps.dfy` hold the data shapes of `models.py` and of the `content` schema.
- `text.dfy` and `seqs.dfy` hold the string and sequence helpers.

`ETL.py` carries inline copies of `RedisStorage`, `PsqlExtractor`, `Transformer` and `ESLoader`. They match the separate files line for line; only the ping method is renamed, to `check_es_available`. One model covers both, and the table cites the separate files.

## Model

| member | source | states |
|---|---|---|
| RedisStorage.StateDict | postgres_to_es/models.py:6-8 | `State(...).dict()` has exactly the fields `last_update` and `can_start_ETL`, holding the given values |
| RedisStorage.Merge | postgres_to_es/state_storage/redis_storage.py:11-12 | HMSET: the result's fields are the old ones plus the written ones; written fields take the new value and every other field keeps its old value |
| RedisStorage.MergeIdempotent | postgres_to_es/state_storage/redis_storage.py:11-12 | saving the same fields twice leaves the same hash as saving them once |
| RedisStorage.MergeStoredValues | postgres_to_es/state_storage/redis_storage.py:11-12 | saving fields that repeat the stored values changes nothing |
| RedisStorage.RedisStorage.constructor | postgres_to_es/state_storage/redis_storage.py:7-9 | the storage sees the given Redis key space |
| RedisStorage.RedisStorage.SaveState | postgres_to_es/state_storage/redis_storage.py:11-12 | only the key `postgresql_films` changes, and it holds the stored hash merged with the new fields |
| RedisStorage.RedisStorage.RetrieveState | postgres_to_es/state_storage/redis_storage.py:14-18 | returns the hash stored under `postgresql_films`; `{}` exactly when the key is missing or its hash is empty |
| Timestamps.ParseTimestamp | postgres_to_es/SQL_scripts.py:14 | the cursor text the database accepts: `'1970-01-01'` (the instant 0) or a rendered timestamp; everything else is refused |
| Timestamps.ParseIsoFormat | postgres_to_es/loader/es_loader.py:42 | the cursor text the loader stores parses back to the same instant |
| ChangeDetection.GenreChanges | postgres_to_es/SQL_scripts.py:9-16 | a row is selected iff some film is linked to a genre updated strictly after the cursor; the row carries the film, `'change genre'` and the genre's `updated_at` |
| ChangeDetection.PersonChanges | postgres_to_es/SQL_scripts.py:17-24 | a row is selected iff some film is linked to a person updated strictly after the cursor; the row carries the film, `'change person'` and the person's `updated_at` |
| ChangeDetection.FilmChanges | postgres_to_es/SQL_scripts.py:25-30 | a row is selected iff a film was updated strictly after the cursor; the row carries `'change film'` and the film's `updated_at` |
| ChangeDetection.InsertRow | postgres_to_es/SQL_scripts.py:6 | inserting one row either appends it or leaves the table as it was; it appends only under a new `(film_id, last_update)` key, and it keeps keys unique |
| ChangeDetection.InsertOnConflictDoNothing | postgres_to_es/SQL_scripts.py:10-15 | the insert never removes or reorders the rows already in the table |
| ChangeDetection.Inserted | postgres_to_es/SQL_scripts.py:6-30 | after the insert, the keys are the old keys plus the keys of the new rows; unique keys stay unique; every added row is a new row under a key not present before |
| ChangeDetection.InsertExistingKeyIsNoOp | postgres_to_es/SQL_scripts.py:15 | inserting a row whose key already exists leaves the table unchanged |
| ChangeDetection.FirstInsertWins | postgres_to_es/SQL_scripts.py:15 | whatever is inserted later, a row already in a table with unique keys stays the only row with its key |
| ChangeDetection.InsertedThrice | postgres_to_es/extractor/psql_extractor.py:31-34 | three inserts into an empty table keep keys unique, hold the union of the three selects' keys, and give each key the reason of the first insert that produced it |
| ChangeDetection.DetectedChanges | postgres_to_es/extractor/psql_extractor.py:31-34 | the change table after the three inserts into an empty table; `DetectedChangesSpec` states its keys, uniqueness and reasons |
| ChangeDetection.DetectedChangesSpec | postgres_to_es/extractor/psql_extractor.py:31-34 | the change table after the genre, person and film inserts, in that order: unique keys, exactly the keys of the three selects, every row changed strictly after the cursor, and the reason `genre` over `person` over `film` |
| ChangeDetection.ClearDataOverLimit | postgres_to_es/SQL_scripts.py:61-67 | as written: a row survives iff its `film_id` occurs among the fetch-first rows; every fetch-first row survives |
| ChangeDetection.ClearDataOverLimitKeeps | postgres_to_es/SQL_scripts.py:61-67 | as written, every row of a film that has a fetch-first row survives |
| ChangeDetection.NoCutoffFilmDropped | postgres_to_es/SQL_scripts.py:61-67 | as written, a row of a film with no fetch-first row is deleted |
| ChangeDetection.ClearByFilmIdLeavesGap | postgres_to_es/SQL_scripts.py:61-67 | with limit 1 and rows A@t1 < B@t2 < A@t3, the delete keeps A@t3 and drops B@t2 (finding 1) |
| ChangeDetection.EarliestRowKept | postgres_to_es/SQL_scripts.py:63-66 | with limit 1 and three rows at distinct times, the earliest is a fetch-first row and the middle one is not |
| ChangeDetection.ClearDataBeyondCutoff | postgres_to_es/SQL_scripts.py:61-67 | corrected delete, keyed on `(film_id, last_update)`: a row survives iff it is a fetch-first row |
| ChangeDetection.ClearBeyondCutoffNoGap | postgres_to_es/SQL_scripts.py:61-67 | after the corrected delete, every row no later than a surviving row survives too |
| FetchFirst.SortBy | postgres_to_es/SQL_scripts.py:39 | `ORDER BY`: the result is sorted by the key and is a permutation of the input |
| FetchFirst.FetchFirstWithTies | postgres_to_es/SQL_scripts.py:39-40 | `FETCH FIRST n ROWS WITH TIES` on sorted rows is a prefix: empty for n = 0, everything when n is at least the row count; otherwise at least n rows, and a row is in it iff its key is at most the n-th row's key |
| FetchFirst.FetchIsAtMost | postgres_to_es/SQL_scripts.py:39-40 | the fetched rows are exactly the rows whose key is at most the key of row min(n, count) |
| FetchFirst.FetchIndependentOfTieOrder | postgres_to_es/SQL_scripts.py:39-40 | two key orderings of the same rows fetch the same multiset of rows, so the order among ties does not matter |
| FetchFirst.KeyAtPositionDetermined | postgres_to_es/SQL_scripts.py:39 | two key orderings of the same rows agree on the key at every position |
| FetchFirst.FetchKeepsCohorts | postgres_to_es/SQL_scripts.py:39-40 | rows that share a key are fetched together or not at all |
| FetchFirst.FetchOfAnyOrdering | postgres_to_es/SQL_scripts.py:39-40 | whatever ordering the database produces, the fetched multiset is that of the reference ordering |
| FetchFirst.FetchFirstOrdered | postgres_to_es/SQL_scripts.py:63-66 | the fetched rows come from the table; with n at least the row count they are all of its rows; otherwise at least n rows; none for n = 0 |
| FetchFirst.FetchFirstOrderedClosed | postgres_to_es/SQL_scripts.py:63-66 | the fetched set is closed downward: a row no later than a fetched row is fetched |
| FetchFirst.FetchFirstOrderedBelow | postgres_to_es/SQL_scripts.py:63-66 | a fetched row has fewer than n rows strictly before it |
| FetchFirst.FetchFirstOrderedPermutation | postgres_to_es/SQL_scripts.py:63-66 | the fetched multiset does not depend on the order the table is stored in |
| BatchQueries.FilmGenreNames | postgres_to_es/SQL_scripts.py:36-37 | a name is in the list iff the film is linked to a genre with that name |
| BatchQueries.GenreGroupsTimed | postgres_to_es/SQL_scripts.py:33-38 | one group per change row whose film has a genre; its `genre` is the film's genre names joined by `,` |
| BatchQueries.TmpFilmGenres | postgres_to_es/SQL_scripts.py:32-41 | every `tmp_film_genres` row is a film with genres, and its `genre` is that film's genre names joined by `,`; the cut is stated by `TmpFilmGenresCut` |
| BatchQueries.GroupCut | postgres_to_es/SQL_scripts.py:39-40 | FETCH FIRST `limit` ROWS WITH TIES on a tmp table's groups (the same cut closes CREATE_TMP_FILM_PERSONS at lines 57-58): every group no later than a kept one is kept, fewer than `limit` groups are strictly earlier than a kept one, and `limit` at least the group count keeps every group |
| BatchQueries.TmpFilmGenresCut | postgres_to_es/SQL_scripts.py:32-41 | `tmp_film_genres` is the `.row` image of the fetch-first film-genre groups ordered by `tuf.last_update`; it is closed downward in time, has fewer than `limit` groups strictly before any kept one, and keeps all groups when `limit` is at least their number |
| BatchQueries.PersonEntries | postgres_to_es/SQL_scripts.py:50-55 | an entry is listed iff the film is linked to that person with that role |
| BatchQueries.PersonGroupsTimed | postgres_to_es/SQL_scripts.py:44-56 | one group per change row whose film exists and has persons, with the film's rating, title, description and persons |
| BatchQueries.TmpFilmPersons | postgres_to_es/SQL_scripts.py:43-59 | every `tmp_film_persons` row is the group of some film that has at least one person; the cut is stated by `TmpFilmPersonsCut` |
| BatchQueries.TmpFilmPersonsCut | postgres_to_es/SQL_scripts.py:43-59 | `tmp_film_persons` is the `.row` image of the fetch-first film-person groups ordered by `tuf.last_update`; it is closed downward in time, has fewer than `limit` groups strictly before any kept one, and keeps all groups when `limit` is at least their number |
| BatchQueries.GroupJoin | postgres_to_es/SQL_scripts.py:81 | the join with `tmp_film_persons`: one row per person group of the genre group's film |
| BatchQueries.FilmJoin | postgres_to_es/SQL_scripts.py:80-81 | the joins with `tmp_film_genres` and `tmp_film_persons`, for one change row and film |
| BatchQueries.ChangeJoin | postgres_to_es/SQL_scripts.py:78-81 | the three inner joins for one change row |
| BatchQueries.JoinedFilmRows | postgres_to_es/SQL_scripts.py:78-81 | a row is produced iff a change row, its film, a genre group and a person group of that film all match |
| BatchQueries.UpdatedFilmsInfo | postgres_to_es/SQL_scripts.py:69-83 | GET_UPDATED_FILMS_INFO: the joined rows, as a permutation, sorted ascending by `last_update` |
| BatchQueries.FilmInfoFromChangeRow | postgres_to_es/SQL_scripts.py:71-78 | every film row carries the film id and `last_update` of a change row of the table |
| BatchQueries.LastFilmRowIsLatest | postgres_to_es/SQL_scripts.py:82 | in a batch ordered by `last_update`, the last film row has the largest `last_update` |
| BatchQueries.ChangedGenreEntries | postgres_to_es/SQL_scripts.py:90-93 | a genre is listed iff a `'change genre'` row's film is linked to it |
| BatchQueries.UpdatedGenresInfoAsWritten | postgres_to_es/SQL_scripts.py:85-95 | as written: `GROUP BY g.id` gives exactly one row per genre id linked to a `'change genre'` film: every row is such a genre, no id repeats, and every such genre has a row; each row carries that genre's name and description; no row has a `genre_films` column (finding 2) |
| BatchQueries.GenreRowsPresent | postgres_to_es/SQL_scripts.py:85-95 | as written, the query returns a row iff some `'change genre'` row's film is linked to an existing genre |
| BatchQueries.GenreFilmIds | postgres_to_es/SQL_scripts.py:85-95 | the distinct films linked to a genre, each once |
| BatchQueries.UpdatedGenresInfo | postgres_to_es/SQL_scripts.py:85-95 | corrected: exactly one row per genre id linked to a `'change genre'` film, as above with name and description, each with a `genre_films` column listing the genre's film ids joined by `', '` |
| BatchQueries.GenresInfoSameGenres | postgres_to_es/SQL_scripts.py:85-95 | the as-written and the corrected genre query select the same genre ids in the same order |
| BatchQueries.ChangedPersonEntries | postgres_to_es/SQL_scripts.py:103-106 | a (person, role, film) entry is listed iff a `'change person'` row's film links to that person with that role |
| BatchQueries.BatchFilmIds | postgres_to_es/SQL_scripts.py:102 | as written: the distinct batch films of a `(person, full_name, role)` group, each once |
| BatchQueries.RoleFilmIds | postgres_to_es/SQL_scripts.py:102 | the distinct films in which the person has the role, each once |
| BatchQueries.UpdatedPersonsInfoAsWritten | postgres_to_es/SQL_scripts.py:97-109 | as written: sorted by `full_name`; `GROUP BY p.id, p.full_name, fp.role` gives one row per group of the `'change person'` entries: each row's key is such a group, no key repeats, and every group has a row; `person_films` is the group's batch films joined by `', '` (finding 3) |
| BatchQueries.UpdatedPersonsInfo | postgres_to_es/SQL_scripts.py:97-109 | corrected: sorted by `full_name`, exactly one row per group, as above; `person_films` lists every film in which the person has that role |
| BatchQueries.PersonFilmsAsWrittenMissesFilm | postgres_to_es/SQL_scripts.py:102-106 | a film of the person's role that has no `'change person'` row in the batch is missing from the as-written list and present in the corrected one (finding 3) |
| Extractor.CursorText | postgres_to_es/extractor/psql_extractor.py:21 | the cursor is the stored `last_update` when present and non-empty, otherwise `'1970-01-01'` |
| Extractor.RunQueries | postgres_to_es/extractor/psql_extractor.py:29-47 | the statements of one extraction in order, as written (the delete by `film_id`, the genre query without `genre_films`, the persons query over the batch only); the film rows come out sorted by `last_update` and no genre row has `genre_films` |
| Extractor.RunQueriesCorrected | postgres_to_es/extractor/psql_extractor.py:29-47 | the same statements with the three corrected queries of findings 1-3; the film rows come out sorted by `last_update` and every genre row has `genre_films` |
| Extractor.QueryStep | postgres_to_es/extractor/psql_extractor.py:29-61 | the query phase on the checkpoint with the flag taken; its outcomes are stated through `ExtractStep`'s contract and `GateOpen` |
| Extractor.Locked | postgres_to_es/extractor/psql_extractor.py:22-24 | taking the flag sets `can_start_ETL` to `'False'`, keeps every other field, and so keeps the cursor text |
| Extractor.ExtractStep | postgres_to_es/extractor/psql_extractor.py:18-61 | one `extract` over the checkpoint (see below this table) |
| Extractor.Gate | postgres_to_es/extractor/psql_extractor.py:22-27 | the queries run iff `can_start_ETL` is present and equal to `'True'` |
| Extractor.GateOpen | postgres_to_es/extractor/psql_extractor.py:22-29 | once the flag is taken, an extraction is its query phase, on the checkpoint with the flag set to `'False'` |
| Extractor.BatchAfterCursor | postgres_to_es/extractor/psql_extractor.py:32-40 | every film row of a batch changed strictly after the cursor it was extracted with |
| Extractor.HandoffAdvancesCursor | postgres_to_es/extractor/psql_extractor.py:60-61 | a handed-on batch's last film row is strictly later than the cursor it was extracted with |
| Extractor.HandoffGenresLackFilms | postgres_to_es/extractor/psql_extractor.py:22-61 | a hand-off happens only from a free flag, leaves the flag taken, carries film rows, and none of its genre rows has `genre_films` |
| Extractor.HeldFlagExcludesSecondRun | postgres_to_es/extractor/psql_extractor.py:22-27 | after a hand-off, a second extraction with any database and limit reads nothing and writes nothing |
| Extractor.FailedQueryKeepsFlag | postgres_to_es/extractor/psql_extractor.py:22-32 | after a failed query the flag stays taken, so the next extraction is held |
| Extractor.NoChangesKeepsCursor | postgres_to_es/extractor/psql_extractor.py:51-54 | with no changes the flag becomes `'True'` and the next extraction reads the same cursor |
| Extractor.PsqlExtractor.constructor | postgres_to_es/extractor/psql_extractor.py:13-16 | the extractor holds the given storage |
| Extractor.PsqlExtractor.Extract | postgres_to_es/extractor/psql_extractor.py:18-61 | the outcome and the new checkpoint are those of `ExtractStep`; a held or missing flag leaves Redis untouched, and otherwise only `postgresql_films` changes |
| Extractor.PsqlExtractor.TakeFlag | postgres_to_es/extractor/psql_extractor.py:20-27 | reads the checkpoint; when the flag is `'True'`, saves it as `'False'` with every other field kept; otherwise writes nothing |
| Extractor.PsqlExtractor.RunLocked | postgres_to_es/extractor/psql_extractor.py:29-61 | the query phase: when no film rows come back it saves the old cursor and a free flag; otherwise Redis is untouched |
| Transformer.Names | postgres_to_es/transformer/transormer.py:46-47 | `actors_names`/`writers_names` have the participants' length and, at each position, that participant's name |
| Transformer.RatingOf | postgres_to_es/transformer/transormer.py:41 | `imdb_rating` is set iff the source rating is present and non-zero, and is then that rating |
| Transformer.FilmDocOf | postgres_to_es/transformer/transormer.py:37-50 | a `movies` document with the film's id; its genre list joined by `,` is the source string and has one more part than that string has commas; the name lists are the projections of `actors` and `writers` |
| Transformer.RoleList | postgres_to_es/transformer/transormer.py:26-33 | the `{id, name}` entries of one role, in input order; `RoleListMembership`, `RoleListConcat` and `RoleListSingle` state its contents |
| Transformer.RoleListMembership | postgres_to_es/transformer/transormer.py:29-33 | an `{id, name}` is in a role list iff some person of the film has exactly that role |
| Transformer.RoleListConcat | postgres_to_es/transformer/transormer.py:29-33 | role lists keep the input order: the role list of a concatenation is the concatenation of the role lists |
| Transformer.RoleListSingle | postgres_to_es/transformer/transormer.py:30-33 | one person contributes an entry exactly when the role matches, case-sensitively |
| Transformer.DirectorOf | postgres_to_es/transformer/transormer.py:28-35 | the film's director; `DirectorIsLast` and `DirectorNone` state which row it comes from |
| Transformer.DirectorIsLast | postgres_to_es/transformer/transormer.py:34-35 | `director` is the name of the last person whose role is exactly `Director` |
| Transformer.DirectorNone | postgres_to_es/transformer/transormer.py:28-35 | `director` is `None` iff no person has role `Director` |
| Transformer.FilmGenresAreNames | postgres_to_es/transformer/transormer.py:42 | when genre names hold no comma, splitting their `,`-join gives the names back |
| Transformer.TransformFilm | postgres_to_es/transformer/transormer.py:24-50 | the inner loop that classifies the persons builds exactly the document `FilmDocOf` describes |
| Transformer.FilmDocs | postgres_to_es/transformer/transormer.py:24-51 | one film document per film row, in order |
| Transformer.DocumentList.constructor | postgres_to_es/transformer/transormer.py:13 | `pure_data` starts empty |
| Transformer.DocumentList.Append | postgres_to_es/transformer/transormer.py:51 | `append` adds the document at the end and changes nothing else |
| Transformer.TransformFilms | postgres_to_es/transformer/transormer.py:22-52 | `transform_films` appends the film documents of the rows, in order, to what `pure_data` held |
| Transformer.GenreDocOf | postgres_to_es/transformer/transormer.py:57-63 | a `genre` document with the genre's id, its name and its `genre_films` |
| Transformer.GenreDocs | postgres_to_es/transformer/transormer.py:56-64 | one genre document per genre row, in order |
| Transformer.FirstMissingFilms | postgres_to_es/transformer/transormer.py:56-62 | the first genre row without `genre_films`; every row before it has one |
| Transformer.TransformGenres | postgres_to_es/transformer/transormer.py:54-65 | raises `KeyError('genre_films')` iff some genre row lacks the column; the documents of the rows before the first such row have been appended |
| Transformer.PersonDocs | postgres_to_es/transformer/transormer.py:96-97 | one person document per distinct person id, in order of first occurrence |
| Transformer.PersonIds | postgres_to_es/transformer/transormer.py:72-87 | the person ids in order of first occurrence; `PersonIdsSpec` states that each row's id is listed exactly once |
| Transformer.PersonIdsSpec | postgres_to_es/transformer/transormer.py:72-87 | the ids of `dictable_pure_data` are exactly the rows' person ids, each once |
| Transformer.FirstNameIsFirst | postgres_to_es/transformer/transormer.py:75-87 | a person's `full_name` comes from their first row |
| Transformer.PersonDocOf | postgres_to_es/transformer/transormer.py:72-94 | one person's document; `FirstNameIsFirst` and `RoleFilmsIsLast` state its name and role fields |
| Transformer.RoleFilms | postgres_to_es/transformer/transormer.py:89-94 | one role field of a person; `RoleFilmsIsLast` and `RoleFilmsNone` state its value |
| Transformer.RoleFilmsIsLast | postgres_to_es/transformer/transormer.py:89-94 | a role field holds the `person_films` of the person's last row with that role, matched case-insensitively |
| Transformer.RoleFilmsNone | postgres_to_es/transformer/transormer.py:82-94 | a role field is `None` iff no row of the person has that role |
| Transformer.WithRole | postgres_to_es/transformer/transormer.py:89-94 | the three `if`s set the one role field the lower-cased role names and leave the id, the name and the other fields alone |
| Transformer.PersonStepSelf | postgres_to_es/transformer/transormer.py:75-94 | one loop turn brings the row's person to the document the rows so far determine |
| Transformer.PersonStepOthers | postgres_to_es/transformer/transormer.py:74-94 | one loop turn leaves every other person's document alone, and adds the row's id only when it is new |
| Transformer.GroupPersons | postgres_to_es/transformer/transormer.py:72-94 | the loop fills `dictable_pure_data` with exactly one document per person id, in order of first occurrence, each equal to `PersonDocOf` |
| Transformer.TransformPersons | postgres_to_es/transformer/transormer.py:67-98 | `transform_persons` appends the person documents, in first-occurrence order; for empty input it appends nothing |
| Transformer.Transformed | postgres_to_es/transformer/transormer.py:11-20 | no film rows raise `IndexError`; a genre row without `genre_films` raises `KeyError('genre_films')`; a result means all genre rows have their films and the batch has films |
| Transformer.TransformedLayout | postgres_to_es/transformer/transormer.py:13-18 | the documents are the film documents, then the genre documents, then the person documents |
| Transformer.TransformedCursor | postgres_to_es/transformer/transormer.py:16 | the next cursor is the `last_update` of the last film row |
| Transformer.Transform | postgres_to_es/transformer/transormer.py:11-20 | one pass of `transform` builds exactly `Transformed` of the batch |
| EsLoader.BulkAccountsForAll | postgres_to_es/loader/es_loader.py:34 | every document is either indexed or reported, and only refused documents are reported |
| EsLoader.Indexed | postgres_to_es/loader/es_loader.py:44-45 | the documents after `bulk`; `IndexedFrame`, `IndexedWritten`, `IndexedLastWins`, `IndexedIdempotent` and `IndexedKeys` state what it stores |
| EsLoader.IndexedFrame | postgres_to_es/loader/es_loader.py:34 | a key the batch does not write keeps what it held |
| EsLoader.IndexedWritten | postgres_to_es/loader/es_loader.py:34 | a written key's final document does not depend on the index's previous contents |
| EsLoader.IndexedLastWins | postgres_to_es/loader/es_loader.py:34 | a key holds the last accepted document with that key |
| EsLoader.IndexedIdempotent | postgres_to_es/loader/es_loader.py:34 | indexing the same batch twice leaves the index as indexing it once |
| EsLoader.IndexedKeys | postgres_to_es/loader/es_loader.py:34 | afterwards the index holds its old keys plus the accepted keys |
| EsLoader.AllIndexed | postgres_to_es/loader/es_loader.py:34 | when nothing is refused, every document's key is in the index |
| EsLoader.NoneRejected | postgres_to_es/loader/es_loader.py:34 | nothing is reported exactly when no document is refused |
| EsLoader.Elastic.constructor | postgres_to_es/loader/es_loader.py:20-22 | the cluster starts with the given indices and documents |
| EsLoader.Elastic.CreateIndex | postgres_to_es/loader/es_loader.py:52-66 | `indices.create` adds the index and leaves the documents alone |
| EsLoader.Elastic.BulkIndex | postgres_to_es/loader/es_loader.py:43-44 | the bulk helper's documents, success count and error list are those of the reference functions |
| EsLoader.PreparedIndices | postgres_to_es/loader/es_loader.py:29-33 | when the ping and the index checks succeed, `genre` and `person` exist and the other indices are untouched; a failed ping or check gives none |
| EsLoader.IndicesAtFailure | postgres_to_es/loader/es_loader.py:29-36 | the indices left by a ConnectionError: the old ones plus at most `genre` and `person`; a failed ping adds none, a failure at the person step keeps `genre` |
| EsLoader.Committed | postgres_to_es/loader/es_loader.py:42 | the committed fields are exactly `last_update` and `can_start_ETL`, the flag `'True'` and the cursor text reading back as the batch's timestamp |
| EsLoader.LoadStep | postgres_to_es/loader/es_loader.py:24-42 | one `load` (see below this table) |
| EsLoader.ESLoader.constructor | postgres_to_es/loader/es_loader.py:20-22 | the loader holds the given cluster and storage |
| EsLoader.ESLoader.Load | postgres_to_es/loader/es_loader.py:24-42 | the new indices, documents and checkpoint are those of `LoadStep`; Redis changes only on a commit, and then only under `postgresql_films` |
| EsLoader.ESLoader.PrepareIndices | postgres_to_es/loader/es_loader.py:29-33 | the ping, then each index is created only when missing; on a failure, the indices created before it remain |
| Etl.TickStep | postgres_to_es/ETL.py:291-296 | one period of `run`: an extraction, then for a hand-off the transform and the load; its properties are the lemmas below (`HeldFlagIdles`, `SyncedTick`, `LoadedTickAdvancesCursor`, `GenreChangeCrashes`, ...) |
| Etl.AfterExtract | postgres_to_es/extractor/psql_extractor.py:51-61 | what follows an extraction: an exception ends the process, a hand-off goes to the transformer, anything else idles; `TickAfterExtract` ties it to `TickStep` |
| Etl.AfterTransform | postgres_to_es/transformer/transormer.py:11-20 | a transform error ends the process before the load, otherwise the documents go to `load`; `LoadedAfterTransform` and `UnreachedAfterTransform` state its loads |
| Etl.AfterLoad | postgres_to_es/loader/es_loader.py:29-42 | a refusal raised by the bulk call ends the process with the load's effect kept; `LoadedAfterTransform` states the effect of a returning load |
| Etl.RunSteps | postgres_to_es/ETL.py:291-296 | `run` over finitely many periods, stopping at the first exception; `RunStopsAtFirstCrash` states that shape |
| Etl.TickAfterExtract | postgres_to_es/ETL.py:291-296 | a period is what follows its extraction |
| Etl.RunStopsAtFirstCrash | postgres_to_es/ETL.py:291-296 | `run` yields one period per environment until the first exception, which is its last period |
| Etl.HeldFlagIdles | postgres_to_es/ETL.py:91-96 | while the flag is held, a period changes nothing and sends nothing |
| Etl.HeldFlagRuns | postgres_to_es/ETL.py:91-96 | while the flag is held, a whole run idles and leaves the world unchanged |
| Etl.SyncedTick | postgres_to_es/ETL.py:130 | a period reaches the loader only through a handed-on batch that transforms |
| Etl.LoadedAfterTransform | postgres_to_es/ETL.py:231-248 | a load that returns has committed the batch's cursor, indexed the whole batch and had nothing refused |
| Etl.UnreachedAfterTransform | postgres_to_es/ETL.py:231-242 | a load that hits a ConnectionError changes neither the checkpoint nor the documents |
| Etl.CommittedCheckpoint | postgres_to_es/loader/es_loader.py:42 | the committed checkpoint holds the rendered cursor and a free flag, and keeps every other field |
| Etl.LoadedTickAdvancesCursor | postgres_to_es/ETL.py:140-144 | a period that loads stores a cursor strictly later than the one it read, with the flag free |
| Etl.LoadedTickIndexesBatch | postgres_to_es/ETL.py:140-144 | a period that loads leaves every document of its batch in the cluster |
| Etl.ConnectionFailureStalls | postgres_to_es/ETL.py:231-242 | after a load that could not reach Elasticsearch the flag stays taken: every later period idles until a restart |
| Etl.Restarted | postgres_to_es/ETL.py:323 | the start-up write sets `can_start_ETL` to `'True'` and keeps every other field |
| Etl.RestartResumes | postgres_to_es/ETL.py:323 | the start-up write frees the flag and keeps the cursor |
| Etl.RestartUndoesLock | postgres_to_es/ETL.py:323 | restarting after the flag was taken from a free checkpoint gives that checkpoint back exactly |
| Etl.GenreChangeCrashes | postgres_to_es/transformer/transormer.py:55-62 | as written, a handed-on batch with a genre row ends the process with `KeyError('genre_films')` before any load, leaving the flag taken and the cluster unchanged (finding 2) |
| Etl.GenreCrashRecurs | postgres_to_es/ETL.py:291-296 | after that crash every later period idles, and a restart gives back exactly the world the crashed period started from, so the same database crashes it again (finding 2) |
| Etl.CorrectedBatchTransforms | postgres_to_es/transformer/transormer.py:55-62 | with the corrected queries, every batch with film rows transforms without an exception |
| Etl.ETL.constructor | postgres_to_es/ETL.py:276-289 | the extractor and the loader share one storage |
| Etl.ETL.Startup | postgres_to_es/ETL.py:323 | start-up writes only `can_start_ETL = 'True'`; the cluster is untouched |
| Etl.ETL.RunOnce | postgres_to_es/ETL.py:294-295 | one period's outcome and the new world are `TickStep` of the old world |
| Etl.ETL.Deliver | postgres_to_es/ETL.py:135-145 | a handed-on batch goes through `transform` into `load`, as `AfterTransform` describes |
| Etl.ETL.Run | postgres_to_es/ETL.py:291-296 | a run's periods and final world are `RunSteps` of the old world |
| Services.Get | src/services/service.py:51 | `d.get(k)` is the value of the entry with key `k`, `None` when there is none |
| Services.Assign | src/services/service.py:51-56 | `d[k] = v`: a present key keeps its place and takes the new value; a new key goes last; keys stay distinct |
| Services.GetReplaced | src/services/service.py:51-56 | after `d[k] = v` the key holds `v` and every other key holds what it held |
| Services.Repeat | src/services/service.py:51 | Python's `str * int`: `k` copies, empty when `k <= 0` |
| Services.SortSpec | src/services/service.py:52-54 | the `field:order` text of a sort value: the value stripped of `-`, then `desc` for a leading `-` and `asc` otherwise; `Step` and `PreparedEntries` state where it is written |
| Services.Step | src/services/service.py:49-56 | one loop turn keeps `es_params`' keys distinct |
| Services.Prepared | src/services/service.py:40-57 | the search parameters prepared from the filters, or the exception raised; `PreparedFailsIff`, `PreparedEntries` and `PreparedFrom` state its contents |
| Services.PrepareParamsForSearch | src/services/service.py:40-57 | the loop builds exactly `Prepared` of the parameters, including the exception it raises |
| Services.PrepareItem | src/services/service.py:49-56 | the loop body is exactly one `Step` |
| Services.PreparedErrSticks | src/services/service.py:48-56 | once a parameter raises, the rest of the loop never runs |
| Services.PreparedFailsIff | src/services/service.py:49-54 | the translation raises iff some truthy `number` is not an int or some truthy `sort` is an int, and the exception is that of the first such parameter |
| Services.PreparedLastWrite | src/services/service.py:48-56 | each key of the result holds what its last writer in `params.items()` wrote |
| Services.LastWriteOther | src/services/service.py:49-56 | only the entry with key `k` writes a key `k` other than `from`; a falsy entry writes nothing, `number` writes only `from`, and `sort` writes its `field:order` form |
| Services.PreparedEntries | src/services/service.py:46-56 | falsy parameters are dropped; `number` is not copied; a `sort` string becomes its `field:order` form; every other truthy parameter is copied unchanged |
| Services.LastWriteFrom | src/services/service.py:50-51 | when the parameters have no `from` of their own, only `number` writes `from` |
| Services.PreparedFrom | src/services/service.py:50-51 | a truthy int `number` gives `from = (number - 1) * (size or 10)` |
| Services.ParamPairs | src/services/service.py:61 | one `k=v` piece per parameter |
| Services.CacheKey | src/services/service.py:61 | the list cache key; `CacheKeyIndex` and `CacheKeysSeparateIndices` state its properties |
| Services.CacheKeyIndex | src/services/service.py:61 | the cache key begins with the index, up to its first `_` |
| Services.CacheKeysSeparateIndices | src/services/service.py:61 | searches over two different indices never share a cache key |
| Services.RedisCache.constructor | src/db/redis.py:24-26 | the cache starts with the given entries |
| Services.RedisCache.ItemFromCache | src/db/redis.py:28-37 | the entry under the id, `None` when there is none |
| Services.RedisCache.PutItem | src/db/redis.py:46-51 | stores the item under its own `id` and changes nothing else |
| Services.RedisCache.ItemsFromCache | src/db/redis.py:39-44 | the list under the key, `None` when there is none |
| Services.RedisCache.PutItems | src/db/redis.py:53-59 | stores the list under the key and changes nothing else |
| Services.GetByIdStep | src/services/service.py:23-38 | `get_by_id` on the cache and the index; `GetByIdWarms` and `GetByIdKeepsHits` state its cache behaviour |
| Services.GetAllStep | src/services/service.py:59-67 | `get_all_from_elastic` on the list cache and a search result; `GetAllRepeats` states its cache behaviour |
| Services.GetByIdWarms | src/services/service.py:28-38 | a document found through a miss is served from the cache next time, whatever Elasticsearch then holds |
| Services.GetByIdKeepsHits | src/services/service.py:28-36 | a lookup never changes a cached entry, except by writing the found document under its own id |
| Services.GetAllRepeats | src/services/service.py:61-67 | the same search twice: a non-empty first result is served from the cache; an empty one counts as a miss and the search runs again |
| Services.Service.constructor | src/services/service.py:14-21 | the service reads through the given cache over its index |
| Services.Service.GetById | src/services/service.py:23-38 | the result and the new item cache are those of the cache-aside step: a hit returns the cached item; a double miss returns `None` and writes nothing; an Elasticsearch hit is cached and returned |
| Services.Service.GetAllFromElastic | src/services/service.py:59-67 | the result and the new list cache are those of the cache-aside step under the cache key; an exception of the translation reads and writes nothing |
| FilmModels.ValidatePage | src/models/film.py:50-54 | `page` is `int(v)` when `v` is a positive numeral and 0 otherwise |
| FilmModels.ValidateSize | src/models/film.py:56-60 | `size` is `int(v)` when `v` is a positive numeral and 20 otherwise, so always at least 1 |
| FilmModels.PageOfNumeral | src/models/film.py:50-54 | a page number written in decimal is read back |
| FilmModels.SizeOfNumeral | src/models/film.py:56-60 | a size written in decimal is read back, except 0, which gives 20 |
| FilmModels.SignedOrFractionFallsBack | src/models/film.py:52-58 | a negative or fractional number falls back to the defaults |
| FilmModels.Offset | src/models/film.py:62-63 | the page's first offset; `PagesTile` states that pages tile the results from offset 0 |
| FilmModels.PagesTile | src/models/film.py:62-63 | pages 0 and 1 start at offset 0, and each later page starts where the previous one ends |
| FilmModels.FilterParams.constructor | src/models/film.py:43-60 | the fields are the validated parameters |
| FilmModels.FilterParams.CalculateOffset | src/models/film.py:62-63 | `from_` becomes the page's offset; the other fields are unchanged |
| FilmModels.RequestFilters | src/main.py:45-59 | the middleware's filters: the query parameters validated, and `from_` set to the page's offset |
| PersonApi.PersonsFilms | src/api/v1/person.py:83-90 | 404 iff the person is missing, checked first; otherwise the ids `CollectedIds` gives for the fields in the order actor, writer, director |
| PersonApi.CollectedIds | src/api/v1/person.py:87-90 | the ids the loop collects: each non-empty field split on `,`, appended in field order; `CollectedPrefix` and `FieldRejoins` state that each field's pieces sit together after the earlier fields' pieces and rejoin to the field |
| PersonApi.CollectedPrefix | src/api/v1/person.py:87-90 | the list is only extended: what the first fields contribute is a prefix of the whole |
| PersonApi.FieldRejoins | src/api/v1/person.py:89-90 | each non-empty field's pieces sit together, after the earlier fields' pieces, and joining them with `,` gives the field back |
| PersonApi.SplitJoinedList | src/api/v1/person.py:90 | splitting a `', '`-joined list on `,` leaves a leading space on every piece after the first |
| PersonApi.AsWrittenKeepsLeadingSpace | src/api/v1/person.py:90 | an actor of films `a, b` collects `[a, " b"]` (finding 4) |
| PersonApi.StrippedPieces | src/api/v1/person.py:90 | corrected: each piece with the separator's spaces stripped |
| PersonApi.CollectedFilmIds | src/api/v1/person.py:87-90 | corrected collection, with every piece stripped; `StrippedRecoversIds` states that it recovers the joined ids |
| PersonApi.StrippedRecoversIds | src/api/v1/person.py:90 | corrected: stripping recovers every id of a `', '`-joined list |
| Text.Split | src/api/v1/person.py:90 | Python's `str.split` on one character: never empty, and no piece holds the separator |
| Text.JoinSplit | postgres_to_es/transformer/transormer.py:42 | joining a split with its separator gives the string back |
| Text.SplitLength | postgres_to_es/transformer/transormer.py:42 | a split has one more piece than the string has separators |
| Text.SplitJoin | postgres_to_es/transformer/transormer.py:42 | splitting a join of separator-free pieces gives the pieces back |
| Text.Lower | postgres_to_es/transformer/transormer.py:89 | `str.lower`, ASCII only, character by character |
| Text.DecimalRender | src/models/film.py:52-54 | `int(str(n)) == n` |
| Text.Strip | src/services/service.py:54 | `str.strip(c)`: neither end of the result is a `c` |
| Text.StripIsSlice | src/services/service.py:54 | what `strip` removes is a run of `c` at each end, and nothing else |

**The two step functions** have contracts too long for a table cell.

`Extractor.ExtractStep` ensures:

- `KeyError` iff `can_start_ETL` is missing.
- Held iff the flag is present and not `'True'`. A held or missing flag leaves the checkpoint as it was.
- A query failure iff the flag was taken but the cursor text was refused or the limit was negative.
- After a failure or a hand-off, the checkpoint has the flag set to `'False'` and every other field kept.
- No changes iff the queries returned no film rows. The checkpoint then has the old cursor and a free flag.
- A hand-off hands exactly the queries' batch, and that batch has film rows.

`EsLoader.LoadStep` ensures:

- A ConnectionError anywhere changes neither the documents nor the checkpoint, and leaves the indices created before the failing call (`IndicesAtFailure`). It happens iff an index check, an index creation or the bulk call fails (or the abstract ping step, to the same effect as the first check).
- Any other outcome has `genre` and `person` among the indices, and the documents bulk-indexed.
- A refusal raises out of `load` with no commit. The error list is non-empty and is exactly the keys of the refused documents, in batch order (`RejectedKeys`).
- A return commits `isoformat(last_update)` with a free flag, having indexed every document.

## Left out

- Timestamps are whole seconds since the epoch. `isoformat()` and Postgres's parsing of it are modelled as decimal text that the database reads back; time zones and calendar text are not modelled. The epoch fallback `'1970-01-01'` is kept as the literal the source uses.
- Connections, cursors, `CREATE TEMPORARY TABLE` and `DROP TABLE` are not modelled. Each SQL statement is a function from the table's rows to its new rows. The in-place `INSERT`s and the `DELETE` are the sequence of those values, in the source's order.
- The SQL concatenation that builds `jsonify_persons` and the `json.loads` of it are not modelled; the persons arrive as already-parsed records.
- `float(rating)` is not modelled; the rating is carried as an optional real.
- `ORDER BY full_name` is modelled as an ordering by an integer rank of the name (the collation), given as a parameter.
- Redis returns bytes and the extractor encodes and decodes field names; the model uses strings throughout.
- `RedisStorage.SaveState` requires a non-empty mapping, because redis-py refuses an empty HMSET; every caller saves at least one field.
- The cache's TTL is not modelled; entries never expire.
- The cache's JSON encoding and `parse_raw` are not modelled.
- The item and list caches are modelled as two maps, though they share one Redis key space.
- `ElasticExecutor` is not modelled; it is an index from `_id` to document for `get_by_id`, and the search result is a parameter for `get_all_from_elastic`.
- The search built from the collected ids in `get_persons_films` and its pagination (src/api/v1/person.py:92-94) are not modelled; it is a plain call of `get_all_from_elastic`.
- `get_person` and the film and genre endpoints are not modelled.
- Parameter values are `None`, `int` or `str`. Booleans, floats and other types a caller might pass are not modelled.
- `str.isnumeric` is modelled on ASCII digits only; other Unicode numerals, and the `ValueError` that `int()` raises on some of them, are not modelled.
- `str.lower` is modelled on ASCII only.
- The `limit` argument of the `PsqlExtractor` constructor is never read by the source; it is not modelled. `extract` takes the limit from `ETL.run`.
- Index mappings, `PERSON_MAPPING` and the bulk helper's chunking are not modelled; the bulk call indexes the documents one by one, as one request.
- `is_available_service`: the ping is kept only as an abstract probe step (`EsLoader.Step.Ping`). The client's `ping` returns False for an unreachable cluster, and es_loader.py:50-51 discards that result, so nothing in the program fails at the ping; a failure there has the same effect as one at the first `indices.exists` (es_loader.py:31). The backoff's waiting and its `max_time` are left out.
- `sleep(periodic)`, logging, the `__main__` set-up and configuration are not modelled.
- The generator mechanics of `coroutine`, `yield` and `send` are not modelled. The priming `next` of `coroutine` (postgres_to_es/ETL.py:22-29) has no counterpart; a `send` is a direct call. The loops `while data := (yield)` that end on a falsy message are not modelled either, since the extractor never sends one.
- `EsLoader.LoadStep`: the bulk helper is called with its default `raise_on_error=True`, so a refused document raises out of `load` before any commit. The `errors[1]` branch of `load` (postgres_to_es/loader/es_loader.py:39-40) suggests that a commit despite refused documents was intended, but it is never reached; the model follows the code.
- `Transformer.Transformed`: the `IndexError` for a batch without film rows cannot arise through the extractor, which hands on only batches with film rows; it is kept for a direct call.
- `Etl.ETL.Deliver` and `Etl.ETL.Run` state their effect through the specification functions `AfterTransform` and `RunSteps`; the properties of those functions are the lemmas of `Etl`.
- `ETL.run` loops forever; the model runs a given finite sequence of periods.
- FastAPI routing, dependency injection, the startup and shutdown hooks, the `pagination_params` filtering and the other endpoints are not modelled.

## Findings

| source | as written | input that shows it | evidently intended | confidence | as-written member | corrected member |
|---|---|---|---|---|---|---|
| postgres_to_es/SQL_scripts.py:61-67 | `CLEAR_DATA_OVER_LIMIT` deletes by `film_id NOT IN (...)`, so a later row of a film that has a fetch-first row survives beyond the cutoff | limit 1; film A changed at t1 and at t3, film B at t2 (t1 < t2 < t3): A@t3 stays, B@t2 is deleted, and the cursor moves to t3, past B's change, which is never synchronised | delete every row that is not itself a fetch-first row, keyed on `(film_id, last_update)`, so that the batch has no gap before its last row | high, not executed | ChangeDetection.ClearByFilmIdLeavesGap | ChangeDetection.ClearBeyondCutoffNoGap |
| postgres_to_es/SQL_scripts.py:85-95 | `GET_UPDATED_GENRES_INFO` selects no `genre_films` column, while `transform_genres` reads `genre['genre_films']` (postgres_to_es/transformer/transormer.py:62) | any batch that holds a `'change genre'` row: `transform` raises `KeyError`, which ends the process before `load` commits; after every restart the same changes are extracted and fail again | select the genre's film ids as `genre_films` | high, not executed | Etl.GenreChangeCrashes | Etl.CorrectedBatchTransforms |
| postgres_to_es/SQL_scripts.py:97-109 | `person_films` aggregates only the `tmp_last_updated_films` rows of the batch, so a person document re-indexed because of one film lists that film alone | person P acts in films A and B; another person of A changes: P's row lists only A, and P's `films_as_actor` in the index loses B | list every film in which the person has the role | medium, not executed | BatchQueries.PersonFilmsAsWrittenMissesFilm | BatchQueries.UpdatedPersonsInfo |
| src/api/v1/person.py:90 | the stored role lists are joined with `', '` (postgres_to_es/SQL_scripts.py:102) but split on `','`, so every id after the first keeps a leading space | an actor of films `a` and `b`: `films_as_actor` is `"a, b"` and the collected ids are `["a", " b"]`; `" b"` is no film `_id` | strip the separator's space from each piece | high, not executed | PersonApi.AsWrittenKeepsLeadingSpace | PersonApi.StrippedRecoversIds |

The extractor's query phase `Extractor.RunQueries` runs the statements as written, so the lemmas of `Extractor` and `Etl` describe the program as it is. A hand-off with a genre row ends the process (`Etl.GenreChangeCrashes`), and every restart repeats the crash (`Etl.GenreCrashRecurs`). A period that loads therefore had no genre row in its batch. The genre rows of the as-written query are `BatchQueries.UpdatedGenresInfoAsWritten`; the corrected ones are `BatchQueries.UpdatedGenresInfo`. `Extractor.RunQueriesCorrected` runs the three corrected statements, and `Etl.CorrectedBatchTransforms` is proved about it. `PersonApi.PersonsFilms` models the endpoint as written; `PersonApi.CollectedFilmIds` is the corrected collection.
