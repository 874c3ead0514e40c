/**
 * The film ids the person endpoint collects (`get_persons_films` in
 * src/api/v1/person.py): the person's three role lists, split on `,`.
 */
module PersonApi {
  import opened Wrappers
  import opened SourceDb
  import opened Documents
  import Text

  /** The endpoint's HTTP error: 404 when the person is not found. */
  datatype HttpError = NotFound

  /** The role lists in the order the endpoint reads them: actor, writer, director. */
  function RoleLists(person: Document): seq<Option<string>>
    requires person.PersonDoc?
  {
    [person.filmsAsActor, person.filmsAsWriter, person.filmsAsDirector]
  }

  /** A field's contribution: nothing when it is `None` or empty, its `,`-split otherwise. */
  function Pieces(field: Option<string>): seq<string>
  {
    if field.Some? && field.value != "" then Text.Split(field.value, ',') else []
  }

  /** The ids the loop collects over `fields`, in order. */
  function CollectedIds(fields: seq<Option<string>>): seq<string>
    decreases |fields|
  {
    if |fields| == 0 then [] else CollectedIds(fields[..|fields| - 1]) + Pieces(fields[|fields| - 1])
  }

  /** The first lines of `get_persons_films`: 404 for a missing person, checked before anything else. */
  method PersonsFilms(person: Option<Document>) returns (r: Result<seq<string>, HttpError>)
    requires person.Some? ==> person.value.PersonDoc?
    ensures person.None? <==> r == Err(NotFound)
    ensures person.Some? ==> var p := person.value;
      r == Ok(CollectedIds([p.filmsAsActor, p.filmsAsWriter, p.filmsAsDirector]))
  {
    if person.None? {
      return Err(NotFound);
    }
    var fields := RoleLists(person.value);
    var personFilms: seq<string> := [];
    for i := 0 to |fields|
      invariant personFilms == CollectedIds(fields[..i])
    {
      assert fields[..i + 1][..i] == fields[..i];
      if fields[i].Some? && fields[i].value != "" {
        personFilms := personFilms + Text.Split(fields[i].value, ',');
      }
    }
    assert fields[..|fields|] == fields;
    return Ok(personFilms);
  }

  /** What the first `j` fields collect is where the whole collection starts. */
  lemma {:induction false} CollectedPrefix(fields: seq<Option<string>>, j: nat)
    requires j <= |fields|
    ensures CollectedIds(fields[..j]) <= CollectedIds(fields)
    decreases |fields| - j
  {
    if j < |fields| {
      CollectedPrefix(fields, j + 1);
      assert fields[..j + 1][..j] == fields[..j];
    } else {
      assert fields[..j] == fields;
    }
  }

  /**
   * Each non-empty field's pieces sit together in the collection, after the
   * pieces of the fields before it, and joining them with `,` gives the field back.
   */
  lemma FieldRejoins(fields: seq<Option<string>>, i: nat)
    requires i < |fields| && fields[i].Some? && fields[i].value != ""
    ensures var start := |CollectedIds(fields[..i])|;
      var n := |Text.Split(fields[i].value, ',')|;
      && start + n <= |CollectedIds(fields)|
      && Text.Join(CollectedIds(fields)[start..start + n], ",") == fields[i].value
  {
    var pieces := Text.Split(fields[i].value, ',');
    var pre := CollectedIds(fields[..i]);
    var upTo := CollectedIds(fields[..i + 1]);
    var all := CollectedIds(fields);
    assert fields[..i + 1][..i] == fields[..i];
    assert upTo == pre + pieces;
    CollectedPrefix(fields, i + 1);
    assert all[..|upTo|] == upTo;
    assert all[|pre|..|pre| + |pieces|] == upTo[|pre|..];
    assert upTo[|pre|..] == pieces;
    Text.JoinSplit(fields[i].value, ',');
  }

  // ---------------------------------------------------------------- the stored lists are ', '-joined

  /** The pieces of an `', '`-joined list, split on `,`: every piece after the first keeps a leading space. */
  function Spaced(ids: seq<string>): (r: seq<string>)
    requires |ids| >= 1
    ensures |r| == |ids| && r[0] == ids[0]
    ensures forall j :: 1 <= j < |ids| ==> r[j] == " " + ids[j]
  {
    [ids[0]] + seq(|ids| - 1, j requires 0 <= j < |ids| - 1 => " " + ids[j + 1])
  }

  lemma {:induction false} JoinSpaced(ids: seq<string>)
    requires |ids| >= 1
    ensures Text.Join(ids, ", ") == Text.Join(Spaced(ids), ",")
    decreases |ids|
  {
    if |ids| > 1 {
      var rest := ids[1..];
      JoinSpaced(rest);
      var sr := Spaced(rest);
      var s := Spaced(ids);
      assert s[1..] == [" " + rest[0]] + sr[1..];
      Text.JoinCons(ids[0], rest, ", ");
      Text.JoinCons(ids[0], s[1..], ",");
      assert s == [ids[0]] + s[1..];
      if |rest| > 1 {
        Text.JoinCons(rest[0], sr[1..], ",");
        Text.JoinCons(" " + rest[0], sr[1..], ",");
        assert sr == [rest[0]] + sr[1..];
      } else {
        assert sr == [rest[0]];
        assert s[1..] == [" " + rest[0]];
      }
    }
  }

  /** Splitting an `', '`-joined list of comma-free ids on `,` gives the ids, all but the first with a leading space. */
  lemma SplitJoinedList(ids: seq<string>)
    requires |ids| >= 1 && forall j :: 0 <= j < |ids| ==> ',' !in ids[j]
    ensures Text.Split(Text.Join(ids, ", "), ',') == Spaced(ids)
  {
    JoinSpaced(ids);
    var s := Spaced(ids);
    forall j | 0 <= j < |s| ensures ',' !in s[j] {
      if j > 0 {
        assert s[j] == " " + ids[j];
      }
    }
    Text.SplitJoin(s, ',');
  }

  /**
   * As written, a person who acted in two films gets the second film's id with
   * a leading space, which is no `_id` of the film index: only the first film
   * of each role is found.
   */
  lemma AsWrittenKeepsLeadingSpace(id: Id, actor: string, a: Id, b: Id)
    requires ',' !in a && ',' !in b
    ensures var listed := Text.Join([a, b], ", ");
      CollectedIds(RoleLists(PersonDoc(id, actor, Some(listed), None, None))) == [a, " " + b]
  {
    var listed := Text.Join([a, b], ", ");
    SplitJoinedList([a, b]);
    assert Spaced([a, b]) == [a, " " + b];
    var fields := RoleLists(PersonDoc(id, actor, Some(listed), None, None));
    assert listed == a + ", " + b;
    assert CollectedIds(fields[..1]) == [a, " " + b] by {
      assert fields[..1][..0] == [];
    }
    assert CollectedIds(fields[..2]) == [a, " " + b] by {
      assert fields[..2][..1] == fields[..1];
    }
    assert CollectedIds(fields[..3]) == [a, " " + b] by {
      assert fields[..3][..2] == fields[..2];
    }
    assert fields[..3] == fields;
  }

  // ---------------------------------------------------------------- the evidently intended collection

  /** A field's ids with the list separator's space removed. */
  function StrippedPieces(field: Option<string>): (r: seq<string>)
    ensures |r| == |Pieces(field)|
    ensures forall j :: 0 <= j < |r| ==> r[j] == Text.Strip(Pieces(field)[j], ' ')
  {
    var pieces := Pieces(field);
    seq(|pieces|, j requires 0 <= j < |pieces| => Text.Strip(pieces[j], ' '))
  }

  /** The collection with each piece stripped of spaces. */
  function CollectedFilmIds(fields: seq<Option<string>>): seq<string>
    decreases |fields|
  {
    if |fields| == 0 then [] else CollectedFilmIds(fields[..|fields| - 1]) + StrippedPieces(fields[|fields| - 1])
  }

  lemma StripSpaceFree(s: string)
    requires ' ' !in s
    ensures Text.Strip(s, ' ') == s
  {
  }

  lemma StripLeading(s: string)
    requires ' ' !in s
    ensures Text.Strip(" " + s, ' ') == s
  {
    assert (" " + s)[1..] == s;
    assert Text.StripLeft(" " + s, ' ') == Text.StripLeft(s, ' ');
  }

  lemma JoinedNonEmpty(ids: seq<string>)
    requires |ids| >= 1 && ids[0] != ""
    ensures Text.Join(ids, ", ") != ""
  {
    if |ids| > 1 {
      Text.JoinCons(ids[0], ids[1..], ", ");
      assert ids == [ids[0]] + ids[1..];
    }
  }

  /** Stripping recovers every id of an `', '`-joined list of non-empty ids that hold no comma or space. */
  lemma StrippedRecoversIds(ids: seq<string>)
    requires |ids| >= 1 && forall j :: 0 <= j < |ids| ==> ids[j] != "" && ',' !in ids[j] && ' ' !in ids[j]
    ensures StrippedPieces(Some(Text.Join(ids, ", "))) == ids
  {
    var listed := Text.Join(ids, ", ");
    SplitJoinedList(ids);
    JoinedNonEmpty(ids);
    var pieces := Pieces(Some(listed));
    assert pieces == Spaced(ids);
    var r := StrippedPieces(Some(listed));
    forall j | 0 <= j < |ids| ensures r[j] == ids[j] {
      if j == 0 {
        StripSpaceFree(ids[0]);
      } else {
        assert pieces[j] == " " + ids[j];
        StripLeading(ids[j]);
      }
    }
  }
}
