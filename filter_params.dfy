/**
 * The pagination filters of the read API (src/models/film.py, FilterParams):
 * the `page` and `size` validators and the offset of the requested page, as
 * the request middleware of src/main.py builds them.
 */
module FilmModels {
  import opened Wrappers
  import Text

  /** The default page size. */
  const DEFAULT_SIZE := 20

  /** A query-string value that is a positive decimal number: what both validators accept. */
  predicate PositiveNumeral(v: Option<string>)
  {
    v.Some? && Text.IsNumeric(v.value) && Text.DecimalValue(v.value) != 0
  }

  /** The `page` validator: 0 unless the value is a positive numeral. */
  function ValidatePage(v: Option<string>): (page: nat)
    ensures PositiveNumeral(v) ==> page == Text.DecimalValue(v.value) && page >= 1
    ensures !PositiveNumeral(v) ==> page == 0
  {
    if !PositiveNumeral(v) then 0 else Text.DecimalValue(v.value)
  }

  /** The `size` validator: 20 unless the value is a positive numeral, so never 0. */
  function ValidateSize(v: Option<string>): (size: nat)
    ensures size >= 1
    ensures PositiveNumeral(v) ==> size == Text.DecimalValue(v.value)
    ensures !PositiveNumeral(v) ==> size == DEFAULT_SIZE
  {
    if !PositiveNumeral(v) then DEFAULT_SIZE else Text.DecimalValue(v.value)
  }

  /** `calculate_offset_from_`: the index of the first hit of the page; pages count from 1. */
  function Offset(page: nat, size: nat): (from: nat)
  {
    if page > 0 then size * (page - 1) else 0
  }

  /** A page number written out in decimal is read back; 0 is the "no page" default itself. */
  lemma PageOfNumeral(n: nat)
    ensures ValidatePage(Some(Text.Render(n))) == n
  {
    Text.DecimalRender(n);
  }

  /** A size written out in decimal is read back, except 0, which falls back to the default. */
  lemma SizeOfNumeral(n: nat)
    ensures ValidateSize(Some(Text.Render(n))) == if n == 0 then DEFAULT_SIZE else n
  {
    Text.DecimalRender(n);
  }

  /** A negative or fractional number is not numeric and falls back to the defaults. */
  lemma SignedOrFractionFallsBack(v: string)
    requires Text.StartsWith(v, '-') || '.' in v
    ensures ValidatePage(Some(v)) == 0 && ValidateSize(Some(v)) == DEFAULT_SIZE
  {
    if !Text.StartsWith(v, '-') {
      var i :| 0 <= i < |v| && v[i] == '.';
      assert !Text.IsDigit(v[i]);
    }
  }

  /** The pages tile the result list: page 1 starts at 0 and each page starts where the previous one ends. */
  lemma PagesTile(page: nat, size: nat)
    ensures Offset(0, size) == 0 && Offset(1, size) == 0
    ensures page >= 1 ==> Offset(page + 1, size) == Offset(page, size) + size
  {
  }

  /** FilterParams, as validated on construction. */
  class FilterParams {
    var query: Option<string>
    var sort: Option<string>
    var from: int
    var page: nat
    var size: nat

    constructor (query: Option<string>, sort: Option<string>, size: Option<string>, page: Option<string>, from: int)
      ensures this.query == query && this.sort == sort && this.from == from
      ensures this.page == ValidatePage(page) && this.size == ValidateSize(size)
    {
      this.query := query;
      this.sort := sort;
      this.from := from;
      this.page := ValidatePage(page);
      this.size := ValidateSize(size);
    }

    /** `calculate_offset_from_`. */
    method CalculateOffset()
      modifies this
      ensures from == Offset(page, size)
      ensures page == old(page) && size == old(size) && query == old(query) && sort == old(sort)
    {
      from := if page > 0 then size * (page - 1) else 0;
    }
  }

  function QueryParam(q: map<string, string>, name: string): Option<string>
  {
    if name in q then Some(q[name]) else None
  }

  /** The middleware `add_process_time_header`: the filters every request carries. */
  method RequestFilters(q: map<string, string>) returns (f: FilterParams)
    ensures fresh(f)
    ensures f.query == QueryParam(q, "query") && f.sort == QueryParam(q, "sort")
    ensures f.page == ValidatePage(QueryParam(q, "page[number]")) && f.size == ValidateSize(QueryParam(q, "page[size]"))
    ensures f.from == Offset(f.page, f.size)
  {
    f := new FilterParams(QueryParam(q, "query"), QueryParam(q, "sort"), QueryParam(q, "page[size]"), QueryParam(q, "page[number]"), 0);
    f.CalculateOffset();
  }
}
