/**
 * The read API's search service (src/services/service.py): the translation of
 * request parameters into Elasticsearch search parameters, the cache key of a
 * search, and the cache-aside lookups through Redis.
 */
module Services {
  import opened Wrappers
  import opened Documents
  import Text

  // ---------------------------------------------------------------- Python values and dicts

  /** The values a parameter dict holds: `None`, an `int` or a `str`. */
  datatype Value = NoneV | IntV(n: int) | StrV(s: string)

  /** Python truthiness: `None`, `0` and `''` are false. */
  predicate Truthy(v: Value)
  {
    match v
    case NoneV => false
    case IntV(n) => n != 0
    case StrV(s) => s != ""
  }

  /** A Python dict: its items in insertion order. */
  type Dict = seq<(string, Value)>

  predicate DistinctKeys(d: Dict)
  {
    forall i, j :: 0 <= i < j < |d| ==> d[i].0 != d[j].0
  }

  predicate HasKey(d: Dict, k: string)
  {
    exists i :: 0 <= i < |d| && d[i].0 == k
  }

  /** `d.get(k)`. */
  function Get(d: Dict, k: string): (r: Option<Value>)
    ensures r.None? <==> !HasKey(d, k)
    ensures r.Some? ==> exists i :: 0 <= i < |d| && d[i] == (k, r.value)
    decreases |d|
  {
    if |d| == 0 then None
    else if d[|d| - 1].0 == k then Some(d[|d| - 1].1)
    else
      var r := Get(d[..|d| - 1], k);
      assert forall i :: 0 <= i < |d| - 1 ==> d[..|d| - 1][i] == d[i];
      assert HasKey(d, k) ==> HasKey(d[..|d| - 1], k) by {
        if HasKey(d, k) {
          var i :| 0 <= i < |d| && d[i].0 == k;
          assert d[..|d| - 1][i].0 == k;
        }
      }
      r
  }

  /** `d[k] = v`: a present key keeps its place, a new one goes last. */
  function Assign(d: Dict, k: string, v: Value): (r: Dict)
    requires DistinctKeys(d)
    ensures DistinctKeys(r)
    ensures Get(r, k) == Some(v)
    ensures forall k' :: k' != k ==> Get(r, k') == Get(d, k')
    ensures HasKey(d, k) ==> |r| == |d| && forall i :: 0 <= i < |d| ==> r[i].0 == d[i].0
    ensures !HasKey(d, k) ==> r == d + [(k, v)]
  {
    if HasKey(d, k) then
      var i :| 0 <= i < |d| && d[i].0 == k;
      var r := d[i := (k, v)];
      GetReplaced(d, i, v);
      r
    else
      var r := d + [(k, v)];
      assert r[..|r| - 1] == d;
      r
  }

  lemma {:induction false} GetReplaced(d: Dict, i: nat, v: Value)
    requires DistinctKeys(d) && i < |d|
    ensures Get(d[i := (d[i].0, v)], d[i].0) == Some(v)
    ensures forall k' :: k' != d[i].0 ==> Get(d[i := (d[i].0, v)], k') == Get(d, k')
    decreases |d|
  {
    var r := d[i := (d[i].0, v)];
    var prefix := d[..|d| - 1];
    if i < |d| - 1 {
      assert DistinctKeys(prefix) by {
        forall a, b | 0 <= a < b < |prefix| ensures prefix[a].0 != prefix[b].0 {
          assert prefix[a] == d[a] && prefix[b] == d[b];
        }
      }
      assert r[..|r| - 1] == prefix[i := (prefix[i].0, v)];
      GetReplaced(prefix, i, v);
      assert r[|r| - 1] == d[|d| - 1] && d[|d| - 1].0 != d[i].0;
      forall k' | k' != d[i].0 ensures Get(r, k') == Get(d, k') {
        if d[|d| - 1].0 != k' {
          assert Get(r, k') == Get(prefix[i := (prefix[i].0, v)], k');
        }
      }
    } else {
      assert r[..|r| - 1] == prefix;
    }
  }

  // ---------------------------------------------------------------- prepare_params_for_search

  /** The exception a parameter raises: `str - int`, or `int.startswith`. */
  datatype PyError = TypeError | AttributeError

  /** Python's `s * k` for an `int` `k`: empty when `k <= 0`. */
  function Repeat(s: string, k: int): (r: string)
    ensures |r| == if k <= 0 then 0 else k * |s|
    decreases k
  {
    if k <= 0 then "" else s + Repeat(s, k - 1)
  }

  /** `':'.join((value.strip('-'), order))`: a leading `-` asks for descending order. */
  function SortSpec(s: string): string
  {
    Text.Strip(s, '-') + ":" + (if Text.StartsWith(s, '-') then "desc" else "asc")
  }

  /** `(number - 1) * (params.get('size') or 10)`, or the exception it raises. */
  function FromValue(number: Value, params: Dict): Result<Value, PyError>
  {
    match number
    case IntV(n) =>
      var size := Get(params, "size");
      if size.None? || !Truthy(size.value) then Ok(IntV((n - 1) * 10))
      else (match size.value
            case IntV(k) => Ok(IntV((n - 1) * k))
            case StrV(s) => Ok(StrV(Repeat(s, n - 1)))
            case NoneV => Ok(IntV((n - 1) * 10)))
    case _ => Err(TypeError)
  }

  /** The entry one truthy parameter writes into `es_params`, or the exception it raises. */
  function Written(key: string, value: Value, params: Dict): Result<(string, Value), PyError>
  {
    if key == "number" then
      (match FromValue(value, params) case Ok(v) => Ok(("from", v)) case Err(e) => Err(e))
    else if key == "sort" then
      (match value case StrV(s) => Ok(("sort", StrV(SortSpec(s)))) case _ => Err(AttributeError))
    else Ok((key, value))
  }

  /** One turn of the loop over `params.items()`. */
  function Step(d: Dict, key: string, value: Value, params: Dict): (r: Result<Dict, PyError>)
    requires DistinctKeys(d)
    ensures r.Ok? ==> DistinctKeys(r.value)
  {
    if !Truthy(value) then Ok(d)
    else
      match Written(key, value, params)
      case Err(e) => Err(e)
      case Ok(w) => Ok(Assign(d, w.0, w.1))
  }

  /** The loop over `params.items()`, up to and including `items`' last element. */
  function PreparedItems(items: Dict, params: Dict): (r: Result<Dict, PyError>)
    ensures r.Ok? ==> DistinctKeys(r.value)
    decreases |items|
  {
    if |items| == 0 then Ok([])
    else
      match PreparedItems(items[..|items| - 1], params)
      case Err(e) => Err(e)
      case Ok(d) => Step(d, items[|items| - 1].0, items[|items| - 1].1, params)
  }

  /** `prepare_params_for_search(params)`: `None` or `{}` give `{}`. */
  function Prepared(params: Option<Dict>): Result<Dict, PyError>
  {
    if params.None? then Ok([]) else PreparedItems(params.value, params.value)
  }

  /** Service.prepare_params_for_search. */
  method PrepareParamsForSearch(params: Option<Dict>) returns (r: Result<Dict, PyError>)
    ensures r == Prepared(params)
  {
    var esParams: Dict := [];
    if params.None? || |params.value| == 0 {
      return Ok(esParams);
    }
    var items := params.value;
    var i := 0;
    while i < |items|
      invariant 0 <= i <= |items|
      invariant PreparedItems(items[..i], items) == Ok(esParams)
      invariant DistinctKeys(esParams)
    {
      assert items[..i + 1][..i] == items[..i];
      var next := PrepareItem(esParams, items[i].0, items[i].1, items);
      if next.Err? {
        PreparedErrSticks(items, i + 1, items);
        return next;
      }
      esParams := next.value;
      i := i + 1;
    }
    assert items[..i] == items;
    r := Ok(esParams);
  }

  /** The body of the loop: one parameter's effect on `es_params`. */
  method PrepareItem(esParams: Dict, key: string, value: Value, params: Dict) returns (r: Result<Dict, PyError>)
    requires DistinctKeys(esParams)
    ensures r == Step(esParams, key, value, params)
  {
    if !Truthy(value) {
      return Ok(esParams);
    }
    if key == "number" {
      if !value.IntV? {
        return Err(TypeError);
      }
      var size := Get(params, "size");
      var factor := if size.None? || !Truthy(size.value) then IntV(10) else size.value;
      var pages := value.n - 1;
      var from := if factor.StrV? then StrV(Repeat(factor.s, pages))
                  else IntV(pages * (if factor.IntV? then factor.n else 10));
      return Ok(Assign(esParams, "from", from));
    } else if key == "sort" {
      if !value.StrV? {
        return Err(AttributeError);
      }
      return Ok(Assign(esParams, "sort", StrV(SortSpec(value.s))));
    }
    return Ok(Assign(esParams, key, value));
  }

  /** Once a parameter raises, the rest of the loop never runs. */
  lemma {:induction false} PreparedErrSticks(items: Dict, n: nat, params: Dict)
    requires n <= |items| && PreparedItems(items[..n], params).Err?
    ensures PreparedItems(items, params) == PreparedItems(items[..n], params)
    decreases |items| - n
  {
    if n < |items| {
      assert items[..n + 1][..n] == items[..n];
      PreparedErrSticks(items, n + 1, params);
    } else {
      assert items[..n] == items;
    }
  }

  // ---------------------------------------------------------------- what the translation promises

  /** A parameter that raises: a truthy `number` that is not an `int`, or a truthy `sort` that is an `int`. */
  predicate Raises(key: string, value: Value)
  {
    Truthy(value) && ((key == "number" && !value.IntV?) || (key == "sort" && value.IntV?))
  }

  /** The translation fails exactly when some parameter raises, with the exception of the first that does. */
  lemma {:induction false} PreparedFailsIff(items: Dict, params: Dict)
    ensures PreparedItems(items, params).Err? <==> exists i :: 0 <= i < |items| && Raises(items[i].0, items[i].1)
    ensures PreparedItems(items, params).Err? ==>
      exists i :: 0 <= i < |items| && Raises(items[i].0, items[i].1) &&
        (forall j :: 0 <= j < i ==> !Raises(items[j].0, items[j].1)) &&
        PreparedItems(items, params).error == (if items[i].0 == "number" then TypeError else AttributeError)
    decreases |items|
  {
    if |items| > 0 {
      var prefix := items[..|items| - 1];
      PreparedFailsIff(prefix, params);
      assert forall i :: 0 <= i < |prefix| ==> prefix[i] == items[i];
      if PreparedItems(prefix, params).Err? {
        var i :| 0 <= i < |prefix| && Raises(prefix[i].0, prefix[i].1) &&
          (forall j :: 0 <= j < i ==> !Raises(prefix[j].0, prefix[j].1)) &&
          PreparedItems(prefix, params).error == (if prefix[i].0 == "number" then TypeError else AttributeError);
        assert Raises(items[i].0, items[i].1);
      } else {
        var last := |items| - 1;
        if Raises(items[last].0, items[last].1) {
          assert forall j :: 0 <= j < last ==> !Raises(items[j].0, items[j].1);
        }
      }
    }
  }

  /** The key an entry of `items` writes under, when it writes one. */
  function WrittenKey(key: string): string
  {
    if key == "number" then "from" else key
  }

  /** The value the last writer of `k` among `items` left there: what `es_params[k]` holds. */
  function LastWrite(items: Dict, k: string, params: Dict): Option<Value>
    decreases |items|
  {
    if |items| == 0 then None
    else
      var (key, value) := items[|items| - 1];
      var w := Written(key, value, params);
      if Truthy(value) && w.Ok? && w.value.0 == k then Some(w.value.1)
      else LastWrite(items[..|items| - 1], k, params)
  }

  /** Each key of the translated dict holds what its last writer wrote. */
  lemma {:induction false} PreparedLastWrite(items: Dict, params: Dict, k: string)
    requires PreparedItems(items, params).Ok?
    ensures Get(PreparedItems(items, params).value, k) == LastWrite(items, k, params)
    decreases |items|
  {
    if |items| > 0 {
      PreparedLastWrite(items[..|items| - 1], params, k);
    }
  }

  /** What the parameter `got` under a key `k` other than `'from'` leaves in `es_params[k]`. */
  function OtherWrite(k: string, got: Option<Value>): Option<Value>
  {
    if k == "number" || got.None? || !Truthy(got.value) then None
    else if k != "sort" then got
    else if got.value.StrV? then Some(StrV(SortSpec(got.value.s)))
    else None
  }

  /** Only the entry with key `k` writes any key other than `'from'`; a falsy one writes nothing. */
  lemma {:induction false} LastWriteOther(items: Dict, params: Dict, k: string)
    requires DistinctKeys(items) && k != "from"
    ensures LastWrite(items, k, params) == OtherWrite(k, Get(items, k))
    decreases |items|
  {
    if |items| > 0 {
      var prefix := items[..|items| - 1];
      var last := items[|items| - 1];
      assert DistinctKeys(prefix) by {
        forall i, j | 0 <= i < j < |prefix| ensures prefix[i].0 != prefix[j].0 {
          assert prefix[i] == items[i] && prefix[j] == items[j];
        }
      }
      LastWriteOther(prefix, params, k);
      if last.0 == k {
        assert Get(items, k) == Some(last.1);
        forall i | 0 <= i < |prefix| ensures prefix[i].0 != k {
          assert prefix[i] == items[i];
        }
        assert Get(prefix, k).None?;
      } else {
        assert Get(items, k) == Get(prefix, k);
        var w := Written(last.0, last.1, params);
        assert w.Ok? ==> w.value.0 != k;
        assert LastWrite(items, k, params) == LastWrite(prefix, k, params);
      }
    }
  }

  /**
   * The translation, key by key: falsy parameters are dropped; `number` is not
   * copied; `sort` becomes its `field:order` form; every other truthy
   * parameter is copied unchanged.
   */
  lemma PreparedEntries(params: Dict, k: string)
    requires DistinctKeys(params) && Prepared(Some(params)).Ok? && k != "from"
    ensures var d := Prepared(Some(params)).value;
      && (k == "number" ==> Get(d, k).None?)
      && (k == "sort" ==> Get(d, k) == (match Get(params, k) case Some(StrV(s)) => if s == "" then None else Some(StrV(SortSpec(s))) case _ => None))
      && (k != "number" && k != "sort" ==> Get(d, k) == (match Get(params, k) case Some(v) => if Truthy(v) then Some(v) else None case None => None))
  {
    PreparedLastWrite(params, params, k);
    LastWriteOther(params, params, k);
  }

  /** Only `number` writes `'from'` when the parameters have no `'from'` of their own. */
  lemma {:induction false} LastWriteFrom(items: Dict, params: Dict)
    requires DistinctKeys(items) && !HasKey(items, "from")
    ensures LastWrite(items, "from", params) ==
      match Get(items, "number")
      case Some(v) => if Truthy(v) && FromValue(v, params).Ok? then Some(FromValue(v, params).value) else None
      case None => None
    decreases |items|
  {
    if |items| > 0 {
      var prefix := items[..|items| - 1];
      assert DistinctKeys(prefix);
      assert forall i :: 0 <= i < |prefix| ==> prefix[i].0 != "from" by {
        forall i | 0 <= i < |prefix| ensures prefix[i].0 != "from" {
          assert prefix[i] == items[i];
        }
      }
      LastWriteFrom(prefix, params);
      if items[|items| - 1].0 == "number" {
        assert forall i :: 0 <= i < |prefix| ==> prefix[i].0 != "number" by {
          forall i | 0 <= i < |prefix| ensures prefix[i].0 != "number" {
            assert prefix[i] == items[i];
          }
        }
      }
    }
  }

  /** A truthy `number` becomes `from = (number - 1) * (size or 10)`. */
  lemma PreparedFrom(params: Dict, number: int, size: int)
    requires DistinctKeys(params) && !HasKey(params, "from")
    requires Get(params, "number") == Some(IntV(number)) && number != 0
    requires (Get(params, "size") == Some(IntV(size)) && size != 0) || (size == 10 && (Get(params, "size").None? || !Truthy(Get(params, "size").value)))
    requires Prepared(Some(params)).Ok?
    ensures Get(Prepared(Some(params)).value, "from") == Some(IntV((number - 1) * size))
  {
    PreparedLastWrite(params, params, "from");
    LastWriteFrom(params, params);
  }

  // ---------------------------------------------------------------- the cache key

  /** Python's `str` of a value. */
  function Str(v: Value): string
  {
    match v
    case NoneV => "None"
    case IntV(n) => if n < 0 then "-" + Text.Render(-n) else Text.Render(n)
    case StrV(s) => s
  }

  function ParamPairs(params: Dict): (pairs: seq<string>)
    ensures |pairs| == |params|
  {
    seq(|params|, i requires 0 <= i < |params| => params[i].0 + "=" + Str(params[i].1))
  }

  /** `'_'.join((index, ';'.join(f'{k}={v}' ...), str(body)))`. */
  function CacheKey(index: string, params: Dict, body: Option<string>): string
  {
    index + "_" + Text.Join(ParamPairs(params), ";") + "_" + (if body.None? then "None" else body.value)
  }

  /** The index is what precedes the first `_` of the key: each index has its own keys. */
  lemma CacheKeyIndex(index: string, params: Dict, body: Option<string>)
    requires '_' !in index
    ensures Text.Split(CacheKey(index, params, body), '_')[0] == index
  {
    var rest := "_" + Text.Join(ParamPairs(params), ";") + "_" + (if body.None? then "None" else body.value);
    assert CacheKey(index, params, body) == index + rest;
    Text.SplitFree(index, rest, '_');
    assert rest[1..] == Text.Join(ParamPairs(params), ";") + "_" + (if body.None? then "None" else body.value);
    assert Text.Split(rest, '_')[0] == "";
  }

  /** Searches over two different indices never share a cache entry. */
  lemma CacheKeysSeparateIndices(i1: string, i2: string, p1: Dict, p2: Dict, b1: Option<string>, b2: Option<string>)
    requires '_' !in i1 && '_' !in i2 && i1 != i2
    ensures CacheKey(i1, p1, b1) != CacheKey(i2, p2, b2)
  {
    CacheKeyIndex(i1, p1, b1);
    CacheKeyIndex(i2, p2, b2);
  }

  // ---------------------------------------------------------------- cache-aside

  /** The Redis cache as RedisCacheExecutor sees it: single items by id, result lists by search key. */
  class RedisCache {
    var items: map<string, Document>
    var lists: map<string, seq<Document>>

    constructor (items: map<string, Document>, lists: map<string, seq<Document>>)
      ensures this.items == items && this.lists == lists
    {
      this.items := items;
      this.lists := lists;
    }

    /** `item_from_cache`: `None` when the key holds nothing. */
    method ItemFromCache(id: string) returns (item: Option<Document>)
      ensures item == if id in items then Some(items[id]) else None
    {
      item := if id in items then Some(items[id]) else None;
    }

    /** `put_item_to_cache`: stored under the item's own `id`. */
    method PutItem(item: Document)
      modifies this
      ensures items == old(items)[item.DocId() := item] && lists == old(lists)
    {
      items := items[item.DocId() := item];
    }

    /** `items_from_cache`. */
    method ItemsFromCache(key: string) returns (cached: Option<seq<Document>>)
      ensures cached == if key in lists then Some(lists[key]) else None
    {
      cached := if key in lists then Some(lists[key]) else None;
    }

    /** `put_items_to_cache`. */
    method PutItems(key: string, models: seq<Document>)
      modifies this
      ensures lists == old(lists)[key := models] && items == old(items)
    {
      lists := lists[key := models];
    }
  }

  /** What `get_by_id` returns and leaves in the item cache; `indexed` is the Elasticsearch index by `_id`. */
  function GetByIdStep(cache: map<string, Document>, indexed: map<string, Document>, id: string): (Option<Document>, map<string, Document>)
  {
    if id in cache then (Some(cache[id]), cache)
    else if id !in indexed then (None, cache)
    else (Some(indexed[id]), cache[indexed[id].DocId() := indexed[id]])
  }

  /** A document found through a miss is served from the cache next time, without Elasticsearch. */
  lemma GetByIdWarms(cache: map<string, Document>, indexed: map<string, Document>, indexed2: map<string, Document>, id: string)
    requires id in indexed && indexed[id].DocId() == id
    ensures var (first, after) := GetByIdStep(cache, indexed, id);
      GetByIdStep(after, indexed2, id) == (first, after)
  {
  }

  /** A lookup never changes what the cache holds under a key it already held. */
  lemma GetByIdKeepsHits(cache: map<string, Document>, indexed: map<string, Document>, id: string, k: string)
    requires k in cache
    ensures k in GetByIdStep(cache, indexed, id).1 && (GetByIdStep(cache, indexed, id).1[k] == cache[k] || (id !in cache && k == indexed[id].DocId()))
  {
  }

  /** What `get_all_from_elastic` returns and leaves in the list cache; `hits` is what the search finds. */
  function GetAllStep(lists: map<string, seq<Document>>, index: string, params: Option<Dict>, body: Option<string>,
                      hits: seq<Document>): (Result<seq<Document>, PyError>, map<string, seq<Document>>)
  {
    match Prepared(params)
    case Err(e) => (Err(e), lists)
    case Ok(p) =>
      var key := CacheKey(index, p, body);
      if key in lists && |lists[key]| > 0 then (Ok(lists[key]), lists)
      else (Ok(hits), lists[key := hits])
  }

  /**
   * The same search twice: the second is served from the cache when the first
   * found something; an empty result is cached but counts as a miss, so the
   * search runs again.
   */
  lemma GetAllRepeats(lists: map<string, seq<Document>>, index: string, params: Option<Dict>, body: Option<string>,
                      hits: seq<Document>, hits2: seq<Document>)
    requires Prepared(params).Ok?
    ensures var (first, after) := GetAllStep(lists, index, params, body, hits);
      var (second, _) := GetAllStep(after, index, params, body, hits2);
      && first.Ok?
      && (|first.value| > 0 ==> second == first)
      && (|first.value| == 0 ==> second == Ok(hits2))
  {
  }

  /** A service over one index, with the cache it reads through. */
  class Service {
    const index: string
    const cache: RedisCache

    constructor (index: string, cache: RedisCache)
      ensures this.index == index && this.cache == cache
    {
      this.index := index;
      this.cache := cache;
    }

    /** `get_by_id`: the cache first, then Elasticsearch, whose hit is cached. */
    method GetById(id: string, indexed: map<string, Document>) returns (item: Option<Document>)
      modifies cache
      ensures (item, cache.items) == GetByIdStep(old(cache.items), indexed, id)
      ensures cache.lists == old(cache.lists)
    {
      item := cache.ItemFromCache(id);
      if item.None? {
        item := if id in indexed then Some(indexed[id]) else None;
        if item.None? {
          return None;
        }
        cache.PutItem(item.value);
      }
    }

    /** `get_all_from_elastic`: the search result cached under the search's key. */
    method GetAllFromElastic(body: Option<string>, params: Option<Dict>, hits: seq<Document>) returns (r: Result<seq<Document>, PyError>)
      modifies cache
      ensures (r, cache.lists) == GetAllStep(old(cache.lists), index, params, body, hits)
      ensures cache.items == old(cache.items)
    {
      var prepared := PrepareParamsForSearch(params);
      if prepared.Err? {
        return Err(prepared.error);
      }
      var key := CacheKey(index, prepared.value, body);
      var cached := cache.ItemsFromCache(key);
      if cached.None? || |cached.value| == 0 {
        cache.PutItems(key, hits);
        return Ok(hits);
      }
      return Ok(cached.value);
    }
  }
}
