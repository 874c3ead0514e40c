/**
 * The checkpoint store: one Redis hash named `postgresql_films` holding the
 * fields `last_update` (the cursor text) and `can_start_ETL` (the run flag).
 */
module RedisStorage {

  /** A Redis hash, and the dictionary `retrieve_state` returns: field -> value. */
  type State = map<string, string>

  /** The single Redis key under which all pipeline state lives. */
  const R_HASH: string := "postgresql_films"

  /** The field names of `models.State`. */
  const LAST_UPDATE: string := "last_update"
  const CAN_START: string := "can_start_ETL"

  /** `State(last_update=..., can_start_ETL=...).dict()`: exactly the two fields. */
  function StateDict(lastUpdate: string, canStart: string): (fields: State)
    ensures fields.Keys == {LAST_UPDATE, CAN_START}
    ensures fields[LAST_UPDATE] == lastUpdate && fields[CAN_START] == canStart
  {
    map[LAST_UPDATE := lastUpdate, CAN_START := canStart]
  }

  /** HMSET: the given fields overwrite, every other field keeps its value. */
  function Merge(current: State, fields: State): (r: State)
    ensures r.Keys == current.Keys + fields.Keys
    ensures forall k :: k in fields ==> r[k] == fields[k]
    ensures forall k :: k in current && k !in fields ==> r[k] == current[k]
  {
    current + fields
  }

  /** Saving the same fields twice is the same as saving them once. */
  lemma MergeIdempotent(current: State, fields: State)
    ensures Merge(Merge(current, fields), fields) == Merge(current, fields)
  {
  }

  /** Saving fields that repeat stored values changes nothing. */
  lemma MergeStoredValues(current: State, fields: State)
    requires forall k :: k in fields ==> k in current && current[k] == fields[k]
    ensures Merge(current, fields) == current
  {
  }

  /** HGETALL: a missing key reads as an empty hash. */
  function HashAt(server: map<string, State>, name: string): State
  {
    if name in server then server[name] else map[]
  }

  /** The Redis server as the storage sees it, and the two calls the pipeline makes on it. */
  class RedisStorage {
    /** The whole Redis key space: key -> hash. */
    var server: map<string, State>

    constructor (server: map<string, State>)
      ensures this.server == server
    {
      this.server := server;
    }

    /** The hash the pipeline keeps its state in. */
    function Stored(): State
      reads this
    {
      HashAt(server, R_HASH)
    }

    /** `save_state`: HMSET of `state` into `postgresql_films`; redis-py refuses an empty mapping. */
    method SaveState(state: State)
      requires |state| > 0
      modifies this
      ensures server == old(server)[R_HASH := Merge(old(Stored()), state)]
      ensures Stored() == Merge(old(Stored()), state)
    {
      var current := HashAt(server, R_HASH);
      server := server[R_HASH := current + state];
    }

    /** `retrieve_state`: the stored hash, `{}` when it is missing or empty. */
    method RetrieveState() returns (state: State)
      ensures state == Stored()
      ensures state == map[] <==> (R_HASH !in server || server[R_HASH] == map[])
    {
      var data := if R_HASH in server then server[R_HASH] else map[];
      if |data| == 0 {
        return map[];
      }
      return data;
    }
  }
}
