/** The entry store of js/wpisyStore.js: a single object holding a backend
    client handle and an in-memory list of journal rows, mirrored to the
    offline cache under the fixed key "wpisy_cache". The backend's answers
    are parameters of each operation. */
module EntryStore {
  import opened JsValues
  import opened JsonText
  import opened Offline

  const CacheKey := "wpisy_cache"
  const NoClientMsg := "WpisyStore: brak supabase"
  const NoUserMsg := "Brak zalogowanego użytkownika"
  /** The TypeError spreading a value that is not iterable throws (the exact
      wording is the JavaScript engine's). */
  const NotIterableMsg := "TypeError: not iterable"

  /** The backend client handed to `init`. */
  datatype Client = Client(url: string)

  /** What a backend query answers: an error, which the store rethrows, or
      its data. */
  datatype Reply = Failure(message: string) | Rows(data: Json)

  /** `userRes?.user?.id` names a user: it is present and not empty. */
  predicate HasUserId(user: Option<string>) {
    user.Some? && user.value != ""
  }

  /** `[...v]`: the elements of an array, or the characters of a string
      as one-character strings; anything else is not iterable. */
  function Spread(v: Json): (r: Option<seq<Json>>)
    ensures r.Some? <==> v.JArr? || v.JStr?
    ensures v.JArr? ==> r == Some(v.items)
    ensures v.JStr? ==> r.Some? && |r.value| == |v.s|
  {
    match v
    case JArr(items) => Some(items)
    case JStr(s) => Some(seq(|s|, i requires 0 <= i < |s| => JStr([s[i]])))
    case _ => None
  }

  /** The row `add` sends: the user id, then `nastroj` and `opis` when they
      are defined, then `data_wpisu` only when it is truthy. */
  function AddPayload(userId: string, nastroj: Value, opis: Value, dataWpisu: Value): (p: Json)
    ensures p.JObj? && p.members != [] && p.members[0] == Member("user_id", JStr(userId))
    ensures Property(p, "data_wpisu").Some? <==> dataWpisu.Val? && Truthy(dataWpisu.v)
    ensures Property(p, "data_wpisu").Some? ==> Property(p, "data_wpisu") == Some(dataWpisu.v)
  {
    var fields :=
      [Member("user_id", JStr(userId))]
      + (if nastroj.Val? then [Member("nastroj", nastroj.v)] else [])
      + (if opis.Val? then [Member("opis", opis.v)] else [])
      + (if dataWpisu.Val? && Truthy(dataWpisu.v) then [Member("data_wpisu", dataWpisu.v)] else []);
    assert fields[0] == Member("user_id", JStr(userId));
    JObj(fields)
  }

  class WpisyStore {
    var client: Option<Client>
    var wpisy: Json
    const storage: LocalStorage

    /** Loading the module: no client yet, and the list is what the cache
        holds under "wpisy_cache", or `[]`. */
    constructor(storage: LocalStorage)
      ensures this.storage == storage && client == None
      ensures wpisy == CacheGet(storage.items, CacheKey, JArr([]))
    {
      this.storage := storage;
      client := None;
      wpisy := CacheGet(storage.items, CacheKey, JArr([]));
    }

    /** `init({ supabase })` */
    method Init(c: Client)
      modifies this
      ensures client == Some(c) && wpisy == old(wpisy)
    {
      client := Some(c);
    }

    /** `getAll()`: the list as the last load, fetch or add left it. */
    function GetAll(): (r: Json)
      reads this
      ensures r == wpisy
    {
      wpisy
    }

    /** `fetchMine()`, given the user the backend reports and its answer to
        the select. */
    method FetchMine(user: Option<string>, reply: Reply) returns (r: Result<Json>)
      modifies this, storage
      ensures client == old(client)
      ensures old(client).None? ==> r == Err(NoClientMsg)
      ensures old(client).Some? && !HasUserId(user) ==> r == Ok(JArr([]))
      ensures old(client).Some? && HasUserId(user) && reply.Failure? ==> r == Err(reply.message)
      ensures old(client).None? || !HasUserId(user) || reply.Failure? ==>
        wpisy == old(wpisy) && storage.items == old(storage.items)
      ensures old(client).Some? && HasUserId(user) && reply.Rows? ==>
        var list := if reply.data.JNull? then JArr([]) else reply.data;
        && r == Ok(list) && wpisy == list
        && storage.items == old(storage.items)[CacheKey := StoredText(Val(list))]
        && CacheGet(storage.items, CacheKey) == list
    {
      if client.None? {
        return Err(NoClientMsg);
      }
      if !HasUserId(user) {
        return Ok(JArr([]));
      }
      match reply
      case Failure(msg) =>
        return Err(msg);
      case Rows(data) =>
        wpisy := if data.JNull? then JArr([]) else data;
        storage.CacheSet(CacheKey, Val(wpisy));
        CacheGetAfterSet(old(storage.items), CacheKey, wpisy, JNull);
        return Ok(wpisy);
    }

    /** `add({ nastroj, opis, data_wpisu })`, given the user the backend
        reports and the backend's answer to inserting a payload. */
    method Add(nastroj: Value, opis: Value, dataWpisu: Value, user: Option<string>, insert: Json -> Reply)
      returns (r: Result<Json>)
      modifies this, storage
      ensures client == old(client)
      ensures old(client).None? ==> r == Err(NoClientMsg)
      ensures old(client).Some? && !HasUserId(user) ==> r == Err(NoUserMsg)
      ensures old(client).Some? && HasUserId(user) ==>
        var reply := insert(AddPayload(user.value, nastroj, opis, dataWpisu));
        && (reply.Failure? ==> r == Err(reply.message))
        && (reply.Rows? && Spread(old(wpisy)).None? ==> r == Err(NotIterableMsg))
        && (reply.Rows? && Spread(old(wpisy)).Some? ==>
              && r == Ok(reply.data)
              && wpisy == JArr([reply.data] + Spread(old(wpisy)).value)
              && storage.items == old(storage.items)[CacheKey := StoredText(Val(wpisy))]
              && CacheGet(storage.items, CacheKey) == wpisy)
      ensures r.Err? ==> wpisy == old(wpisy) && storage.items == old(storage.items)
    {
      if client.None? {
        return Err(NoClientMsg);
      }
      if !HasUserId(user) {
        return Err(NoUserMsg);
      }
      var payload := AddPayload(user.value, nastroj, opis, dataWpisu);
      match insert(payload)
      case Failure(msg) =>
        return Err(msg);
      case Rows(row) =>
        match Spread(wpisy)
        case None =>
          return Err(NotIterableMsg);
        case Some(items) =>
          wpisy := JArr([row] + items);
          storage.CacheSet(CacheKey, Val(wpisy));
          CacheGetAfterSet(old(storage.items), CacheKey, wpisy, JNull);
          return Ok(row);
    }
  }

  /** A successful `add` survives a reload: a store created over the same
      storage afterwards starts with the new list, the added row first. */
  lemma ReloadAfterAdd(items: map<string, string>, row: Json, previous: seq<Json>)
    ensures CacheGet(items[CacheKey := StoredText(Val(JArr([row] + previous)))], CacheKey, JArr([]))
            == JArr([row] + previous)
  {
    CacheGetAfterSet(items, CacheKey, JArr([row] + previous), JArr([]));
  }
}
