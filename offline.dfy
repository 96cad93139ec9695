/** The key-value cache over the browser's `localStorage` (js/offline.js):
    values are kept as JSON text, and text that is missing or does not parse
    reads back as a fallback instead of an error. */
module Offline {
  import opened JsValues
  import opened JsonText

  /** What a caller can hand to `cacheSet`: a JSON-representable value, or
      `undefined`, for which `JSON.stringify` produces no text and
      `localStorage.setItem` stores the word "undefined". */
  datatype Value = Undefined | Val(v: Json)

  /** The text `localStorage.setItem(key, JSON.stringify(value))` stores:
      it parses back to the value itself, or not at all for `undefined`. */
  function StoredText(value: Value): (t: string)
    ensures value.Val? ==> Parse(t) == Some(value.v)
    ensures value.Undefined? ==> Parse(t) == None
  {
    match value
    case Undefined =>
      var u := "undefined";
      assert u[..4][0] == 'u' && u[..5][0] == 'u';
      "undefined"
    case Val(v) =>
      ParseStringify(v);
      Stringify(v)
  }

  /** `localStorage`: a map from keys to the strings stored under them. */
  class LocalStorage {
    var items: map<string, string>

    constructor(initial: map<string, string>)
      ensures items == initial
    {
      items := initial;
    }

    /** `cacheSet(key, value)`: the last write under `key` wins, and every
        other key keeps its text. */
    method CacheSet(key: string, value: Value)
      modifies this
      ensures items == old(items)[key := StoredText(value)]
      ensures forall k :: k in old(items) && k != key ==> k in items && items[k] == old(items)[k]
    {
      items := items[key := StoredText(value)];
    }
  }

  /** `cacheGet(key, fallback)` on the contents `items` of the store: the
      parsed text under `key`, or the fallback (default `null`) when the key
      is missing or its text is not JSON. It never fails. */
  function CacheGet(items: map<string, string>, key: string, fallback: Json := JNull): (r: Json)
    ensures key !in items ==> r == fallback
    ensures key in items && Parse(items[key]).None? ==> r == fallback
    ensures key in items && Parse(items[key]).Some? ==> r == Parse(items[key]).value
  {
    if key !in items then fallback
    else
      match Parse(items[key])
      case None => fallback
      case Some(v) => v
  }

  /** Writing a JSON value and reading it back gives that value, whatever
      the fallback; in particular a stored `null` reads back as `null`. */
  lemma CacheGetAfterSet(items: map<string, string>, key: string, v: Json, fallback: Json)
    ensures CacheGet(items[key := StoredText(Val(v))], key, fallback) == v
  {
  }

  /** Text that does not parse, such as what `cacheSet(key, undefined)`
      leaves, reads back as the fallback. */
  lemma CacheGetAfterSetUndefined(items: map<string, string>, key: string, fallback: Json)
    ensures CacheGet(items[key := StoredText(Undefined)], key, fallback) == fallback
  {
  }

  /** A write under one key does not change what another key reads. */
  lemma CacheGetOtherKey(items: map<string, string>, key: string, value: Value, other: string, fallback: Json)
    requires other != key
    ensures CacheGet(items[key := StoredText(value)], other, fallback) == CacheGet(items, other, fallback)
  {
  }
}
