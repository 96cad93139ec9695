/** The hash router of js/router.js: a table from paths to views, last
    registration winning, and the fragment of the page URL
    (`location.hash`) from which the current path is read. */
module HashRouter {
  import opened JsValues

  /** A path as `navigate` and the fragment reader normalise it: with a
      leading `/` added when it is missing. */
  function NormalizePath(p: string): (q: string)
    ensures StartsWith(q, "/")
    ensures StartsWith(p, "/") ==> q == p
    ensures !StartsWith(p, "/") ==> q == "/" + p
  {
    if StartsWith(p, "/") then p else "/" + p
  }

  /** `getPathFromHash()` on the value `hash` of `location.hash`: the empty
      fragment is `/`, and the `#` is dropped before normalising. */
  function PathFromHash(hash: string): (p: string)
    ensures StartsWith(p, "/")
    ensures hash == "" ==> p == "/"
    ensures forall q :: hash == "#" + q ==> p == NormalizePath(q)
  {
    var raw := if hash == "" then "#/" else hash;
    var p := if StartsWith(raw, "#") then raw[1..] else raw;
    assert forall q :: hash == "#" + q ==> p == q;
    NormalizePath(p)
  }

  /** Normalising twice is normalising once. */
  lemma NormalizeIdempotent(p: string)
    ensures NormalizePath(NormalizePath(p)) == NormalizePath(p)
  {
  }

  /** `#login` and `#/login` name the same path, `/login`. */
  lemma HashWithOrWithoutSlash(name: string)
    requires !StartsWith(name, "/")
    ensures PathFromHash("#" + name) == PathFromHash("#/" + name) == "/" + name
  {
    assert "#/" + name == "#" + ("/" + name);
    assert StartsWith("/" + name, "/");
  }

  /** Which route `handle` runs for `path`: the one registered for exactly
      that path, else the one registered for `/404`, else none. */
  function Lookup<V>(routes: map<string, V>, path: string): (r: Option<V>)
    ensures path in routes ==> r == Some(routes[path])
    ensures path !in routes && "/404" in routes ==> r == Some(routes["/404"])
    ensures r.None? <==> path !in routes && "/404" !in routes
  {
    if path in routes then Some(routes[path])
    else if "/404" in routes then Some(routes["/404"])
    else None
  }

  /** After registering `view` under `path`, looking `path` up yields it,
      whatever was registered there before; any other path registered
      before yields what it did. */
  lemma LookupAfterRegister<V>(routes: map<string, V>, path: string, view: V, other: string)
    ensures Lookup(routes[path := view], path) == Some(view)
    ensures other != path && other in routes ==> Lookup(routes[path := view], other) == Lookup(routes, other)
  {
  }

  class Router<V> {
    var routes: map<string, V>
    var hash: string

    /** An empty table, on a page whose URL has the fragment `hash`. */
    constructor(hash: string)
      ensures routes == map[] && this.hash == hash
    {
      routes := map[];
      this.hash := hash;
    }

    /** `registerRoute(path, view)` */
    method RegisterRoute(path: string, view: V)
      modifies this
      ensures routes == old(routes)[path := view] && hash == old(hash)
    {
      routes := routes[path := view];
    }

    /** `navigate(path)`: the fragment becomes `#` and the normalised path,
        so that reading the path back gives the normalised path. */
    method Navigate(path: string)
      modifies this
      ensures hash == "#" + NormalizePath(path) && routes == old(routes)
      ensures PathFromHash(hash) == NormalizePath(path)
    {
      hash := "#" + NormalizePath(path);
    }

    /** The lookup `handle` performs on the current fragment; the view it
        finds is what `handle` then runs. */
    method Handle() returns (view: Option<V>)
      ensures view == Lookup(routes, PathFromHash(hash))
    {
      var path := PathFromHash(hash);
      if path in routes {
        view := Some(routes[path]);
      } else if "/404" in routes {
        view := Some(routes["/404"]);
      } else {
        view := None;
      }
    }
  }
}
