/**
 * The caching service worker (static/sw.js): a request classifier, and the
 * install, activate and fetch handlers acting on the browser's named cache
 * partitions. Network results are inputs; the partitions are a class whose
 * fields the handlers update.
 */
module ServiceWorker {
  import opened Wrappers
  import opened Strings

  /** Declared but never opened; activation deletes any partition of this name. */
  const CacheName: string := "techsci-blog-v1.0.0"
  const StaticCache: string := "techsci-static-v1.0.0"
  const DynamicCache: string := "techsci-dynamic-v1.0.0"

  /** The manifest fetched at install time; '/' is its first entry. */
  const StaticAssets: seq<string> := [
    "/",
    "/css/style.css",
    "/css/chatbot.css",
    "/js/app.js",
    "/js/chatbot.js",
    "/js/comments.js",
    "/logo.svg",
    "https://fonts.googleapis.com/css2?family=Inter:wght@300;400;500;600;700&display=swap",
    "https://cdnjs.cloudflare.com/ajax/libs/font-awesome/6.4.0/css/all.min.css"
  ]

  /** The parts of a parsed request URL the worker looks at (a request URL carries no fragment). */
  datatype Url = Url(origin: string, pathname: string, search: string)
  {
    /** `url.href`: origin, path and query string. */
    function Href(): string { origin + pathname + search }

    /** Every http(s) URL has a path that starts with '/'. */
    predicate WellFormed() { IsPrefix("/", pathname) }
  }

  datatype Request = Request(verb: string, url: Url)

  datatype Response = Response(status: int, body: string)

  datatype Strategy = Passthrough | CacheFirst | NetworkFirst

  /** What the fetch handler hands to the browser. */
  datatype Reply =
    | NotIntercepted            // the handler returned without calling respondWith
    | Respond(response: Response)
    | Undefined                 // respondWith was given a promise of undefined
    | NetworkError              // respondWith was given a rejected promise

  /** The four conditions under which the worker does not intercept (sw.js lines 59-62). */
  predicate IsPassthrough(u: Url, selfOrigin: string)
  {
    u.origin != selfOrigin
    || IsPrefix("/api/", u.pathname)
    || Contains(u.pathname, "/admin/")
    || Contains(u.search, "nocache")
  }

  /** `STATIC_ASSETS.some(asset => url.href.includes(asset))`. */
  predicate IsStaticAsset(href: string)
  {
    exists i :: 0 <= i < |StaticAssets| && Contains(href, StaticAssets[i])
  }

  /** The decision the fetch handler takes for a request URL. */
  function Classify(u: Url, selfOrigin: string): (r: Strategy)
    ensures r == Passthrough <==> IsPassthrough(u, selfOrigin)
    ensures r == CacheFirst <==> !IsPassthrough(u, selfOrigin) && IsStaticAsset(u.Href())
  {
    if IsPassthrough(u, selfOrigin) then Passthrough
    else if IsStaticAsset(u.Href()) then CacheFirst
    else NetworkFirst
  }

  /**
   * '/' is a manifest entry and every well-formed href contains '/', so no
   * request ever takes the network-first branch.
   */
  lemma NetworkFirstUnreachable(u: Url, selfOrigin: string)
    requires u.WellFormed()
    ensures Classify(u, selfOrigin) != NetworkFirst
    ensures !IsPassthrough(u, selfOrigin) ==> Classify(u, selfOrigin) == CacheFirst
  {
    var h := u.Href();
    assert h[|u.origin|..|u.origin| + 1] == u.pathname[..1] == "/";
    assert OccursAt(h, StaticAssets[0], |u.origin|);
    assert Contains(h, StaticAssets[0]);
  }

  /** The cache key of a manifest entry: relative entries resolve against the worker's origin. */
  function AssetUrl(asset: string, selfOrigin: string): string
  {
    if IsPrefix("https://", asset) then asset else selfOrigin + asset
  }

  /** `Cache.addAll` and `Cache.put` refuse error statuses and partial content. */
  predicate AddAllAccepts(r: Response) { 200 <= r.status <= 299 && r.status != 206 }

  /** `Cache.put` rejects a request whose method is not GET, and a 206 response. */
  predicate PutAccepts(req: Request, r: Response) { req.verb == "GET" && r.status != 206 }

  /** No name occurs twice. */
  predicate Distinct(names: seq<string>)
  {
    forall i, j :: 0 <= i < j < |names| ==> names[i] != names[j]
  }

  /** `caches.match`: the first partition, in creation order, holding the key. */
  function MatchIn(names: seq<string>, parts: map<string, map<string, Response>>, key: string): (r: Option<Response>)
    requires forall n :: n in names ==> n in parts
    ensures r.Some? <==> exists i :: 0 <= i < |names| && key in parts[names[i]]
    ensures r.Some? ==> exists i :: 0 <= i < |names| && key in parts[names[i]] && r.value == parts[names[i]][key]
                                  && forall j :: 0 <= j < i ==> key !in parts[names[j]]
  {
    if |names| == 0 then None
    else if key in parts[names[0]] then Some(parts[names[0]][key])
    else
      var r := MatchIn(names[1..], parts, key);
      assert forall i :: 1 <= i < |names| ==> names[i] == names[1..][i - 1];
      r
  }

  /** The browser's CacheStorage for this origin: named partitions, each mapping a request URL to a response. */
  class CacheStorage {
    /** Partition names in creation order (the order `caches.keys()` and `caches.match` use). */
    var names: seq<string>
    var parts: map<string, map<string, Response>>

    ghost predicate Valid()
      reads this
    {
      Distinct(names) && (forall n :: n in names <==> n in parts)
    }

    constructor ()
      ensures Valid() && names == [] && parts == map[]
    {
      names := [];
      parts := map[];
    }

    /** `caches.match(request)`; a non-GET request never matches. */
    function Match(req: Request): (r: Option<Response>)
      reads this
      requires Valid()
      ensures r.Some? ==> req.verb == "GET"
                          && exists n :: n in parts && req.url.Href() in parts[n] && r.value == parts[n][req.url.Href()]
      ensures req.verb == "GET" && (exists n :: n in parts && req.url.Href() in parts[n]) ==> r.Some?
    {
      if req.verb != "GET" then None else MatchIn(names, parts, req.url.Href())
    }

    /** `caches.open(name)`: creates an empty partition when none exists. */
    method Open(name: string)
      requires Valid()
      modifies this
      ensures Valid()
      ensures name in old(parts) ==> names == old(names) && parts == old(parts)
      ensures name !in old(parts) ==> names == old(names) + [name] && parts == old(parts)[name := map[]]
    {
      if name !in parts {
        names := names + [name];
        parts := parts[name := map[]];
      }
    }

    /** `cache.put(request, response)` on an open partition; a refused put stores nothing. */
    method Put(name: string, req: Request, r: Response)
      requires Valid() && name in parts
      modifies this
      ensures Valid() && names == old(names)
      ensures PutAccepts(req, r) ==> parts == old(parts)[name := old(parts)[name][req.url.Href() := r]]
      ensures !PutAccepts(req, r) ==> parts == old(parts)
    {
      if PutAccepts(req, r) {
        parts := parts[name := parts[name][req.url.Href() := r]];
      }
    }

    /** `caches.delete(name)`. */
    method Delete(name: string)
      requires Valid()
      modifies this
      ensures Valid()
      ensures parts == old(parts) - {name}
      ensures names == Without(old(names), name)
    {
      WithoutProps(names, name);
      names := Without(names, name);
      parts := parts - {name};
    }

    /** `caches.open(name).then(cache => cache.put(req, r))`, as both fetch strategies write. */
    method OpenAndPut(name: string, req: Request, r: Response)
      requires Valid()
      modifies this
      ensures Valid()
      ensures names == OpenedNames(old(names), old(parts), name)
      ensures parts == PutInto(old(parts), name, req, r)
    {
      ghost var before := if name in parts then parts[name] else map[];
      ghost var after := if PutAccepts(req, r) then before[req.url.Href() := r] else before;
      ghost var expected := parts[name := after];
      Open(name);
      assert parts[name] == before;
      Put(name, req, r);
      assert parts == expected;
    }

    /**
     * Install (sw.js lines 20-33): open the static partition, then `addAll` the
     * manifest. `fetched` holds the network response for each URL that could
     * be fetched. `addAll` is all-or-nothing; its failure is caught and logged,
     * so the install step completes either way and `stored` reports the outcome.
     */
    method Install(selfOrigin: string, fetched: map<string, Response>) returns (stored: bool)
      requires Valid()
      modifies this
      ensures Valid()
      ensures StaticCache in parts
      ensures names == OpenedNames(old(names), old(parts), StaticCache)
      ensures parts.Keys == old(parts).Keys + {StaticCache}
      ensures forall n :: n in old(parts) && n != StaticCache ==> parts[n] == old(parts)[n]
      ensures stored <==> AllFetched(selfOrigin, fetched)
      ensures var before := if StaticCache in old(parts) then old(parts)[StaticCache] else map[];
              parts[StaticCache] == if stored then before + AssetResponses(selfOrigin, fetched) else before
      ensures stored ==> forall i :: 0 <= i < |StaticAssets| ==>
                           AssetUrl(StaticAssets[i], selfOrigin) in parts[StaticCache]
    {
      Open(StaticCache);
      stored := AddAllAssets(selfOrigin, fetched);
      if stored {
        AssetsCovered(selfOrigin, fetched);
      }
    }

    /** `cache.addAll(STATIC_ASSETS)` on the open static partition: all or nothing. */
    method AddAllAssets(selfOrigin: string, fetched: map<string, Response>) returns (stored: bool)
      requires Valid() && StaticCache in parts
      modifies this
      ensures Valid() && names == old(names)
      ensures stored <==> AllFetched(selfOrigin, fetched)
      ensures parts == old(parts)[StaticCache := if stored then old(parts)[StaticCache] + AssetResponses(selfOrigin, fetched)
                                                 else old(parts)[StaticCache]]
    {
      stored := AllFetched(selfOrigin, fetched);
      if stored {
        parts := parts[StaticCache := parts[StaticCache] + AssetResponses(selfOrigin, fetched)];
      }
    }

    /**
     * Activate (sw.js lines 36-51): every partition whose name is neither the
     * static nor the dynamic one is deleted, one name at a time.
     */
    method Activate()
      requires Valid()
      modifies this
      ensures Valid()
      ensures names == Keep(old(names))
      ensures forall n :: n in parts <==> n in old(parts) && (n == StaticCache || n == DynamicCache)
      ensures forall n :: n in parts ==> parts[n] == old(parts)[n]
    {
      var cacheNames := names;
      var i := 0;
      while i < |cacheNames|
        invariant Valid()
        invariant 0 <= i <= |cacheNames| && Distinct(cacheNames)
        invariant names == Keep(cacheNames[..i]) + cacheNames[i..]
        invariant forall n :: n in parts ==> n in old(parts) && parts[n] == old(parts)[n]
      {
        PruneAt(cacheNames, i);
        i := i + 1;
      }
      assert cacheNames[..i] == cacheNames;
      KeepMembers(cacheNames);
    }

    /** The body of the activation loop: deletes `cacheNames[i]` unless it is the static or dynamic partition. */
    method PruneAt(cacheNames: seq<string>, i: nat)
      requires Valid() && Distinct(cacheNames) && i < |cacheNames|
      requires names == Keep(cacheNames[..i]) + cacheNames[i..]
      modifies this
      ensures Valid()
      ensures names == Keep(cacheNames[..i + 1]) + cacheNames[i + 1..]
      ensures forall n :: n in parts ==> n in old(parts) && parts[n] == old(parts)[n]
    {
      var name := cacheNames[i];
      ActivateStep(cacheNames, i);
      if name != StaticCache && name != DynamicCache {
        Delete(name);
      }
    }

    /**
     * The fetch handler (sw.js lines 54-98). `network` is the outcome of
     * `fetch(request)`: a response, or None when the promise rejects. The
     * network is consulted only where the source calls `fetch`.
     */
    method HandleFetch(req: Request, selfOrigin: string, network: Option<Response>) returns (reply: Reply)
      requires Valid()
      modifies this
      ensures Valid()
      ensures reply == NotIntercepted <==> IsPassthrough(req.url, selfOrigin)
      ensures reply == NotIntercepted ==> names == old(names) && parts == old(parts)
      // cache-first hit: the cached response, nothing fetched or written
      ensures Classify(req.url, selfOrigin) == CacheFirst && old(Match(req)).Some? ==>
                reply == Respond(old(Match(req)).value) && names == old(names) && parts == old(parts)
      // cache-first miss: the network response is returned and kept in the static partition
      ensures Classify(req.url, selfOrigin) == CacheFirst && old(Match(req)).None? ==>
                reply == (if network.Some? then Respond(network.value) else NetworkError)
                && (network.None? ==> names == old(names) && parts == old(parts))
                && (network.Some? ==> names == OpenedNames(old(names), old(parts), StaticCache)
                                      && parts == PutInto(old(parts), StaticCache, req, network.value))
      // network-first: only a 200 is kept, in the dynamic partition; a rejection falls back to the cache
      ensures Classify(req.url, selfOrigin) == NetworkFirst ==>
                reply == (if network.Some? then Respond(network.value)
                          else if old(Match(req)).Some? then Respond(old(Match(req)).value) else Undefined)
                && (network.None? || network.value.status != 200 ==> names == old(names) && parts == old(parts))
                && (network.Some? && network.value.status == 200 ==>
                      names == OpenedNames(old(names), old(parts), DynamicCache)
                      && parts == PutInto(old(parts), DynamicCache, req, network.value))
    {
      if IsPassthrough(req.url, selfOrigin) {
        return NotIntercepted;
      }
      if IsStaticAsset(req.url.Href()) {
        var cached := Match(req);
        if cached.Some? {
          return Respond(cached.value);
        }
        if network.None? {
          return NetworkError;
        }
        OpenAndPut(StaticCache, req, network.value);
        reply := Respond(network.value);
      } else {
        if network.Some? {
          if network.value.status == 200 {
            OpenAndPut(DynamicCache, req, network.value);
          }
          reply := Respond(network.value);
        } else {
          var cached := Match(req);
          reply := if cached.Some? then Respond(cached.value) else Undefined;
        }
      }
    }
  }

  /** Every manifest URL was fetched with a status `addAll` accepts. */
  predicate AllFetched(selfOrigin: string, fetched: map<string, Response>)
  {
    forall i :: 0 <= i < |StaticAssets| ==>
      AssetUrl(StaticAssets[i], selfOrigin) in fetched && AddAllAccepts(fetched[AssetUrl(StaticAssets[i], selfOrigin)])
  }

  /** When every manifest URL was fetched, `addAll` stores a response for each of them. */
  lemma AssetsCovered(selfOrigin: string, fetched: map<string, Response>)
    requires AllFetched(selfOrigin, fetched)
    ensures forall i :: 0 <= i < |StaticAssets| ==> AssetUrl(StaticAssets[i], selfOrigin) in AssetResponses(selfOrigin, fetched)
  {
    forall i | 0 <= i < |StaticAssets|
      ensures AssetUrl(StaticAssets[i], selfOrigin) in AssetResponses(selfOrigin, fetched)
    {
      assert AssetUrl(StaticAssets[i], selfOrigin) in (set j | 0 <= j < |StaticAssets| :: AssetUrl(StaticAssets[j], selfOrigin));
    }
  }

  /** The responses `addAll` stores, keyed by the resolved manifest URLs. */
  function AssetResponses(selfOrigin: string, fetched: map<string, Response>): map<string, Response>
  {
    map u | u in (set i | 0 <= i < |StaticAssets| :: AssetUrl(StaticAssets[i], selfOrigin)) && u in fetched :: fetched[u]
  }

  /** The creation order after `caches.open(name)`: a new name goes last. */
  function OpenedNames(names: seq<string>, parts: map<string, map<string, Response>>, name: string): (r: seq<string>)
    ensures |names| <= |r| <= |names| + 1 && r[..|names|] == names
    ensures forall n :: n in r <==> n in names || (n == name && name !in parts)
  {
    if name in parts then names else names + [name]
  }

  /**
   * The partitions after `caches.open(name)` and `cache.put(req, r)` there: the
   * partition gains the request's href when the put is accepted; nothing else changes.
   */
  function PutInto(parts: map<string, map<string, Response>>, name: string, req: Request, r: Response): (q: map<string, map<string, Response>>)
    ensures q.Keys == parts.Keys + {name}
    ensures forall n :: n in parts && n != name ==> q[n] == parts[n]
    ensures PutAccepts(req, r) ==> req.url.Href() in q[name] && q[name][req.url.Href()] == r
    ensures forall k :: k in q[name] && k != req.url.Href() ==> name in parts && k in parts[name] && q[name][k] == parts[name][k]
    ensures !PutAccepts(req, r) ==> q[name] == (if name in parts then parts[name] else map[])
  {
    var before := if name in parts then parts[name] else map[];
    parts[name := if PutAccepts(req, r) then before[req.url.Href() := r] else before]
  }

  /**
   * What a later `caches.match` sees after a fetch handler's put: every other
   * URL gets the answer it got before, and a URL that no partition held is
   * now answered with the stored response.
   */
  lemma PutThenMatch(names: seq<string>, parts: map<string, map<string, Response>>, name: string,
                     req: Request, r: Response, key: string)
    requires Distinct(names) && forall n :: n in names <==> n in parts
    ensures forall n :: n in OpenedNames(names, parts, name) ==> n in PutInto(parts, name, req, r)
    ensures key != req.url.Href() ==>
              MatchIn(OpenedNames(names, parts, name), PutInto(parts, name, req, r), key) == MatchIn(names, parts, key)
    ensures key == req.url.Href() && PutAccepts(req, r) && MatchIn(names, parts, key).None? ==>
              MatchIn(OpenedNames(names, parts, name), PutInto(parts, name, req, r), key) == Some(r)
  {
    var q := PutInto(parts, name, req, r);
    if name in parts {
      if key != req.url.Href() {
        MatchInSame(names, parts, q, key);
      } else if PutAccepts(req, r) && MatchIn(names, parts, key).None? {
        var i :| 0 <= i < |names| && names[i] == name;
        assert key in q[names[i]];
        var m := MatchIn(names, q, key);
        assert m.Some?;
        var j :| 0 <= j < |names| && key in q[names[j]] && m.value == q[names[j]][key];
        assert names[j] == name;
      }
    } else {
      MatchInAppend(names, q, name, key);
      MatchInSame(names, parts, q, key);
    }
  }

  /** `caches.match` only looks at the key's entries in the listed partitions. */
  lemma {:induction false} MatchInSame(names: seq<string>, p: map<string, map<string, Response>>,
                                       q: map<string, map<string, Response>>, key: string)
    requires forall n :: n in names ==> n in p && n in q
    requires forall n :: n in names ==> (key in p[n] <==> key in q[n]) && (key in p[n] ==> p[n][key] == q[n][key])
    ensures MatchIn(names, p, key) == MatchIn(names, q, key)
  {
    if |names| > 0 {
      assert forall n :: n in names[1..] ==> n in names;
      MatchInSame(names[1..], p, q, key);
    }
  }

  /** A partition created last is consulted last. */
  lemma {:induction false} MatchInAppend(names: seq<string>, parts: map<string, map<string, Response>>, n: string, key: string)
    requires forall m :: m in names ==> m in parts
    requires n in parts
    ensures MatchIn(names + [n], parts, key) ==
              if MatchIn(names, parts, key).Some? then MatchIn(names, parts, key)
              else if key in parts[n] then Some(parts[n][key]) else None
  {
    if |names| == 0 {
      assert names + [n] == [n];
      assert [n][1..] == [];
    } else {
      assert (names + [n])[0] == names[0];
      assert (names + [n])[1..] == names[1..] + [n];
      assert forall m :: m in names[1..] ==> m in names;
      MatchInAppend(names[1..], parts, n, key);
    }
  }

  /** The names activation keeps, in their original order. */
  function Keep(names: seq<string>): seq<string>
  {
    if |names| == 0 then []
    else if names[0] == StaticCache || names[0] == DynamicCache then [names[0]] + Keep(names[1..])
    else Keep(names[1..])
  }

  /** `names` without `n`. */
  function Without(names: seq<string>, n: string): seq<string>
  {
    if |names| == 0 then []
    else if names[0] == n then Without(names[1..], n)
    else [names[0]] + Without(names[1..], n)
  }

  lemma {:induction false} WithoutProps(names: seq<string>, n: string)
    requires Distinct(names)
    ensures Distinct(Without(names, n))
    ensures forall m :: m in Without(names, n) <==> m in names && m != n
  {
    if |names| > 0 {
      WithoutProps(names[1..], n);
      assert names[0] !in names[1..];
    }
  }

  /** One step of activation keeps `names` equal to the kept prefix followed by the unvisited suffix. */
  lemma ActivateStep(s: seq<string>, i: nat)
    requires Distinct(s) && i < |s|
    ensures s[i] == StaticCache || s[i] == DynamicCache ==>
              Keep(s[..i]) + s[i..] == Keep(s[..i + 1]) + s[i + 1..]
    ensures s[i] != StaticCache && s[i] != DynamicCache ==>
              Without(Keep(s[..i]) + s[i..], s[i]) == Keep(s[..i + 1]) + s[i + 1..]
  {
    KeepStep(s, i);
    assert s[i..] == [s[i]] + s[i + 1..];
    if s[i] != StaticCache && s[i] != DynamicCache {
      KeepOnlyKept(s[..i]);
      assert s[i] !in s[i + 1..];
      WithoutSplit(Keep(s[..i]), s[i..], s[i]);
    }
  }

  lemma {:induction false} KeepOnlyKept(s: seq<string>)
    ensures forall m :: m in Keep(s) ==> m == StaticCache || m == DynamicCache
  {
    if |s| > 0 {
      KeepOnlyKept(s[1..]);
    }
  }

  lemma {:induction false} KeepMembers(s: seq<string>)
    ensures forall m :: m in Keep(s) <==> m in s && (m == StaticCache || m == DynamicCache)
  {
    if |s| > 0 {
      KeepMembers(s[1..]);
    }
  }

  lemma {:induction false} KeepStep(s: seq<string>, i: nat)
    requires i < |s|
    ensures Keep(s[..i + 1]) == Keep(s[..i]) + (if s[i] == StaticCache || s[i] == DynamicCache then [s[i]] else [])
  {
    if i > 0 {
      assert s[..i + 1][1..] == s[1..][..i];
      assert s[..i][1..] == s[1..][..i - 1];
      KeepStep(s[1..], i - 1);
    } else {
      assert s[..1][1..] == [];
    }
  }

  lemma {:induction false} WithoutSplit(kept: seq<string>, rest: seq<string>, n: string)
    requires |rest| > 0 && rest[0] == n && n !in kept && n !in rest[1..]
    ensures Without(kept + rest, n) == kept + rest[1..]
  {
    if |kept| == 0 {
      assert kept + rest == rest;
      WithoutAbsent(rest[1..], n);
    } else {
      assert (kept + rest)[1..] == kept[1..] + rest;
      WithoutSplit(kept[1..], rest, n);
    }
  }

  lemma {:induction false} WithoutAbsent(s: seq<string>, n: string)
    requires n !in s
    ensures Without(s, n) == s
  {
    if |s| > 0 {
      WithoutAbsent(s[1..], n);
    }
  }

  /**
   * A notification click opens the URL the push carried (`data || '/'`): a
   * window is always opened somewhere, and the carried URL is kept exactly
   * when it is non-empty; without one the site's root is opened.
   */
  function ClickTarget(data: Option<string>): (url: string)
    ensures url != ""
    ensures data.Some? ==> (url == data.value <==> data.value != "")
    ensures data.None? ==> url == "/"
  {
    if data.Some? && data.value != "" then data.value else "/"
  }

  /** The push handler stores the payload's `url` as the notification's data. */
  datatype PushPayload = PushPayload(title: string, body: string, url: Option<string>)

  /**
   * Clicking the notification a push showed opens the pushed URL when it is
   * non-empty, else the root; re-pushing the opened URL opens it again.
   */
  lemma ClickOpensPushedUrl(p: PushPayload)
    ensures p.url.Some? && p.url.value != "" ==> ClickTarget(p.url) == p.url.value
    ensures p.url.None? || p.url.value == "" ==> ClickTarget(p.url) == "/"
    ensures ClickTarget(Some(ClickTarget(p.url))) == ClickTarget(p.url)
  {
  }
}
