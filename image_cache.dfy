/**
 * The shared, reference-counted image cache behind an image surface, as pure
 * functions on its table. Each function here describes what one operation of
 * ImageSurface.js does to the table; the methods SetContent and Deploy in
 * module ImageSurfaces do the same thing in place and are proved equal to
 * these functions.
 */
module ImageCache {
  import opened Wrappers

  /** The off-tree image built on first deploy to warm the browser's cache;
      only the source it was given is modelled. */
  datatype Image = Image(src: string)

  /** A live slot: how many surfaces hold the URL, and the prefetched image. */
  datatype Entry = Entry(count: int, node: Option<Image>)

  /** The cache table. A key absent from the map was never set (JavaScript
      `undefined`); a key mapped to None was invalidated (`null`, key kept). */
  type Table = map<string, Option<Entry>>

  /** JavaScript truthiness of a surface's URL: `undefined` and `''` are falsy. */
  predicate Truthy(url: Option<string>)
  {
    url.Some? && url.value != ""
  }

  /** The property name a URL is looked up under: `undefined` becomes "undefined". */
  function Key(url: Option<string>): string
  {
    match url
    case None => "undefined"
    case Some(s) => s
  }

  /** The slot for `k` holds an entry (a truthy value), not `null` or nothing. */
  predicate Live(t: Table, k: string)
  {
    k in t && t[k].Some?
  }

  /** Every entry in the table counts at least one holder. */
  ghost predicate Valid(t: Table)
  {
    forall k :: Live(t, k) ==> t[k].value.count >= 1
  }

  /** Second half of setContent: create the entry for `u` or count one more holder. */
  function Acquire(t: Table, u: string): (r: Table)
    ensures r.Keys == t.Keys + {u}
    ensures Live(r, u)
    ensures !Live(t, u) ==> r[u] == Some(Entry(1, None))
    ensures Live(t, u) ==> r[u].value.count == t[u].value.count + 1 && r[u].value.node == t[u].value.node
    ensures forall k :: k in t && k != u ==> r[k] == t[k]
    ensures Valid(t) ==> Valid(r)
  {
    if !Live(t, u) then t[u := Some(Entry(1, None))]
    else t[u := Some(t[u].value.(count := t[u].value.count + 1))]
  }

  /** First half of setContent: one holder fewer for `o`; the last one leaves
      `null` in the slot and keeps the key. */
  function Release(t: Table, o: string): (r: Table)
    requires Live(t, o)
    ensures r.Keys == t.Keys
    ensures t[o].value.count == 1 ==> r[o] == None
    ensures t[o].value.count != 1 ==> r[o].Some? && r[o].value.count == t[o].value.count - 1 && r[o].value.node == t[o].value.node
    ensures forall k :: k in t && k != o ==> r[k] == t[k]
    ensures Valid(t) ==> Valid(r)
  {
    var e := t[o].value;
    if e.count == 1 then t[o := None] else t[o := Some(e.(count := e.count - 1))]
  }

  /** setContent releases the previous URL only when it is truthy and differs
      from the new one. */
  predicate Decrements(prev: Option<string>, u: string)
  {
    Truthy(prev) && prev.value != u
  }

  /** setContent does not fault: the previous URL, when released, has an entry. */
  predicate CanSetContent(t: Table, prev: Option<string>, u: string)
  {
    Decrements(prev, u) ==> Live(t, prev.value)
  }

  /** The table after a surface whose URL was `prev` calls setContent(u). */
  function AfterSetContent(t: Table, prev: Option<string>, u: string): (r: Table)
    requires CanSetContent(t, prev, u)
    ensures r.Keys == t.Keys + {u}
    ensures Live(r, u)
    ensures Valid(t) ==> r[u].value.count >= 1
    ensures !Live(t, u) ==> r[u] == Some(Entry(1, None))
    ensures Live(t, u) ==> r[u].value.count == t[u].value.count + 1 && r[u].value.node == t[u].value.node
    ensures Decrements(prev, u) && t[prev.value].value.count == 1 ==> r[prev.value] == None
    ensures Decrements(prev, u) && t[prev.value].value.count != 1 ==>
              r[prev.value].Some? && r[prev.value].value.count == t[prev.value].value.count - 1
              && r[prev.value].value.node == t[prev.value].value.node
    ensures forall k :: k in t && k != u && (Decrements(prev, u) ==> k != prev.value) ==> r[k] == t[k]
    ensures Valid(t) ==> Valid(r)
  {
    var released := if Decrements(prev, u) then Release(t, prev.value) else t;
    Acquire(released, u)
  }

  /** deploy does not fault: the current URL's slot holds an entry. */
  predicate CanDeploy(t: Table, url: Option<string>)
  {
    Live(t, Key(url))
  }

  /** The table after deploy: the first deploy while caching is enabled stores
      a prefetch image for the URL; otherwise nothing changes. */
  function AfterDeploy(t: Table, enabled: bool, url: Option<string>): (r: Table)
    requires CanDeploy(t, url)
    ensures r.Keys == t.Keys
    ensures forall k :: Live(t, k) <==> Live(r, k)
    ensures enabled && t[Key(url)].value.node == None ==>
              r[Key(url)] == Some(Entry(t[Key(url)].value.count, Some(Image(Key(url)))))
    ensures !enabled || t[Key(url)].value.node != None ==> r == t
    ensures forall k :: k in t && k != Key(url) ==> r[k] == t[k]
    ensures Valid(t) ==> Valid(r)
  {
    var k := Key(url);
    var e := t[k].value;
    if e.node == None && enabled then t[k := Some(e.(node := Some(Image(k))))] else t
  }

  /** The source deploy writes into the target element: the URL, or '' if falsy. */
  function TargetSrc(url: Option<string>): (src: string)
    ensures src == "" <==> !Truthy(url)
    ensures Truthy(url) ==> src == url.value
  {
    match url
    case None => ""
    case Some(s) => s
  }

  /** Acquiring a URL and releasing it again restores the table, except that
      a key that was absent comes back as `null`. */
  lemma AcquireThenRelease(t: Table, u: string)
    requires Valid(t)
    ensures Live(Acquire(t, u), u)
    ensures Release(Acquire(t, u), u) == if u in t then t else t[u := None]
  {
  }

  /** Releasing a URL and acquiring it again restores its count, but the last
      holder leaving drops the prefetched image. */
  lemma ReleaseThenAcquire(t: Table, o: string)
    requires Live(t, o)
    ensures Acquire(Release(t, o), o)
            == t[o := Some(Entry(t[o].value.count, if t[o].value.count == 1 then None else t[o].value.node))]
  {
  }

  /** Repeated deploys of the same URL create at most one prefetch image. */
  lemma DeployIdempotent(t: Table, enabled: bool, url: Option<string>)
    requires CanDeploy(t, url)
    ensures CanDeploy(AfterDeploy(t, enabled, url), url)
    ensures AfterDeploy(AfterDeploy(t, enabled, url), enabled, url) == AfterDeploy(t, enabled, url)
  {
  }

  /** A run of deploys by surfaces whose URLs are `urls`, in order. */
  function DeployAll(t: Table, enabled: bool, urls: seq<Option<string>>): (r: Table)
    requires forall i :: 0 <= i < |urls| ==> CanDeploy(t, urls[i])
    ensures r.Keys == t.Keys
    ensures forall k :: Live(t, k) <==> Live(r, k)
  {
    if urls == [] then t
    else
      var t' := AfterDeploy(t, enabled, urls[0]);
      assert forall i :: 1 <= i < |urls| ==> CanDeploy(t, urls[i]) && CanDeploy(t', urls[i]);
      DeployAll(t', enabled, urls[1..])
  }

  /** While caching is disabled, deploys never touch the table. */
  lemma {:induction false} DisabledDeploysChangeNothing(t: Table, urls: seq<Option<string>>)
    requires forall i :: 0 <= i < |urls| ==> CanDeploy(t, urls[i])
    ensures DeployAll(t, false, urls) == t
  {
    if urls != [] {
      DisabledDeploysChangeNothing(AfterDeploy(t, false, urls[0]), urls[1..]);
    }
  }

  /** Across any run of deploys a slot keeps its count, a prefetch image once
      stored is never replaced, and with caching enabled every deployed URL
      ends up with exactly one image, made for that URL unless it had one. */
  lemma {:induction false} DeploysFillOnce(t: Table, enabled: bool, urls: seq<Option<string>>, k: string)
    requires forall i :: 0 <= i < |urls| ==> CanDeploy(t, urls[i])
    requires Live(t, k)
    ensures DeployAll(t, enabled, urls)[k].value.count == t[k].value.count
    ensures t[k].value.node != None ==> DeployAll(t, enabled, urls)[k].value.node == t[k].value.node
    ensures t[k].value.node == None ==>
              DeployAll(t, enabled, urls)[k].value.node
              == if enabled && exists i :: 0 <= i < |urls| && Key(urls[i]) == k then Some(Image(k)) else None
  {
    if urls != [] {
      var t' := AfterDeploy(t, enabled, urls[0]);
      DeploysFillOnce(t', enabled, urls[1..], k);
      if t[k].value.node == None && enabled {
        if Key(urls[0]) == k {
          assert t'[k].value.node == Some(Image(k));
        } else if exists i :: 0 <= i < |urls| && Key(urls[i]) == k {
          var i :| 0 <= i < |urls| && Key(urls[i]) == k;
          assert Key(urls[1..][i - 1]) == k;
        }
      }
    }
  }

  /** After clearCache the table is empty, so a surface that still holds
      another truthy URL faults on its next setContent. */
  lemma ClearedCacheSetContentFaults(prev: Option<string>, u: string)
    ensures CanSetContent(map[], prev, u) <==> !Decrements(prev, u)
  {
  }

  /** After clearCache every deploy faults, until setContent recreates an entry. */
  lemma ClearedCacheDeployFaults(url: Option<string>)
    ensures !CanDeploy(map[], url)
  {
  }

  /** After clearCache, a setContent that does not fault makes a fresh entry. */
  lemma ClearedCacheFreshEntry(prev: Option<string>, u: string)
    requires !Decrements(prev, u)
    ensures AfterSetContent(map[], prev, u) == map[u := Some(Entry(1, None))]
  {
  }
}
