# ImageSurface image cache, modelled in Dafny

`ImageSurface` (ImageSurface.js) is a surface of the famo.us rendering framework
that shows one image. Its only logic is a reference-counted cache shared by all
image surfaces: a table keyed by URL whose slots are either `null` or an entry
`{count, node}`, plus a `cacheEnabled` flag. `setContent` moves a surface's
reference from its old URL to a new one, `deploy` stores one prefetch image per
URL while caching is enabled and points the target element at the URL,
`recall` clears the target, and three static controls toggle the flag or
replace the table.

The model has four modules:

- `Wrappers` (wrappers.dfy): `Option`, standing for JavaScript `null`/`undefined`.
- `ImageCache` (image_cache.dfy): the table as a `map<string, Option<Entry>>`
  (key absent = `undefined`, `None` = `null`) and one pure function per
  operation, whose `ensures` state which slots change and how counts and
  prefetch images move, with lemmas relating the operations.
- `ImageSurfaces` (image_surface.dfy): classes `Cache` (fields `table` and
  `enabled`), `ImageSurface` (fields `imageUrl` and `contentDirty`) and
  `ImageElement` (field `src`). Their methods update the fields in place, as
  the source does. `SetContent` and `Deploy` are proved equal to the
  `ImageCache` functions, and every method keeps each count at least one
  (`Cache.Valid`).
  `SharedUrlScenario` walks two surfaces through a shared URL.
- `RefCount` (ref_count.dfy): the reference-count invariant over all live
  surfaces. Each non-empty URL held by some surface has an entry whose count
  is its number of holders. Every other non-empty URL has no entry.

JavaScript details modelled explicitly:
- the truthiness tests on `_imageUrl` and on cache slots (`Truthy`, `Live`);
- an undefined `_imageUrl` being looked up under the property name
  `"undefined"` in `deploy` (`Key`);
- `target.src = this._imageUrl || ''` (`TargetSrc`).

The two `TypeError`s the code can raise become preconditions (`CanSetContent`,
`CanDeploy`): reading `.count` of a missing or `null` slot in `setContent`, and
reading `.node` of one in `deploy`.

Behaviour of the code worth noting:
- A surface holding `"x.png"` with count 2 that switches to `"y.png"`
  only decrements the entry to 1 (`SharedUrlScenario`).
- `deploy` after `clearCache` faults on the missing entry until `setContent`
  creates it again (`ClearedCacheDeployFaults`).
- `setContent` also skips the decrement when the previous URL is the empty
  string.
- The prefetch image is dropped when the last holder leaves (the slot becomes
  `null`), so a URL can get a second image later (`ReleaseThenAcquire`).

## Model

| member | source | states |
|---|---|---|
| `ImageCache.Acquire` | ImageSurface.js:63-66 | a missing or `null` slot for `u` becomes exactly `{count: 1, node: null}`; a live one counts one more and keeps its node; the slot for `u` is live; only key `u` may be added and no other slot changes; counts ≥ 1 are preserved |
| `ImageCache.Release` | ImageSurface.js:56-61 | requires a live slot for `o`; a count of 1 becomes `null` with the key kept; any other count falls by exactly 1 and keeps its node; keys and all other slots are unchanged; counts ≥ 1 are preserved |
| `ImageCache.AfterSetContent` | ImageSurface.js:55-67 | requires the released URL to have a live slot; the slot for `u` is live, fresh `{1, null}` if it was not, otherwise one count higher (so re-setting the same URL, or setting after an empty or undefined URL, strictly increases it); the previous URL, when truthy and different, is nulled at count 1 or decremented; every other slot and key is unchanged |
| `ImageCache.AfterDeploy` | ImageSurface.js:79-84 | requires a live slot for the current URL; with caching enabled and no node yet, the slot gets a prefetch image for that URL and keeps its count; otherwise the table is unchanged; no key or liveness changes |
| `ImageCache.TargetSrc` | ImageSurface.js:86 | the target's source is the URL when truthy, and `''` exactly when the URL is undefined or empty |
| `ImageCache.AcquireThenRelease` | ImageSurface.js:56-66 | on a table with counts ≥ 1, gaining and then losing a holder restores the table, except that a key that was absent is left as `null` |
| `ImageCache.ReleaseThenAcquire` | ImageSurface.js:56-66 | losing and then regaining a holder restores the count, but when it was the last holder the prefetch image is lost |
| `ImageCache.DeployIdempotent` | ImageSurface.js:79-84 | a second deploy of the same URL changes nothing: at most one prefetch image per URL |
| `ImageCache.DeployAll` | ImageSurface.js:79-84 | a run of deploys keeps the table's keys and which slots are live |
| `ImageCache.DisabledDeploysChangeNothing` | ImageSurface.js:80 | any run of deploys while caching is disabled leaves the table unchanged, so it creates no node |
| `ImageCache.DeploysFillOnce` | ImageSurface.js:79-84 | over any run of deploys a slot keeps its count and a stored image is never replaced; a slot without an image ends with exactly one, for its own URL, iff caching is enabled and its URL was deployed |
| `ImageCache.ClearedCacheSetContentFaults` | ImageSurface.js:41-57 | after `clearCache`, `setContent` can proceed iff it performs no decrement; a surface still holding another truthy URL faults |
| `ImageCache.ClearedCacheDeployFaults` | ImageSurface.js:41-80 | after `clearCache` every `deploy` faults on the missing entry |
| `ImageCache.ClearedCacheFreshEntry` | ImageSurface.js:41-64 | after `clearCache` a non-faulting `setContent(u)` leaves the table as exactly `{u: {count: 1, node: null}}` |
| `ImageSurfaces.Cache.constructor` | ImageSurface.js:29-31 | the table starts empty, so trivially with every count at least one, and caching enabled |
| `ImageSurfaces.Cache.EnableCache` | ImageSurface.js:33-35 | sets the flag and, by its frame, nothing else (idempotent) |
| `ImageSurfaces.Cache.DisableCache` | ImageSurface.js:37-39 | clears the flag and, by its frame, nothing else (idempotent) |
| `ImageSurfaces.Cache.ClearCache` | ImageSurface.js:41-43 | the table becomes empty, whatever surfaces still hold; the flag is untouched |
| `ImageSurfaces.ImageSurface.constructor` | ImageSurface.js:24-25 | a new surface holds no URL |
| `ImageSurfaces.ImageSurface.SetContent` | ImageSurface.js:55-70 | requires the previous URL's slot to be live when it is released; the new table is `AfterSetContent` of the old one (so only the slots of the released and the new URL change), the slot for the URL is live with a count of at least one, counts stay at least one, the flag is untouched, and the surface holds the URL with its content marked dirty |
| `ImageSurfaces.ImageSurface.Deploy` | ImageSurface.js:79-87 | requires a live slot for the current URL; counts stay at least one; the new table is `AfterDeploy` of the old one under the current flag, and the target's source is `TargetSrc` of the URL |
| `ImageSurfaces.ImageSurface.Recall` | ImageSurface.js:97-99 | the target's source becomes `''`; no cache state is in its frame |
| `RefCount.InitiallyConsistent` | ImageSurface.js:29 | the empty initial table agrees with a system of no surfaces |
| `RefCount.NewSurfaceKeepsConsistency` | ImageSurface.js:24-25 | constructing a surface keeps every count equal to its number of holders |
| `RefCount.SetContentKeepsConsistency` | ImageSurface.js:55-70 | while every count equals its number of holders, a surface switching to a URL other than its current one (or to `''`) never faults, and afterwards every count again equals its number of holders |
| `RefCount.DeployKeepsConsistency` | ImageSurface.js:79-84 | `deploy` changes no count, so the counts still equal the holders |
| `RefCount.ClearKeepsConsistencyOnlyIfUnheld` | ImageSurface.js:41-43 | the cleared table agrees with the surfaces iff none of them holds a non-empty URL |

## Left out

- The base `Surface` class: the constructor's delegation to it, dirty-flag propagation, sizing and attachment to the render tree. Only the write of `_contentDirty = true` is modelled, and the flag's initial value (set by the base class) is not stated.
- Building the browser `Image` and the fetch and decode that assigning `src` starts: I/O owned by the browser. The prefetch image is a value `Image(src)`.
- The module wrapper, the prototype wiring and the `elementType`/`elementClass` constants: plumbing with no behaviour.
- The difference between the per-constructor `this.constructor.cache` and the global `ImageSurface.cacheEnabled` seen by subclasses: one `Cache` object is shared by all surfaces.
- URLs that name properties inherited from `Object.prototype` (such as `"constructor"` or `"toString"`): in JavaScript those keys read an inherited value rather than a missing slot. The model treats every string as a plain key.
- Arguments to `setContent` that are not strings: the model takes strings only.
- Counts are unbounded integers, not JavaScript doubles. A count large enough to lose precision cannot arise from any realistic number of surfaces.
- The reference-count invariant is stated over the list of the surfaces' URLs. The links between surface objects and that list (distinct objects, aliasing) are not modelled.
