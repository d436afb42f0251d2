/**
 * The reference-count invariant of the image cache over a whole system of
 * surfaces. `hs` lists the current URL of every live surface; the cache is
 * consistent with it when each non-empty URL held by some surface has an
 * entry counting exactly its holders and every other non-empty URL has none.
 * The empty URL is never released by setContent, so it is not tracked.
 */
module RefCount {
  import opened Wrappers
  import opened ImageCache

  /** How many surfaces currently hold URL `u`. */
  function Holders(hs: seq<Option<string>>, u: string): (n: nat)
    ensures n <= |hs|
    ensures n == 0 <==> forall i :: 0 <= i < |hs| ==> hs[i] != Some(u)
  {
    if hs == [] then 0
    else (if hs[0] == Some(u) then 1 else 0) + Holders(hs[1..], u)
  }

  ghost predicate Consistent(t: Table, hs: seq<Option<string>>)
  {
    forall u :: u != "" ==>
      (Holders(hs, u) > 0 ==> Live(t, u) && t[u].value.count == Holders(hs, u)) &&
      (Holders(hs, u) == 0 ==> !Live(t, u))
  }

  /** Changing one surface's URL moves one holder from its old URL to its new one. */
  lemma {:induction false} HoldersUpdate(hs: seq<Option<string>>, i: nat, v: Option<string>, u: string)
    requires i < |hs|
    ensures Holders(hs[i := v], u)
            == Holders(hs, u) - (if hs[i] == Some(u) then 1 else 0) + (if v == Some(u) then 1 else 0)
  {
    if i == 0 {
      assert hs[i := v][1..] == hs[1..];
    } else {
      assert hs[i := v][1..] == hs[1..][i - 1 := v];
      HoldersUpdate(hs[1..], i - 1, v, u);
    }
  }

  /** A new surface holds no URL, so it adds no holder. */
  lemma {:induction false} HoldersAppendNew(hs: seq<Option<string>>, u: string)
    ensures Holders(hs + [None], u) == Holders(hs, u)
  {
    if hs != [] {
      assert (hs + [None])[1..] == hs[1..] + [None];
      HoldersAppendNew(hs[1..], u);
    }
  }

  /** The initial cache and a system with no surfaces agree. */
  lemma InitiallyConsistent()
    ensures Consistent(map[], [])
  {
  }

  /** Constructing a surface keeps the invariant. */
  lemma NewSurfaceKeepsConsistency(t: Table, hs: seq<Option<string>>)
    requires Consistent(t, hs)
    ensures Consistent(t, hs + [None])
  {
    forall u | u != "" ensures Holders(hs + [None], u) == Holders(hs, u) {
      HoldersAppendNew(hs, u);
    }
  }

  /** While the invariant holds, surface `i` switching to a URL other than its
      own (or to the empty URL) does not fault and keeps the invariant. */
  lemma SetContentKeepsConsistency(t: Table, hs: seq<Option<string>>, i: nat, u: string)
    requires Consistent(t, hs)
    requires i < |hs|
    requires u == "" || hs[i] != Some(u)
    ensures CanSetContent(t, hs[i], u)
    ensures Consistent(AfterSetContent(t, hs[i], u), hs[i := Some(u)])
  {
    if Decrements(hs[i], u) {
      assert Holders(hs, hs[i].value) > 0;
    }
    var r := AfterSetContent(t, hs[i], u);
    var hs' := hs[i := Some(u)];
    forall w | w != ""
      ensures Holders(hs', w) > 0 ==> Live(r, w) && r[w].value.count == Holders(hs', w)
      ensures Holders(hs', w) == 0 ==> !Live(r, w)
    {
      HoldersUpdate(hs, i, Some(u), w);
      if w == u {
        assert Holders(hs', w) == Holders(hs, w) + 1;
      } else if Decrements(hs[i], u) && w == hs[i].value {
        assert Holders(hs', w) == Holders(hs, w) - 1;
      } else {
        assert Holders(hs', w) == Holders(hs, w);
        assert w in t ==> r[w] == t[w];
        assert w in r ==> w in t;
      }
    }
  }

  /** deploy never changes a count, so it keeps the invariant. */
  lemma DeployKeepsConsistency(t: Table, enabled: bool, hs: seq<Option<string>>, url: Option<string>)
    requires Consistent(t, hs)
    requires CanDeploy(t, url)
    ensures Consistent(AfterDeploy(t, enabled, url), hs)
  {
  }

  /** clearCache keeps the invariant only when no surface holds a non-empty URL. */
  lemma ClearKeepsConsistencyOnlyIfUnheld(hs: seq<Option<string>>)
    ensures Consistent(map[], hs) <==> forall i :: 0 <= i < |hs| ==> !Truthy(hs[i])
  {
    if !Consistent(map[], hs) {
      var u :| u != "" && Holders(hs, u) > 0;
      var i :| 0 <= i < |hs| && hs[i] == Some(u);
      assert Truthy(hs[i]);
    } else {
      forall i | 0 <= i < |hs| && Truthy(hs[i]) ensures Holders(hs, hs[i].value) > 0 {
      }
    }
  }
}
