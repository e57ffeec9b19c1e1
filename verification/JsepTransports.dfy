/** `JsepTransportCollection` as a class that updates its maps in place. */
module JsepTransports {
  import opened JsepModel

  class JsepTransportCollection {
    var byName: map<Mid, Transport>
    var current: map<Mid, Transport>
    var stable: map<Mid, Transport>
    ghost var destroyed: set<Transport>

    ghost function View(): Collection
      reads this
    {
      Collection(byName, current, stable, destroyed)
    }

    /** A transport has one owner. */
    ghost predicate Unique()
      reads this
    {
      forall m, n :: m in byName && n in byName && byName[m] == byName[n] ==> m == n
    }

    lemma ValuesWithout(m: map<Mid, Transport>, n: Mid)
      requires n in m && forall k :: k in m && m[k] == m[n] ==> k == n
      ensures (m - {n}).Values == m.Values - {m[n]} && m[n] in m.Values
    {
      forall u | u in m.Values - {m[n]} ensures u in (m - {n}).Values {
        var k :| k in m && m[k] == u;
        assert (m - {n})[k] == u;
      }
    }

    constructor ()
      ensures View() == Empty() && Unique()
    {
      byName, current, stable, destroyed := map[], map[], map[], {};
    }

    method MaybeDestroyJsepTransport(t: Transport)
      requires Unique()
      modifies this
      ensures View() == JsepModel.MaybeDestroyJsepTransport(old(View()), t) && Unique()
    {
      if t in current.Values || t in stable.Values {
        return;
      }
      var rest := byName.Keys;
      while rest != {}
        invariant byName == old(byName) && current == old(current) && stable == old(stable)
            && destroyed == old(destroyed)
        invariant rest <= byName.Keys
        invariant forall n :: n in byName.Keys - rest ==> byName[n] != t
      {
        var n :| n in rest;
        if byName[n] == t {
          assert t in byName.Values;
          byName, destroyed := byName - {n}, destroyed + {t};
          assert byName == Destroy(old(View()), t).byName;
          return;
        }
        rest := rest - {n};
      }
      assert byName == Destroy(old(View()), t).byName;
    }

    method DestroyUnusedTransports()
      requires Unique()
      modifies this
      ensures View() == JsepModel.DestroyUnusedTransports(old(View())) && Unique()
    {
      var rest := byName.Keys;
      while rest != {}
        invariant current == old(current) && stable == old(stable) && Unique()
        invariant rest <= byName.Keys <= old(byName).Keys
        invariant forall n :: n in byName ==> byName[n] == old(byName)[n]
        invariant forall n :: n in old(byName) && n !in rest ==>
          (n in byName <==> old(byName)[n] in current.Values || old(byName)[n] in stable.Values)
        invariant destroyed == old(destroyed) + (old(byName).Values - byName.Values)
      {
        var n :| n in rest;
        var t := byName[n];
        if t !in current.Values && t !in stable.Values {
          ValuesWithout(byName, n);
          byName, destroyed := byName - {n}, destroyed + {t};
        }
        rest := rest - {n};
      }
      assert byName == Kept(old(View()));
    }

    method SetTransportForMid(mid: Mid, t: Transport)
      requires Unique() && Allowed(View(), SetFor(mid, t))
      modifies this
      ensures View() == Apply(old(View()), SetFor(mid, t)) && Unique()
    {
      var had := mid in current;
      var previous := if had then current[mid] else t;
      current := current[mid := t];
      if had {
        MaybeDestroyJsepTransport(previous);
      }
    }

    method RegisterTransport(mid: Mid, t: Transport)
      requires Unique() && IsNew(View(), t)
      modifies this
      ensures View() == Apply(old(View()), Register(mid, t)) && Unique()
    {
      if mid in byName {
        destroyed := destroyed + {byName[mid]};
      }
      byName := byName[mid := t];
      assert byName[mid] == t;
      SetTransportForMid(mid, t);
    }

    method RemoveTransportForMid(mid: Mid)
      requires Unique()
      modifies this
      ensures View() == Apply(old(View()), RemoveFor(mid)) && Unique()
    {
      if mid in current {
        var previous := current[mid];
        current := current - {mid};
        MaybeDestroyJsepTransport(previous);
      }
    }

    method RollbackTransports()
      requires Unique()
      modifies this
      ensures View() == Apply(old(View()), Rollback) && Unique()
    {
      current := stable;
      DestroyUnusedTransports();
    }

    method CommitTransports()
      requires Unique()
      modifies this
      ensures View() == Apply(old(View()), Commit) && Unique()
    {
      stable := current;
      DestroyUnusedTransports();
    }
  }
}
