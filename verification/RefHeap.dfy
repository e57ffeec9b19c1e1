/**
 The reference-counting operations on a heap of objects and handles.  `count` holds
 the counter of every object that exists, so using a counter of a deleted object
 is a failed lookup that the verifier has to rule out.
 */
module RefHeap {
  import opened Wrappers
  import opened RefGraph

  /**
   Each counter equals the handles pointing to its object, the references handed out by
   `release()`, and the `extra` references an unfinished operation still has to give up.
   Handles in `pin` are about to be overwritten; objects in `dying` are inside their destructor.
   */
  ghost predicate Counted(
    ptr: Pointers, count: map<Oid, int>, owed: multiset<Oid>,
    extra: multiset<Oid>, dying: set<Oid>, pin: set<Handle>)
  {
    && dying !! count.Keys
    && (forall h :: h in ptr && h.Field? ==> h.owner in count || h.owner in dying)
    && (forall h :: h in ptr && h !in pin && ptr[h].Some? ==> ptr[h].value in count)
    && (forall o :: o in owed || o in extra ==> o in count)
    && (forall o :: o in count ==> count[o] > 0 && count[o] == |Refs(ptr, pin, o)| + owed[o] + extra[o])
  }

  // ---------- How the counters follow one change

  lemma NothingPointsTo(ptr: Pointers, pin: set<Handle>, p: Oid)
    requires Refs(ptr, pin, p) == {}
    ensures forall h :: h in ptr && h !in pin ==> ptr[h] != Some(p)
  {
    forall h | h in ptr && h !in pin ensures ptr[h] != Some(p) {
      assert h !in Refs(ptr, pin, p);
    }
  }

  lemma ReferenceDropped(
      ptr: Pointers, count: map<Oid, int>, owed: multiset<Oid>, extra: multiset<Oid>, dying: set<Oid>, pin: set<Handle>,
      p: Oid)
    requires Counted(ptr, count, owed, extra + multiset{p}, dying, pin)
    ensures p in count && count[p] > 0 && p !in dying
    ensures count[p] > 1 ==> Counted(ptr, count[p := count[p] - 1], owed, extra, dying, pin)
    ensures count[p] == 1 ==> Counted(ptr, count - {p}, owed, extra, dying + {p}, pin)
  {
    assert p in extra + multiset{p};
    hide Refs;
    if count[p] == 1 {
      LastReferenceDropped(ptr, count, owed, extra, dying, pin, p);
    }
  }

  lemma LastReferenceDropped(
      ptr: Pointers, count: map<Oid, int>, owed: multiset<Oid>, extra: multiset<Oid>, dying: set<Oid>, pin: set<Handle>,
      p: Oid)
    requires Counted(ptr, count, owed, extra + multiset{p}, dying, pin) && p in count && count[p] == 1
    ensures Counted(ptr, count - {p}, owed, extra, dying + {p}, pin)
  {
    assert p in extra + multiset{p};
    assert Refs(ptr, pin, p) == {};
    NothingPointsTo(ptr, pin, p);
    hide Refs;
    assert forall o :: o != p ==> (extra + multiset{p})[o] == extra[o];
  }

  lemma HandleDropped(
      ptr: Pointers, count: map<Oid, int>, owed: multiset<Oid>, extra: multiset<Oid>, dying: set<Oid>, pin: set<Handle>,
      h: Handle)
    requires Counted(ptr, count, owed, extra, dying, pin) && h in ptr && h !in pin
    ensures ptr[h] == None ==> Counted(ptr - {h}, count, owed, extra, dying, pin)
    ensures ptr[h].Some? ==> Counted(ptr - {h}, count, owed, extra + multiset{ptr[h].value}, dying, pin)
  {
    forall o | o in count
      ensures |Refs(ptr, pin, o)| == |Refs(ptr - {h}, pin, o)| + if ptr[h] == Some(o) then 1 else 0
    {
      RefsRemoved(ptr, pin, h, o);
    }
  }

  lemma ReferenceAdded(
      ptr: Pointers, count: map<Oid, int>, owed: multiset<Oid>, extra: multiset<Oid>, dying: set<Oid>, pin: set<Handle>,
      p: Oid)
    requires Counted(ptr, count, owed, extra, dying, pin) && p in count
    ensures Counted(ptr, count[p := count[p] + 1], owed, extra + multiset{p}, dying, pin)
  {
  }

  /** The reference a handle is about to give up becomes an extra one. */
  lemma HandlePinned(ptr: Pointers, count: map<Oid, int>, owed: multiset<Oid>, extra: multiset<Oid>, h: Handle)
    requires Counted(ptr, count, owed, extra, {}, {}) && h in ptr
    ensures Counted(ptr, count, owed, extra + Counts(ptr[h]), {}, {h})
  {
    forall o | o in count ensures |Refs(ptr, {}, o)| == |Refs(ptr, {h}, o)| + if ptr[h] == Some(o) then 1 else 0 {
      RefsRemoved(ptr, {}, h, o);
      RefsUnpinned(ptr, h, o);
    }
  }

  lemma ExtraBecomesOwed(
      ptr: Pointers, count: map<Oid, int>, owed: multiset<Oid>, extra: multiset<Oid>, pin: set<Handle>)
    requires Counted(ptr, count, owed, extra, {}, pin)
    ensures Counted(ptr, count, owed + extra, multiset{}, {}, pin)
  {
  }

  lemma OwedBecomesExtra(
    ptr: Pointers, count: map<Oid, int>, owed: multiset<Oid>, extra: multiset<Oid>, pin: set<Handle>)
    requires Counted(ptr, count, owed, multiset{}, {}, pin) && extra <= owed
    ensures Counted(ptr, count, owed - extra, extra, {}, pin)
  {
  }

  /** Writing a pinned handle turns the extra reference into the handle's own. */
  lemma HandleWritten(
      ptr: Pointers, count: map<Oid, int>, owed: multiset<Oid>, extra: multiset<Oid>, h: Handle, p: Option<Oid>)
    requires Counted(ptr, count, owed, extra + Counts(p), {}, {h})
    requires h.Field? ==> h.owner in count
    ensures Counted(ptr[h := p], count, owed, extra, {}, {})
  {
    forall o | o in count ensures |Refs(ptr[h := p], {}, o)| == |Refs(ptr, {h}, o)| + if p == Some(o) then 1 else 0 {
      RefsUnpinned(ptr, h, o);
      RefsSet(ptr - {h}, {}, h, p, o);
      assert (ptr - {h})[h := p] == ptr[h := p];
    }
    assert p.Some? ==> p.value in extra + Counts(p);
  }

  function Counts(p: Option<Oid>): multiset<Oid> {
    if p.Some? then multiset{p.value} else multiset{}
  }

  lemma DyingIsNoObject(
      ptr: Pointers, count: map<Oid, int>, owed: multiset<Oid>, extra: multiset<Oid>, dying: set<Oid>, pin: set<Handle>,
      p: Oid)
    requires Counted(ptr, count, owed, extra, dying, pin) && p in dying
    ensures p !in count
  {
  }

  lemma DestructorDone(
      ptr: Pointers, count: map<Oid, int>, owed: multiset<Oid>, extra: multiset<Oid>, dying: set<Oid>, pin: set<Handle>,
      p: Oid)
    requires Counted(ptr, count, owed, extra, dying, pin)
    requires !exists h :: h in ptr && h.Field? && h.owner == p
    ensures Counted(ptr, count, owed, extra, dying - {p}, pin)
  {
  }

  lemma WithoutTwice(ptr: Pointers, a: set<Oid>, b: set<Oid>)
    ensures Without(Without(ptr, a), b) == Without(ptr, a + b)
  {
  }

  lemma DeletedOnce(dead: seq<Oid>, keys: set<Oid>, p: Oid)
    requires p in keys
    ensures multiset(dead + [p]) + multiset(keys - {p}) == multiset(dead) + multiset(keys)
  {
    assert keys == (keys - {p}) + {p};
    assert multiset(keys) == multiset(keys - {p}) + multiset{p};
  }

  /** The handles inside `p`. */
  function Members(ptr: Pointers, p: Oid): set<Handle> {
    set h | h in ptr && h.Field? && h.owner == p
  }

  lemma MemberGone(ptr: Pointers, h: Handle, p: Oid, gone: set<Oid>)
    requires h in Members(ptr, p) && p !in gone
    ensures Members(Without(ptr - {h}, gone), p) == Members(ptr, p) - {h}
  {
  }

  /** The objects in `keep` survive any cascade. */
  ghost predicate Kept(ptr: Pointers, objects: set<Oid>, owed: multiset<Oid>, pin: set<Handle>, keep: set<Oid>) {
    keep <= objects && Supported(ptr, owed, pin, keep)
  }

  /** What the pinned handles still point to has been deleted. */
  ghost predicate Lapsed(ptr: Pointers, objects: set<Oid>, pin: set<Handle>) {
    forall h :: h in pin && h in ptr ==> ptr[h].Some? && ptr[h].value !in objects
  }

  /** A pinned handle is a member of an object that does not survive. */
  ghost predicate Lost(pin: set<Handle>, keep: set<Oid>) {
    exists h :: h in pin && h.Field? && h.owner !in keep
  }

  ghost predicate StillThere(pin: set<Handle>, before: Pointers, after: Pointers) {
    forall h :: h in pin && h in before ==> h in after
  }

  /** An object whose last counted reference goes is not one of those. */
  lemma LastReferenceNotKept(
    ptr: Pointers, count: map<Oid, int>, owed: multiset<Oid>, extra: multiset<Oid>, dying: set<Oid>, pin: set<Handle>,
    keep: set<Oid>, p: Oid)
    requires Counted(ptr, count, owed, extra + multiset{p}, dying, pin)
        && Kept(ptr, count.Keys, owed + extra, pin, keep)
    requires p in count && count[p] == 1
    ensures p !in keep && p !in dying && Kept(ptr, count.Keys - {p}, owed + extra, pin, keep)
  {
    assert Refs(ptr, pin, p) == {};
    NothingPointsTo(ptr, pin, p);
  }

  /** Destroying a member of an object outside `keep` changes nothing for `keep`. */
  lemma KeptWithoutHandle(
      ptr: Pointers, objects: set<Oid>, owed: multiset<Oid>, pin: set<Handle>, keep: set<Oid>, h: Handle)
    requires Kept(ptr, objects, owed, pin, keep) && h in ptr && h.Field? && h.owner !in keep
    ensures Kept(ptr - {h}, objects, owed, pin, keep)
  {
    forall o | o in keep && o !in owed
      ensures exists k :: k in ptr - {h} && k !in pin && (ptr - {h})[k] == Some(o) && (k.Var? || k.owner in keep)
    {
      var k :| k in ptr && k !in pin && ptr[k] == Some(o) && (k.Var? || k.owner in keep);
      assert k in ptr - {h};
    }
  }

  class Heap {
    var ptr: Pointers
    var count: map<Oid, int>
    ghost var owed: multiset<Oid>
    ghost var born: set<Oid>
    ghost var dead: seq<Oid>

    /** Each object ever created either exists or has been deleted once. */
    ghost predicate OnceEach()
      reads this
    {
      multiset(dead) + multiset(count.Keys) == multiset(born)
    }

    ghost predicate Valid()
      reads this
    {
      Counted(ptr, count, owed, multiset{}, {}, {}) && OnceEach()
    }

    ghost function View(): Graph
      reads this
    {
      Graph(ptr, count.Keys, owed)
    }

    constructor ()
      ensures Valid() && View() == Graph(map[], {}, multiset{}) && born == {}
    {
      ptr, count := map[], map[];
      owed, born, dead := multiset{}, {}, [];
    }

    /**
     `Release()`: drops one reference, and deletes the object with the last one.  The cascade stops with `ok` false
     when it touches an object that has been deleted.
     */
    method Release(
        p: Oid, ghost extra: multiset<Oid>, ghost dying: set<Oid>, ghost pin: set<Handle>, ghost keep: set<Oid>)
        returns (ok: bool)
      requires Counted(ptr, count, owed, extra + multiset{p}, dying, pin) && OnceEach()
      requires Kept(ptr, count.Keys, owed + extra, pin, keep) && Lapsed(ptr, count.Keys - {p}, pin)
      modifies this
      ensures !ok ==> Lost(pin, keep)
      ensures ok ==> Counted(ptr, count, owed, extra, dying, pin) && OnceEach()
      ensures ok ==> Kept(ptr, count.Keys, owed + extra, pin, keep) && StillThere(pin, old(ptr), ptr)
      ensures ok ==> count.Keys <= old(count.Keys) && ptr == Without(old(ptr), old(count.Keys) - count.Keys)
      ensures owed == old(owed) && born == old(born)
      decreases count.Keys, 2
    {
      hide Counted, Kept, Refs, Lapsed;
      ReferenceDropped(ptr, count, owed, extra, dying, pin, p);
      if count[p] == 1 { LastReferenceNotKept(ptr, count, owed, extra, dying, pin, keep, p); }
      count := count[p := count[p] - 1];
      ok := true;
      if count[p] == 0 {
        assert count - {p} == old(count) - {p} && count.Keys == old(count.Keys);
        ok := Delete(p, extra, dying, pin, keep);
      } else {
        assert ptr == Without(old(ptr), {}) && count.Keys == old(count.Keys);
      }
    }

    /** `delete this`: the object stops existing before its destructor has destroyed its members. */
    method Delete(
        p: Oid, ghost extra: multiset<Oid>, ghost dying: set<Oid>, ghost pin: set<Handle>, ghost keep: set<Oid>)
        returns (ok: bool)
      requires p in count && p !in dying && Counted(ptr, count - {p}, owed, extra, dying + {p}, pin) && OnceEach()
      requires Kept(ptr, count.Keys - {p}, owed + extra, pin, keep) && Lapsed(ptr, count.Keys - {p}, pin)
      modifies this
      ensures !ok ==> Lost(pin, keep)
      ensures ok ==> Counted(ptr, count, owed, extra, dying, pin) && OnceEach()
      ensures ok ==> Kept(ptr, count.Keys, owed + extra, pin, keep) && StillThere(pin, old(ptr), ptr)
      ensures ok ==> count.Keys <= old(count.Keys) && ptr == Without(old(ptr), old(count.Keys) - count.Keys)
      ensures owed == old(owed) && born == old(born)
      decreases count.Keys, 1
    {
      hide Counted, Kept, Without, Lapsed, Lost;
      DeletedOnce(dead, count.Keys, p);
      count := count - {p};
      dead := dead + [p];
      assert count.Keys == old(count.Keys) - {p};
      ok := DestroyHandles(p, extra, dying + {p}, pin, keep);
      assert dying + {p} - {p} == dying;
      assert ok ==> old(count.Keys) - count.Keys == (old(count.Keys) - {p} - count.Keys) + {p};
    }

    /** The destructor of `p` destroys its handles, in any order, and releases what they point to. */
    method DestroyHandles(
        p: Oid, ghost extra: multiset<Oid>, ghost dying: set<Oid>, ghost pin: set<Handle>, ghost keep: set<Oid>)
        returns (ok: bool)
      requires p in dying && Counted(ptr, count, owed, extra, dying, pin) && OnceEach()
      requires Kept(ptr, count.Keys, owed + extra, pin, keep) && Lapsed(ptr, count.Keys, pin)
      modifies this
      ensures !ok ==> Lost(pin, keep)
      ensures ok ==> Counted(ptr, count, owed, extra, dying - {p}, pin) && OnceEach()
      ensures ok ==> Kept(ptr, count.Keys, owed + extra, pin, keep) && StillThere(pin, old(ptr), ptr)
      ensures ok ==> count.Keys <= old(count.Keys) && ptr == Without(old(ptr), (old(count.Keys) - count.Keys) + {p})
      ensures owed == old(owed) && born == old(born)
      decreases count.Keys, 4
    {
      hide Counted, Kept, OnceEach, Lapsed, Lost, StillThere;
      assert StillThere(pin, ptr, ptr) by { AllStay(pin, ptr); }
      while exists h :: h in ptr && h.Field? && h.owner == p
        invariant Counted(ptr, count, owed, extra, dying, pin) && OnceEach()
        invariant Kept(ptr, count.Keys, owed + extra, pin, keep) && count.Keys <= old(count.Keys)
        invariant Lapsed(ptr, count.Keys, pin) && StillThere(pin, old(ptr), ptr)
        invariant Without(ptr, {p}) == Without(old(ptr), (old(count.Keys) - count.Keys) + {p})
        invariant owed == old(owed) && born == old(born)
        decreases Members(ptr, p)
      {
        var h :| h in ptr && h.Field? && h.owner == p;
        DyingIsNoObject(ptr, count, owed, extra, dying, pin, p);
        ghost var ptr0, keys := ptr, count.Keys;
        ok := DestroyHandle(h, p, extra, dying, pin, keep);
        if !ok {
          return;
        }
        MembersLeft(old(ptr), ptr0, ptr, old(count.Keys), keys, count.Keys, h, p);
        PinsLeft(old(ptr), ptr0, ptr, keys, count.Keys, h, pin);
        assert p !in keys;
        MemberGone(ptr0, h, p, keys - count.Keys);
      }
      ok := true;
      DestructorDone(ptr, count, owed, extra, dying, pin, p);
      assert Without(ptr, {p}) == ptr;
    }

    lemma AllStay(pin: set<Handle>, ptr0: Pointers)
      ensures StillThere(pin, ptr0, ptr0)
    {
    }

    /** The pinned handles are as before. */
    lemma PinsLeft(
        start: Pointers, before: Pointers, after: Pointers, keys1: set<Oid>, keys2: set<Oid>, h: Handle,
        pin: set<Handle>)
      requires after == Without(before - {h}, keys1 - keys2) && keys2 <= keys1
      requires StillThere(pin, start, before) && StillThere(pin, before, after) && Lapsed(before, keys1, pin)
      ensures StillThere(pin, start, after) && Lapsed(after, keys2, pin)
    {
    }

    /** One more member is gone, and the objects its release destroyed. */
    lemma MembersLeft(
        start: Pointers, before: Pointers, after: Pointers, keys0: set<Oid>, keys1: set<Oid>, keys2: set<Oid>,
        h: Handle, p: Oid)
      requires h.Field? && h.owner == p && keys2 <= keys1 <= keys0
      requires after == Without(before - {h}, keys1 - keys2)
      requires Without(before, {p}) == Without(start, (keys0 - keys1) + {p})
      ensures Without(after, {p}) == Without(start, (keys0 - keys2) + {p})
    {
      assert Without(before - {h}, {p}) == Without(before, {p});
      WithoutTwice(before - {h}, keys1 - keys2, {p});
      WithoutTwice(before - {h}, {p}, keys1 - keys2);
      assert (keys1 - keys2) + {p} == {p} + (keys1 - keys2);
      WithoutTwice(start, (keys0 - keys1) + {p}, keys1 - keys2);
      assert ((keys0 - keys1) + {p}) + (keys1 - keys2) == (keys0 - keys2) + {p};
    }

    /**
     `~scoped_refptr()` of a member of the dying object `p`.  It calls Release on what the member points to, and
     that has been deleted only if the member is pinned: an assignment to it is under way.
     */
    method DestroyHandle(
        h: Handle, p: Oid, ghost extra: multiset<Oid>, ghost dying: set<Oid>, ghost pin: set<Handle>,
        ghost keep: set<Oid>)
        returns (ok: bool)
      requires p in dying && Counted(ptr, count, owed, extra, dying, pin) && OnceEach()
      requires Kept(ptr, count.Keys, owed + extra, pin, keep) && Lapsed(ptr, count.Keys, pin)
      requires h in ptr && h.Field? && h.owner == p
      modifies this
      ensures !ok ==> Lost(pin, keep)
      ensures ok ==> Counted(ptr, count, owed, extra, dying, pin) && OnceEach()
      ensures ok ==> Kept(ptr, count.Keys, owed + extra, pin, keep) && StillThere(pin, old(ptr), ptr)
      ensures ok ==> count.Keys <= old(count.Keys) && ptr == Without(old(ptr) - {h}, old(count.Keys) - count.Keys)
      ensures owed == old(owed) && born == old(born)
      decreases count.Keys, 3
    {
      hide Counted, Kept, Lapsed, Lost, StillThere;
      var q := ptr[h];
      DeadOnlyIfPinned(h, p, extra, dying, pin, keep);
      if q.Some? && q.value !in count {
        return false;
      }
      KeptWithoutHandle(ptr, count.Keys, owed + extra, pin, keep, h);
      HandleDropped(ptr, count, owed, extra, dying, pin, h);
      ptr := ptr - {h};
      ok := true;
      if q.Some? {
        ok := Release(q.value, extra, dying, pin, keep);
      } else {
        assert ptr == Without(ptr, {});
      }
      if ok {
        StaysOn(pin, old(ptr), old(ptr) - {h}, ptr);
      }
    }

    /** A member of a dying object points to a deleted one only if it is pinned; if it does not, it is not pinned. */
    lemma DeadOnlyIfPinned(
        h: Handle, p: Oid, extra: multiset<Oid>, dying: set<Oid>, pin: set<Handle>, keep: set<Oid>)
      requires p in dying && Counted(ptr, count, owed, extra, dying, pin)
      requires Kept(ptr, count.Keys, owed + extra, pin, keep) && Lapsed(ptr, count.Keys, pin)
      requires h in ptr && h.Field? && h.owner == p
      ensures p !in keep
      ensures if ptr[h].Some? && ptr[h].value !in count then Lost(pin, keep) else h !in pin
      ensures h !in pin ==> StillThere(pin, ptr, ptr - {h}) && Lapsed(ptr - {h}, count.Keys, pin)
      ensures h !in pin && ptr[h].Some? ==> Lapsed(ptr - {h}, count.Keys - {ptr[h].value}, pin)
    {
    }

    lemma StaysOn(pin: set<Handle>, a: Pointers, b: Pointers, c: Pointers)
      requires StillThere(pin, a, b) && (StillThere(pin, b, c) || b == c)
      ensures StillThere(pin, a, c)
    {
    }

    // ---------- The operations of scoped_refptr

    /** `AddRef()` */
    method AddRef(p: Oid)
      requires p in count
      modifies this`count
      ensures count == old(count)[p := old(count)[p] + 1]
    {
      count := count[p := count[p] + 1];
    }

    /** A place for a new handle: a variable, or a member of an object under construction. */
    ghost predicate Unused(v: Handle)
      reads this
    {
      v !in ptr && (v.Field? ==> v.owner in count)
    }

    /** `scoped_refptr(T* p)`, and with it the copy constructors. */
    method Construct(v: Handle, p: Option<Oid>)
      requires Valid() && Unused(v) && (p.Some? ==> p.value in count)
      modifies this
      ensures Valid() && View() == old(View()).(ptr := old(ptr)[v := p])
    {
      hide Counted;
      if p.Some? {
        ReferenceAdded(ptr, count, owed, multiset{}, {}, {}, p.value);
        AddRef(p.value);
      }
      assert multiset{} + Counts(p) == Counts(p);
      UnusedPin(v, Counts(p));
      HandleWritten(ptr, count, owed, multiset{}, v, p);
      ptr := ptr[v := p];
      assert count.Keys == old(count.Keys);
    }

    lemma UnusedPin(v: Handle, extra: multiset<Oid>)
      requires v !in ptr && Counted(ptr, count, owed, extra, {}, {})
      ensures Counted(ptr, count, owed, multiset{} + extra, {}, {v})
    {
      forall o ensures Refs(ptr, {v}, o) == Refs(ptr, {}, o) { }
    }

    /** `new T` with `size` null members, held by a new variable. */
    method NewObject(v: Handle, o: Oid, size: nat)
      requires Valid() && v.Var? && v !in ptr && o !in born
      modifies this
      ensures Valid() && born == old(born) + {o}
      ensures View() ==
              Graph((old(ptr) + map h | h in FieldsOf(o, size) :: None)[v := Some(o)], old(count.Keys) + {o}, old(owed))
    {
      hide Counted, Refs;
      NotBornUnused(o);
      NewCounted(v, o, size);
      ptr := ptr + map h | h in FieldsOf(o, size) :: None;
      count := count[o := 0];
      born := born + {o};
      AddRef(o);
      assert count == old(count)[o := 1] && count.Keys == old(count.Keys) + {o};
      assert multiset(count.Keys) == multiset(old(count.Keys)) + multiset{o};
      assert multiset(born) == multiset(old(born)) + multiset{o};
      HandleWritten(ptr, count, owed, multiset{}, v, Some(o));
      ptr := ptr[v := Some(o)];
    }

    lemma NewCounted(v: Handle, o: Oid, size: nat)
      requires Valid() && v.Var? && v !in ptr && o !in born
      ensures var fields := map h | h in FieldsOf(o, size) :: None;
              Counted(ptr + fields, count[o := 1], owed, multiset{} + Counts(Some(o)), {}, {v})
    {
      NotBornUnused(o);
      var fields := map h | h in FieldsOf(o, size) :: None;
      forall h | h in fields ensures h !in ptr && fields[h] == None { }
      forall x ensures Refs(ptr + fields, {v}, x) == Refs(ptr, {}, x) {
        NullsDoNotCount(ptr, fields, v, x);
      }
      assert Refs(ptr, {}, o) == {};
      hide Refs, FieldsOf;
    }

    lemma NullsDoNotCount(ptr0: Pointers, fields: Pointers, v: Handle, x: Oid)
      requires v !in ptr0 && forall h :: h in fields ==> h !in ptr0 && fields[h] == None
      ensures Refs(ptr0 + fields, {v}, x) == Refs(ptr0, {}, x)
    {
    }

    lemma NotBornUnused(o: Oid)
      requires Valid() && o !in born
      ensures o !in count && o !in owed && forall h :: h in ptr ==> ptr[h] != Some(o) && (h.Field? ==> h.owner != o)
    {
      assert multiset(born)[o] == 0;
      assert multiset(count.Keys)[o] == 0;
    }

    /** The move constructors: `ptr_(r.release())`. */
    method MoveConstruct(v: Handle, src: Handle)
      requires Valid() && Unused(v) && src in ptr
      modifies this
      ensures Valid() && View() == old(View()).(ptr := old(ptr)[src := None][v := old(ptr)[src]])
    {
      hide Counted, Counts;
      var p := ptr[src];
      MoveCounted(v, src);
      ptr := ptr[src := None];
      ptr := ptr[v := p];
    }

    lemma MoveCounted(v: Handle, src: Handle)
      requires Valid() && Unused(v) && src in ptr
      ensures Counted(ptr[src := None][v := ptr[src]], count, owed, multiset{}, {}, {})
    {
      hide Counted, Counts;
      HandlePinned(ptr, count, owed, multiset{}, src);
      RePinned(ptr, src, v, Counts(ptr[src]));
      HandleWritten(ptr[src := None], count, owed, multiset{}, v, ptr[src]);
    }

    /** A null handle needs no pin. */
    lemma RePinned(ptr0: Pointers, src: Handle, v: Handle, extra: multiset<Oid>)
      requires src in ptr0 && v !in ptr0 && Counted(ptr0, count, owed, multiset{} + extra, {}, {src})
      ensures Counted(ptr0[src := None], count, owed, multiset{} + extra, {}, {v})
    {
      forall o ensures Refs(ptr0[src := None], {v}, o) == Refs(ptr0, {src}, o) { }
    }

    lemma OwnerExists(h: Handle)
      requires Counted(ptr, count, owed, multiset{}, {}, {}) && h in ptr
      ensures h.Field? ==> h.owner in count
    {
    }

    /** `release()`: the handle becomes null and the caller owns its reference. */
    method ReleaseHandle(h: Handle) returns (p: Option<Oid>)
      requires Valid() && h in ptr
      modifies this
      ensures Valid() && p == old(ptr)[h]
      ensures View() == old(View()).(ptr := old(ptr)[h := None], owed := old(owed) + Counts(p))
    {
      hide Counted;
      p := ptr[h];
      OwnerExists(h);
      HandlePinned(ptr, count, owed, multiset{}, h);
      ExtraBecomesOwed(ptr, count, owed, multiset{} + Counts(p), {h});
      assert multiset{} + Counts(None) == multiset{};
      assert owed + (multiset{} + Counts(p)) == owed + Counts(p);
      HandleWritten(ptr, count, owed + Counts(p), multiset{}, h, None);
      ptr := ptr[h := None];
      owed := owed + Counts(p);
    }

    /** The owner of a released reference gives it back. */
    method DropOwed(p: Oid)
      requires Valid() && p in owed
      modifies this
      ensures Valid() && View() == Settle(old(View()).(owed := old(owed) - multiset{p}))
    {
      ghost var g := View().(owed := owed - multiset{p});
      ghost var keep := Held(g);
      hide Settle, Held;
      HeldIsKept(g, {}, multiset{});
      OwedBecomesExtra(ptr, count, owed, multiset{p}, {});
      hide Counted, Kept;
      owed := owed - multiset{p};
      assert multiset{} + multiset{p} == multiset{p} && owed + multiset{} == owed;
      NoPins(keep);
      var ok := Release(p, multiset{}, {}, {}, keep);
      Settled(g);
    }

    lemma NoPins(keep: set<Oid>)
      ensures !Lost({}, keep) && forall objects :: Lapsed(ptr, objects, {})
    {
    }

    /**
     What the graph `g` after an operation holds is kept, if the operation only overwrites `pin` with what `roots`
     refer to.
     */
    lemma HeldIsKept(g: Graph, pin: set<Handle>, roots: multiset<Oid>)
      requires g.objects == count.Keys
      requires forall h :: h in g.ptr && h !in pin ==> h in ptr && ptr[h] == g.ptr[h]
      requires forall h :: h in g.ptr && h in pin && g.ptr[h].Some? ==> g.ptr[h].value in roots
      ensures Kept(ptr, count.Keys, g.owed + roots, pin, Held(g))
    {
      HeldHolds(g);
      forall o | o in Held(g) && o !in g.owed + roots
        ensures exists h :: h in ptr && h !in pin && ptr[h] == Some(o) && (h.Var? || h.owner in Held(g))
      {
        var h :| h in g.ptr && h !in {} && g.ptr[h] == Some(o) && (h.Var? || h.owner in Held(g));
      }
    }

    /** After a cascade the heap is what its graph settles to. */
    lemma Settled(g: Graph)
      requires Valid() && count.Keys <= g.objects && Held(g) <= count.Keys
      requires ptr == Without(g.ptr, g.objects - count.Keys) && owed == g.owed
      ensures View() == Settle(g)
    {
      ValidIsReferenced();
      SettledIsHeld(g, View());
    }

    /** `~scoped_refptr()` of a variable. */
    method Destroy(v: Handle)
      requires Valid() && v in ptr && v.Var?
      modifies this
      ensures Valid() && View() == Settle(old(View()).(ptr := old(ptr) - {v}))
    {
      hide Counted, Refs, Settle, Kept, Held;
      ghost var g := View().(ptr := ptr - {v});
      ghost var keep := Held(g);
      HeldIsKept(g, {v}, multiset{});
      var ok := GiveUp(v, multiset{}, keep);
      KeptIsThere(keep, {v}, multiset{});
      Unpin(v);
      ptr := ptr - {v};
      assert ptr == Without(old(ptr) - {v}, old(count.Keys) - count.Keys);
      Settled(g);
    }

    lemma KeptIsThere(keep: set<Oid>, pin: set<Handle>, roots: multiset<Oid>)
      requires Kept(ptr, count.Keys, owed + roots, pin, keep)
      ensures keep <= count.Keys
    {
    }

    lemma Unpin(v: Handle)
      requires v in ptr && v.Var? && Counted(ptr, count, owed, multiset{}, {}, {v})
      ensures Counted(ptr - {v}, count, owed, multiset{}, {}, {})
    {
      forall o ensures Refs(ptr - {v}, {}, o) == Refs(ptr, {v}, o) { }
    }

    /** `if (ptr_) ptr_->Release();` while the handle still holds the pointer. */
    method GiveUp(h: Handle, ghost extra: multiset<Oid>, ghost keep: set<Oid>) returns (ok: bool)
      requires Counted(ptr, count, owed, extra, {}, {}) && OnceEach() && h in ptr
      requires Kept(ptr, count.Keys, owed + extra, {h}, keep)
      modifies this
      ensures !ok ==> h.Field? && h.owner !in keep
      ensures ok ==> Counted(ptr, count, owed, extra, {}, {h}) && OnceEach()
      ensures ok ==> Kept(ptr, count.Keys, owed + extra, {h}, keep) && count.Keys <= old(count.Keys)
      ensures ok ==> ptr == Without(old(ptr), old(count.Keys) - count.Keys)
      ensures ok ==> h in ptr && (h.Field? ==> h.owner in count)
      ensures owed == old(owed) && born == old(born)
    {
      hide Counted, Refs, Kept, Lapsed, Lost, StillThere;
      HandlePinned(ptr, count, owed, extra, h);
      ok := true;
      if ptr[h].Some? {
        OnePin(h, keep);
        ok := Release(ptr[h].value, extra, {}, {h}, keep);
        OnePinStays(h, old(ptr), ptr);
      } else {
        assert extra + Counts(None) == extra;
        assert ptr == Without(ptr, {});
      }
      if ok {
        OwnerCounted(h, extra);
      }
    }

    lemma OnePin(h: Handle, keep: set<Oid>)
      requires h in ptr && ptr[h].Some?
      ensures Lapsed(ptr, count.Keys - {ptr[h].value}, {h})
      ensures Lost({h}, keep) <==> h.Field? && h.owner !in keep
    {
      assert h in {h};
    }

    lemma OnePinStays(h: Handle, before: Pointers, after: Pointers)
      requires h in before
      ensures StillThere({h}, before, after) ==> h in after
    {
      assert h in {h};
    }

    lemma OwnerCounted(h: Handle, extra: multiset<Oid>)
      requires h in ptr && Counted(ptr, count, owed, extra, {}, {h})
      ensures h.Field? ==> h.owner in count
    {
    }

    lemma ValidIsReferenced()
      requires Valid()
      ensures Referenced(View())
    {
      forall o | o in count ensures o in owed || exists h :: h in ptr && ptr[h] == Some(o) {
        if o !in owed {
          assert |Refs(ptr, {}, o)| > 0;
          var h :| h in Refs(ptr, {}, o);
        }
      }
    }

    /**
     After any operations: the objects that exist are exactly the reachable ones if and only if the unreachable
     ones form no cycle.
     */
    lemma ExactlyTheReachableExist()
      requires Valid()
      ensures (forall o :: o in count <==> Reachable(View(), o)) <==> Acyclic(Garbage(View()))
      ensures forall o :: Reachable(View(), o) ==> o in count
    {
      ValidIsReferenced();
      ExistingIffReachable(View());
      forall o: Oid | Reachable(View(), o) ensures o in count {
        var path :| Leads(View(), path, o);
        ReachableExists(View(), path, o);
      }
    }

    /** Assigning `p` to the handle leaves the object that contains it, if any. */
    ghost predicate KeepsOwner(h: Handle, p: Option<Oid>)
      requires h in ptr
      reads this
    {
      h.Field? ==> h.owner in Held(View().(ptr := ptr[h := p]))
    }

    /** Whoever holds a reference to the object that contains a handle may assign to it. */
    lemma UsableIsKept(h: Handle, p: Option<Oid>)
      requires Valid() && Usable(View(), h) && (p.Some? ==> p.value in count)
      ensures KeepsOwner(h, p)
    {
      ValidIsReferenced();
      if h.Field? {
        UsableOwnerIsHeld(View(), h, p);
      }
    }

    /**
     `operator=(T* p)`: AddRef the new pointee, Release the old one, then write the handle.  The
     handle is written after the old pointee and all it held may be gone.  This touches no deleted object (`ok`) if
     and only if the assignment leaves the object that contains the handle; otherwise the destructor of that object
     releases the dying pointee a second time, and nothing is promised of the heap.
     */
    method AssignRaw(h: Handle, p: Option<Oid>) returns (ok: bool)
      requires Valid() && h in ptr && (p.Some? ==> p.value in count)
      modifies this
      ensures ok <==> old(KeepsOwner(h, p))
      ensures ok ==> Valid() && View() == Settle(old(View()).(ptr := old(ptr)[h := p]))
      ensures p == old(ptr)[h] ==> ok && View() == old(View())
    {
      hide Counted, Refs, Kept, Settle, Held;
      SameStays(h, p);
      ghost var g := View().(ptr := ptr[h := p]);
      ghost var keep := Held(g);
      HeldIsKept(g, {h}, Counts(p));
      if p.Some? {
        ReferenceAdded(ptr, count, owed, multiset{}, {}, {}, p.value);
        AddRef(p.value);
      }
      assert multiset{} + Counts(p) == Counts(p);
      assert count.Keys == old(count.Keys) && Counted(ptr, count, owed, Counts(p), {}, {});
      ok := GiveUp(h, Counts(p), keep);
      if !ok {
        return;
      }
      KeptIsThere(keep, {h}, Counts(p));
      HandleWritten(ptr, count, owed, multiset{}, h, p);
      ptr := ptr[h := p];
      assert ptr == Without(old(ptr)[h := p], old(count.Keys) - count.Keys);
      Settled(g);
      assert count.Keys == keep by { SettledObjects(g); }
    }

    lemma SettledObjects(g: Graph)
      ensures Settle(g).objects == Held(g)
    {
    }

    /** Assigning a handle what it holds is no change, and a heap without a change has settled. */
    lemma SameStays(h: Handle, p: Option<Oid>)
      requires Valid() && h in ptr
      ensures p == ptr[h] ==> Settle(View().(ptr := ptr[h := p])) == View() && KeepsOwner(h, p)
    {
      ValidIsReferenced();
      if p == ptr[h] {
        assert ptr[h := p] == ptr;
        SettledStays(View());
      }
    }

    /** `operator=(const scoped_refptr&)`, where the source may live inside an object that the assignment destroys. */
    method AssignCopy(h: Handle, src: Handle) returns (ok: bool)
      requires Valid() && h in ptr && src in ptr
      modifies this
      ensures ok <==> old(KeepsOwner(h, ptr[src]))
      ensures ok ==> Valid() && View() == Settle(old(View()).(ptr := old(ptr)[h := old(ptr)[src]]))
      ensures h == src ==> ok && View() == old(View())
    {
      ok := AssignRaw(h, ptr[src]);
    }

    /** `swap` */
    method Swap(a: Handle, b: Handle)
      requires Valid() && a in ptr && b in ptr
      modifies this
      ensures Valid() && View() == old(View()).(ptr := old(ptr)[a := old(ptr)[b]][b := old(ptr)[a]])
    {
      SwapKeepsCounts(a, b);
      var p := ptr[a];
      ptr := ptr[a := ptr[b]];
      ptr := ptr[b := p];
    }

    /** `swap(T** pp)`: exchanges with a raw pointer whose owner holds a reference. */
    method SwapRaw(h: Handle, p: Option<Oid>) returns (q: Option<Oid>)
      requires Valid() && h in ptr && (p.Some? ==> p.value in owed)
      modifies this
      ensures Valid() && q == old(ptr)[h]
      ensures View() == old(View()).(ptr := old(ptr)[h := p], owed := old(owed) + Counts(q) - Counts(p))
    {
      q := ptr[h];
      hide Counted, Counts;
      ghost var owed' := owed + Counts(q) - Counts(p);
      RawSwapCounted(h, p);
      ptr := ptr[h := p];
      owed := owed';
    }

    lemma RawSwapCounted(h: Handle, p: Option<Oid>)
      requires Valid() && h in ptr && (p.Some? ==> p.value in owed)
      ensures Counted(ptr[h := p], count, owed + Counts(ptr[h]) - Counts(p), multiset{}, {}, {})
    {
      hide Counted;
      var q := ptr[h];
      OwnerExists(h);
      HandlePinned(ptr, count, owed, multiset{}, h);
      assert multiset{} + Counts(q) == Counts(q) && multiset{} + Counts(p) == Counts(p);
      ExtraBecomesOwed(ptr, count, owed, Counts(q), {h});
      OwedBecomesExtra(ptr, count, owed + Counts(q), Counts(p), {h});
      HandleWritten(ptr, count, owed + Counts(q) - Counts(p), multiset{}, h, p);
    }

    /**
     `operator=(scoped_refptr&&)`: `scoped_refptr(std::move(r)).swap(*this)`, with `temp` the temporary.
     The handle is written before anything is released, so this is safe whatever becomes of its owner.
     */
    method AssignMove(h: Handle, src: Handle, temp: Handle)
      requires Valid() && h in ptr && src in ptr && temp.Var? && temp !in ptr
      modifies this
      ensures Valid() && View() == Settle(old(View()).(ptr := old(ptr)[src := None][h := old(ptr)[src]]))
      ensures h == src ==> View() == old(View())
    {
      ghost var g := View().(ptr := ptr[src := None][h := ptr[src]]);
      SelfMoveStays(h, src);
      hide Valid, Settle;
      MoveConstruct(temp, src);
      Swap(temp, h);
      assert View().(ptr := ptr - {temp}) == g by { Moved(old(ptr), h, src, temp); }
      Destroy(temp);
    }

    lemma Moved(ptr0: Pointers, h: Handle, src: Handle, temp: Handle)
      requires h in ptr0 && src in ptr0 && temp !in ptr0
      ensures var ptr1 := ptr0[src := None][temp := ptr0[src]];
              ptr1[temp := ptr1[h]][h := ptr1[temp]] - {temp} == ptr0[src := None][h := ptr0[src]]
    {
    }

    lemma SelfMoveStays(h: Handle, src: Handle)
      requires Valid() && h in ptr && src in ptr
      ensures h == src ==> Settle(View().(ptr := ptr[src := None][h := ptr[src]])) == View()
    {
      hide Valid, Settle;
      if h == src {
        SameStays(h, ptr[h]);
        assert ptr[src := None][h := ptr[src]] == ptr[h := ptr[h]];
      }
    }

    lemma SwapKeepsCounts(a: Handle, b: Handle)
      requires Valid() && a in ptr && b in ptr
      ensures Counted(ptr[a := ptr[b]][b := ptr[a]], count, owed, multiset{}, {}, {})
    {
      forall o ensures |Refs(ptr[a := ptr[b]][b := ptr[a]], {}, o)| == |Refs(ptr, {}, o)| { RefsSwapped(ptr, a, b, o); }
    }
  }

  lemma RefsSwapped(ptr: Pointers, a: Handle, b: Handle, o: Oid)
    requires a in ptr && b in ptr
    ensures |Refs(ptr[a := ptr[b]][b := ptr[a]], {}, o)| == |Refs(ptr, {}, o)|
  {
    if a == b {
      assert ptr[a := ptr[b]][b := ptr[a]] == ptr;
    } else {
      var p, q, rest := ptr[a], ptr[b], ptr - {a} - {b};
      RefsSet(rest, {}, a, p, o);
      RefsSet(rest[a := p], {}, b, q, o);
      assert ptr == rest[a := p][b := q];
      RefsSet(rest, {}, a, q, o);
      RefsSet(rest[a := q], {}, b, p, o);
      assert ptr[a := q][b := p] == rest[a := q][b := p];
    }
  }

  /** The members of an object with `size` handles. */
  function FieldsOf(o: Oid, size: nat): set<Handle> {
    set i | 0 <= i < size :: Field(o, i)
  }

  /** Two objects with one member each, held by two variables. */
  method Pair() returns (heap: Heap)
    ensures fresh(heap) && heap.Valid()
    ensures heap.View() == OfTwo(Two(None, None)[Var(0) := Some(0)][Var(1) := Some(1)])
  {
    hide Heap.Valid;
    heap := new Heap();
    heap.NewObject(Var(0), 0, 1);
    heap.NewObject(Var(1), 1, 1);
    assert FieldsOf(0, 1) == {Field(0, 0)} && FieldsOf(1, 1) == {Field(1, 0)};
    assert heap.View().ptr == Two(None, None)[Var(0) := Some(0)][Var(1) := Some(1)];
  }

  function Two(p: Option<Oid>, q: Option<Oid>): Pointers {
    map[Field(0, 0) := p, Field(1, 0) := q]
  }

  /**
   Two objects are made to hold each other and their variables are destroyed: nothing reaches them any more,
   and they stay.
   */
  method Leak() returns (heap: Heap)
    ensures fresh(heap) && heap.Valid()
    ensures heap.View() == OfTwo(Two(Some(1), Some(0)))
    ensures !Reachable(heap.View(), 0) && !Reachable(heap.View(), 1)
  {
    hide Settle, Reachable, Usable, Heap.Valid;
    heap := Pair();
    FirstLink();
    heap.UsableIsKept(Field(0, 0), Some(1));
    var ok := heap.AssignRaw(Field(0, 0), Some(1));
    SecondLink();
    heap.UsableIsKept(Field(1, 0), Some(0));
    ok := heap.AssignRaw(Field(1, 0), Some(0));
    VariablesGo();
    heap.Destroy(Var(0));
    heap.Destroy(Var(1));
    NothingReached(heap.View());
  }

  /**
   An object that only its own member holds is left by no assignment to that member: here the code releases the
   dying object again and writes to freed memory.
   */
  method OwnMemberFails() returns (ok: bool)
    ensures !ok
  {
    hide Settle, Usable, Heap.Valid, Held;
    var heap := new Heap();
    heap.NewObject(Var(0), 0, 1);
    OneObject();
    assert heap.View() == OfOne(map[Field(0, 0) := None, Var(0) := Some(0)]);
    heap.UsableIsKept(Field(0, 0), Some(0));
    ok := heap.AssignRaw(Field(0, 0), Some(0));
    heap.Destroy(Var(0));
    assert heap.View() == OfOne(map[Field(0, 0) := Some(0)]);
    NothingHolds();
    ok := heap.AssignRaw(Field(0, 0), None);
  }

  function OfOne(ptr: Pointers): Graph {
    Graph(ptr, {0}, multiset{})
  }

  lemma OneObject()
    ensures FieldsOf(0, 1) == {Field(0, 0)}
    ensures var g := OfOne(map[Field(0, 0) := None, Var(0) := Some(0)]);
            && Usable(g, Field(0, 0))
            && Settle(g.(ptr := g.ptr[Field(0, 0) := Some(0)])) == OfOne(map[Field(0, 0) := Some(0), Var(0) := Some(0)])
    ensures var g := OfOne(map[Field(0, 0) := Some(0), Var(0) := Some(0)]);
            Settle(g.(ptr := g.ptr - {Var(0)})) == OfOne(map[Field(0, 0) := Some(0)])
  {
    var g := OfOne(map[Field(0, 0) := None, Var(0) := Some(0)]);
    HeldByVariable(g, Var(0), Field(0, 0));
    var both, one := map[Field(0, 0) := Some(0), Var(0) := Some(0)], map[Field(0, 0) := Some(0)];
    assert g.ptr[Field(0, 0) := Some(0)] == both;
    assert both[Field(0, 0)] == Some(0) && one[Field(0, 0)] == Some(0);
    SettledStays(OfOne(both));
    assert both - {Var(0)} == one;
    SettledStays(OfOne(one));
  }

  lemma NothingHolds()
    ensures var g := OfOne(map[Field(0, 0) := Some(0)]); 0 !in Held(g.(ptr := g.ptr[Field(0, 0) := None]))
  {
  }

  lemma FirstLink()
    ensures var g := OfTwo(Two(None, None)[Var(0) := Some(0)][Var(1) := Some(1)]);
            && Usable(g, Field(0, 0))
            && Settle(g.(ptr := g.ptr[Field(0, 0) := Some(1)])) ==
                OfTwo(Two(Some(1), None)[Var(0) := Some(0)][Var(1) := Some(1)])
  {
    var g := OfTwo(Two(None, None)[Var(0) := Some(0)][Var(1) := Some(1)]);
    var ptr := Two(Some(1), None)[Var(0) := Some(0)][Var(1) := Some(1)];
    assert g.ptr[Field(0, 0) := Some(1)] == ptr;
    HeldByVariable(g, Var(0), Field(0, 0));
    TwoStay(ptr, Var(0), Var(1));
  }

  lemma SecondLink()
    ensures var g := OfTwo(Two(Some(1), None)[Var(0) := Some(0)][Var(1) := Some(1)]);
            && Usable(g, Field(1, 0))
            && Settle(g.(ptr := g.ptr[Field(1, 0) := Some(0)])) ==
                OfTwo(Two(Some(1), Some(0))[Var(0) := Some(0)][Var(1) := Some(1)])
  {
    var g := OfTwo(Two(Some(1), None)[Var(0) := Some(0)][Var(1) := Some(1)]);
    var ptr := Two(Some(1), Some(0))[Var(0) := Some(0)][Var(1) := Some(1)];
    assert g.ptr[Field(1, 0) := Some(0)] == ptr;
    HeldByVariable(g, Var(1), Field(1, 0));
    TwoStay(ptr, Var(0), Var(1));
  }

  lemma VariablesGo()
    ensures var g := OfTwo(Two(Some(1), Some(0))[Var(0) := Some(0)][Var(1) := Some(1)]);
            Settle(g.(ptr := g.ptr - {Var(0)})) == OfTwo(Two(Some(1), Some(0))[Var(1) := Some(1)])
    ensures var g := OfTwo(Two(Some(1), Some(0))[Var(1) := Some(1)]);
            Settle(g.(ptr := g.ptr - {Var(1)})) == OfTwo(Two(Some(1), Some(0)))
  {
    var ptr := Two(Some(1), Some(0));
    assert ptr[Var(0) := Some(0)][Var(1) := Some(1)] - {Var(0)} == ptr[Var(1) := Some(1)];
    assert ptr[Var(1) := Some(1)] - {Var(1)} == ptr;
    TwoStay(ptr[Var(1) := Some(1)], Field(1, 0), Var(1));
    TwoStay(ptr, Field(1, 0), Field(0, 0));
  }

  function OfTwo(ptr: Pointers): Graph {
    Graph(ptr, {0, 1}, multiset{})
  }

  lemma HeldByVariable(g: Graph, v: Handle, h: Handle)
    requires v.Var? && v in g.ptr && h in g.ptr && h.Field? && g.ptr[v] == Some(h.owner)
    ensures Usable(g, h)
  {
    assert Leads(g, [v], h.owner);
  }

  /** As long as something points to each of two objects, they stay. */
  lemma TwoStay(ptr: Pointers, a: Handle, b: Handle)
    requires forall h :: h in ptr ==> h in {Field(0, 0), Field(1, 0), Var(0), Var(1)}
    requires forall h :: h in ptr ==> ptr[h] in {None, Some(0), Some(1)}
    requires a in ptr && ptr[a] == Some(0) && b in ptr && ptr[b] == Some(1)
    ensures Settle(OfTwo(ptr)) == OfTwo(ptr)
  {
    SettledStays(OfTwo(ptr));
  }

  lemma NothingReached(g: Graph)
    requires g.owed == multiset{} && forall h :: h in g.ptr ==> h.Field?
    ensures forall o :: !Reachable(g, o)
  {
    forall o, path ensures !Leads(g, path, o) {
      NoPathIntoCycle(g, path, o);
    }
  }
}
