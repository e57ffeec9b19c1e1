/**
 Intrusive reference counting: `scoped_refptr` handles in variables and inside
 objects, and `RefCountedBase` objects that delete themselves when the last
 reference goes, which destroys their own handles in turn.

 The specification knows no counters.  After an operation the largest set of objects
 exists each of which is referenced from a variable, from a reference handed out by
 `release()` or from another object of the set.  That is what tracing collection
 would keep if and only if the unreachable objects that are left form no cycle.
 */
module RefGraph {
  import opened Wrappers

  type Oid = nat

  /** A `scoped_refptr`: a variable, or a member of an object. */
  datatype Handle = Var(name: nat) | Field(owner: Oid, name: nat)

  type Pointers = map<Handle, Option<Oid>>

  /** What a program can observe: its handles, the objects that exist, and the raw references it owns. */
  datatype Graph = Graph(ptr: Pointers, objects: set<Oid>, owed: multiset<Oid>)

  /**
   `path` leads to `o`: each handle points to the owner of the next, starting from a variable or an owed reference.
   */
  ghost predicate Leads(g: Graph, path: seq<Handle>, o: Oid) {
    if path == [] then o in g.owed else
      var last := path[|path| - 1];
      && last in g.ptr && g.ptr[last] == Some(o)
      && match last
         case Var(_) => |path| == 1
         case Field(owner, _) => Leads(g, path[..|path| - 1], owner)
  }

  ghost predicate Reachable(g: Graph, o: Oid) {
    exists path :: Leads(g, path, o)
  }

  /** The handles that remain when the objects in `gone` are destroyed. */
  function Without(ptr: Pointers, gone: set<Oid>): Pointers {
    map h | h in ptr && (h.Var? || h.owner !in gone) :: ptr[h]
  }

  /** The graph in which only the objects in `keep` exist. */
  function Restrict(g: Graph, keep: set<Oid>): Graph {
    Graph(Without(g.ptr, g.objects - keep), keep, g.owed)
  }

  /** Tracing collection: keep what is reachable. */
  ghost function Collect(g: Graph): Graph {
    Restrict(g, set o | o in g.objects && Reachable(g, o))
  }

  /** Following members strictly increases the rank, so no object contains itself, directly or not. */
  ghost predicate Ranked(ptr: Pointers, rank: map<Oid, nat>) {
    forall h :: h in ptr && h.Field? && ptr[h].Some? ==>
      h.owner in rank && ptr[h].value in rank && rank[h.owner] < rank[ptr[h].value]
  }

  ghost predicate Acyclic(ptr: Pointers) {
    exists rank :: Ranked(ptr, rank)
  }

  /**
   Each object in `keep` is referenced by an owed reference, by a variable or from inside `keep`, not counting `pin`.
   */
  ghost predicate Supported(ptr: Pointers, owed: multiset<Oid>, pin: set<Handle>, keep: set<Oid>) {
    forall o :: o in keep ==>
      o in owed || exists h :: h in ptr && h !in pin && ptr[h] == Some(o) && (h.Var? || h.owner in keep)
  }

  /** Some of the objects, each with a reference that does not come from the others. */
  ghost predicate Holds(g: Graph, keep: set<Oid>) {
    keep <= g.objects && Supported(g.ptr, g.owed, {}, keep)
  }

  /** The largest such set. */
  ghost function Held(g: Graph): set<Oid> {
    set o | o in g.objects && exists keep :: Holds(g, keep) && o in keep
  }

  /** What is left when every object without a reference has been deleted, and so on. */
  ghost function Settle(g: Graph): Graph {
    Restrict(g, Held(g))
  }

  /** Whoever uses a member of an object holds a reference to that object, or borrows one. */
  ghost predicate Usable(g: Graph, h: Handle) {
    h in g.ptr && (h.Field? ==> Reachable(g, h.owner))
  }

  /** The handles that count as references to `o`; those in `pin` hold a pointer whose reference is already given up. */
  function Refs(ptr: Pointers, pin: set<Handle>, o: Oid): set<Handle> {
    set h | h in ptr && h !in pin && ptr[h] == Some(o)
  }

  // ---------- Lemmas on handles and references

  lemma RefsRemoved(ptr: Pointers, pin: set<Handle>, h: Handle, o: Oid)
    requires h in ptr && h !in pin
    ensures |Refs(ptr, pin, o)| == |Refs(ptr - {h}, pin, o)| + if ptr[h] == Some(o) then 1 else 0
  {
    var before, after := Refs(ptr, pin, o), Refs(ptr - {h}, pin, o);
    if ptr[h] == Some(o) {
      assert before == after + {h} && h !in after;
    } else {
      assert before == after;
    }
  }

  lemma RefsSet(ptr: Pointers, pin: set<Handle>, h: Handle, p: Option<Oid>, o: Oid)
    requires h !in ptr && h !in pin
    ensures |Refs(ptr[h := p], pin, o)| == |Refs(ptr, pin, o)| + if p == Some(o) then 1 else 0
  {
    assert ptr[h := p] - {h} == ptr;
    RefsRemoved(ptr[h := p], pin, h, o);
  }

  lemma RefsUnpinned(ptr: Pointers, h: Handle, o: Oid)
    ensures Refs(ptr, {h}, o) == Refs(ptr - {h}, {}, o)
  {
  }

  // ---------- Paths that avoid a handle

  lemma {:induction false} PathPrefix(g: Graph, path: seq<Handle>, o: Oid, i: nat)
    requires Leads(g, path, o) && i < |path| && path[i].Field?
    ensures Leads(g, path[..i], path[i].owner)
  {
    var last := |path| - 1;
    if i < last {
      PathPrefix(g, path[..last], path[last].owner, i);
      assert path[..last][..i] == path[..i];
    }
  }

  lemma {:induction false} PathAvoids(g: Graph, path: seq<Handle>, o: Oid, h: Handle)
    requires Leads(g, path, o) && h !in path
    ensures Leads(g.(ptr := g.ptr - {h}), path, o)
  {
    if path != [] && path[|path| - 1].Field? {
      PathAvoids(g, path[..|path| - 1], path[|path| - 1].owner, h);
    }
  }

  /** An object can be reached without going through its own member. */
  lemma {:induction false} ReachedWithoutOwnMember(g: Graph, path: seq<Handle>, h: Handle)
    requires h.Field? && Leads(g, path, h.owner)
    ensures Reachable(g.(ptr := g.ptr - {h}), h.owner)
    decreases |path|
  {
    if i :| 0 <= i < |path| && path[i] == h {
      PathPrefix(g, path, h.owner, i);
      ReachedWithoutOwnMember(g, path[..i], h);
    } else {
      PathAvoids(g, path, h.owner, h);
    }
  }

  lemma {:induction false} PathStays(g: Graph, h: Handle, p: Option<Oid>, path: seq<Handle>, o: Oid)
    requires Leads(g.(ptr := g.ptr - {h}), path, o)
    ensures Leads(g.(ptr := g.ptr[h := p]), path, o)
  {
    if path != [] && path[|path| - 1].Field? {
      PathStays(g, h, p, path[..|path| - 1], path[|path| - 1].owner);
    }
  }

  // ---------- What counting keeps

  /** Every handle and owed reference is to an existing object. */
  ghost predicate Closed(g: Graph) {
    && (forall h :: h in g.ptr && h.Field? ==> h.owner in g.objects)
    && (forall h :: h in g.ptr && g.ptr[h].Some? ==> g.ptr[h].value in g.objects)
    && (forall o :: o in g.owed ==> o in g.objects)
  }

  /** And every existing object has such a reference. */
  ghost predicate Referenced(g: Graph) {
    Closed(g) && forall o :: o in g.objects ==> o in g.owed || exists h :: h in g.ptr && g.ptr[h] == Some(o)
  }

  lemma {:induction false} ReachableExists(g: Graph, path: seq<Handle>, o: Oid)
    requires Closed(g) && Leads(g, path, o)
    ensures o in g.objects
  {
  }

  lemma HeldHolds(g: Graph)
    ensures Holds(g, Held(g))
  {
    forall o | o in Held(g) && o !in g.owed
      ensures exists h :: h in g.ptr && h !in {} && g.ptr[h] == Some(o) && (h.Var? || h.owner in Held(g))
    {
      var keep :| Holds(g, keep) && o in keep;
      var h :| h in g.ptr && h !in {} && g.ptr[h] == Some(o) && (h.Var? || h.owner in keep);
      if h.Field? {
        assert Holds(g, keep) && h.owner in keep;
      }
    }
  }

  /** What is reachable is held. */
  lemma ReachableIsHeld(g: Graph, o: Oid)
    requires Closed(g) && Reachable(g, o)
    ensures o in Held(g)
  {
    var keep := set x | x in g.objects && Reachable(g, x);
    forall x | x in keep && x !in g.owed
      ensures exists h :: h in g.ptr && h !in {} && g.ptr[h] == Some(x) && (h.Var? || h.owner in keep)
    {
      var path :| Leads(g, path, x);
      var h: Handle := path[|path| - 1];
      if h.Field? {
        assert Leads(g, path[..|path| - 1], h.owner);
      }
    }
    assert Holds(g, keep);
    var path :| Leads(g, path, o);
    ReachableExists(g, path, o);
  }

  /** Whoever holds a reference to its owner may assign to a member: the owner is held all along. */
  lemma UsableOwnerIsHeld(g: Graph, h: Handle, p: Option<Oid>)
    requires Closed(g) && Usable(g, h) && h.Field? && (p.Some? ==> p.value in g.objects)
    ensures h.owner in Held(g.(ptr := g.ptr[h := p]))
  {
    var path :| Leads(g, path, h.owner);
    ReachedWithoutOwnMember(g, path, h);
    var path' :| Leads(g.(ptr := g.ptr - {h}), path', h.owner);
    PathStays(g, h, p, path', h.owner);
    ReachableIsHeld(g.(ptr := g.ptr[h := p]), h.owner);
  }

  /** A heap in which every object is referenced has settled. */
  lemma SettledStays(g: Graph)
    requires Referenced(g)
    ensures Settle(g) == g
  {
    assert Holds(g, g.objects);
    assert Without(g.ptr, {}) == g.ptr;
    assert g.objects - Held(g) == {};
  }

  /** Deleting objects until each one left is referenced, and none that is held, is settling. */
  lemma SettledIsHeld(g: Graph, h: Graph)
    requires Referenced(h) && h.objects <= g.objects && Held(g) <= h.objects
    requires h.ptr == Without(g.ptr, g.objects - h.objects) && h.owed == g.owed
    ensures h == Settle(g)
  {
    forall o | o in h.objects && o !in g.owed
      ensures exists k :: k in g.ptr && k !in {} && g.ptr[k] == Some(o) && (k.Var? || k.owner in h.objects)
    {
      var k :| k in h.ptr && h.ptr[k] == Some(o);
    }
    assert Holds(g, h.objects);
    assert h.objects == Held(g);
  }

  // ---------- Counting and tracing

  /** The members of objects that nothing reaches. */
  ghost function Garbage(g: Graph): Pointers {
    map h | h in g.ptr && h.Field? && !Reachable(g, h.owner) :: g.ptr[h]
  }

  /**
   Going back from an unreachable object to one that points to it lowers the rank, so that without a cycle
   there is a first one, which nothing references.
   */
  lemma {:induction false} ExistingIsReachable(g: Graph, rank: map<Oid, nat>, o: Oid)
    requires Referenced(g) && Ranked(Garbage(g), rank) && o in g.objects
    ensures Reachable(g, o)
    decreases if o in rank then rank[o] + 1 else 0
  {
    if o in g.owed {
      assert Leads(g, [], o);
    } else {
      var h :| h in g.ptr && g.ptr[h] == Some(o);
      if h.Var? {
        assert Leads(g, [h], o);
      } else {
        if !Reachable(g, h.owner) {
          assert h in Garbage(g);
          ExistingIsReachable(g, rank, h.owner);
        }
        var path :| Leads(g, path, h.owner);
        assert (path + [h])[..|path|] == path;
        assert Leads(g, path + [h], o);
      }
    }
  }

  /** Where every object is referenced, all are reachable if and only if the unreachable ones form no cycle. */
  lemma ExistingIffReachable(g: Graph)
    requires Referenced(g)
    ensures (forall o :: o in g.objects <==> Reachable(g, o)) <==> Acyclic(Garbage(g))
  {
    forall o | Reachable(g, o) ensures o in g.objects {
      var path :| Leads(g, path, o);
      ReachableExists(g, path, o);
    }
    if forall o :: o in g.objects <==> Reachable(g, o) {
      assert Garbage(g) == map[];
      assert Ranked(Garbage(g), map[]);
    }
    if Acyclic(Garbage(g)) {
      var rank :| Ranked(Garbage(g), rank);
      forall o | o in g.objects ensures Reachable(g, o) {
        ExistingIsReachable(g, rank, o);
      }
    }
  }

  /** What is reachable before objects are deleted is still reachable after it, along the same path. */
  lemma {:induction false} PathSurvives(g: Graph, h: Graph, path: seq<Handle>, o: Oid)
    requires Closed(h) && h.objects <= g.objects && h.ptr == Without(g.ptr, g.objects - h.objects) && h.owed == g.owed
    requires Leads(g, path, o)
    ensures Leads(h, path, o)
  {
    if path != [] && path[|path| - 1].Field? {
      var init := path[..|path| - 1];
      PathSurvives(g, h, init, path[|path| - 1].owner);
      ReachableExists(h, init, path[|path| - 1].owner);
    }
  }

  lemma {:induction false} PathExisted(g: Graph, h: Graph, path: seq<Handle>, o: Oid)
    requires h.ptr == Without(g.ptr, g.objects - h.objects) && h.owed == g.owed && Leads(h, path, o)
    ensures Leads(g, path, o)
  {
    if path != [] && path[|path| - 1].Field? {
      PathExisted(g, h, path[..|path| - 1], path[|path| - 1].owner);
    }
  }

  lemma SettledIsReferenced(g: Graph)
    requires Closed(g)
    ensures Referenced(Settle(g))
    ensures forall o :: Reachable(Settle(g), o) <==> Reachable(g, o)
  {
    var h := Settle(g);
    HeldHolds(g);
    forall k | k in h.ptr && h.ptr[k].Some? ensures h.ptr[k].value in h.objects {
      SettledPointer(g, k);
    }
    forall o | o in g.owed ensures o in h.objects {
      assert Leads(g, [], o);
      ReachableIsHeld(g, o);
    }
    forall o | o in h.objects && o !in h.owed ensures exists k :: k in h.ptr && h.ptr[k] == Some(o) {
      var k :| k in g.ptr && k !in {} && g.ptr[k] == Some(o) && (k.Var? || k.owner in Held(g));
      assert k in h.ptr;
    }
    forall o ensures Reachable(h, o) <==> Reachable(g, o) {
      if Reachable(h, o) {
        var path :| Leads(h, path, o);
        PathExisted(g, h, path, o);
      }
      if Reachable(g, o) {
        var path :| Leads(g, path, o);
        PathSurvives(g, h, path, o);
      }
    }
  }

  /** What a variable or a held object points to is held. */
  lemma SettledPointer(g: Graph, k: Handle)
    requires Closed(g) && k in Settle(g).ptr && g.ptr[k].Some?
    ensures g.ptr[k].value in Held(g)
  {
    HeldHolds(g);
    var o := g.ptr[k].value;
    var keep := Held(g) + {o};
    forall x | x in keep && x !in g.owed
      ensures exists h :: h in g.ptr && h !in {} && g.ptr[h] == Some(x) && (h.Var? || h.owner in keep)
    {
      if x in Held(g) {
        var h :| h in g.ptr && h !in {} && g.ptr[h] == Some(x) && (h.Var? || h.owner in Held(g));
      } else {
        assert k.Var? || k.owner in Held(g);
      }
    }
    assert Holds(g, keep);
  }

  /** Counting keeps exactly what tracing would if and only if no cycle of unreachable objects is left. */
  lemma CountingIsTracing(g: Graph)
    requires Closed(g)
    ensures Settle(g) == Collect(g) <==> Acyclic(Garbage(Settle(g)))
  {
    var h := Settle(g);
    SettledIsReferenced(g);
    ExistingIffReachable(h);
    var live := set o | o in g.objects && Reachable(g, o);
    forall o | Reachable(g, o) ensures o in live && o in h.objects {
      ReachableIsHeld(g, o);
    }
    assert h.objects == live <==> forall o :: o in h.objects <==> Reachable(h, o);
  }

  // ---------- Keeping the members acyclic

  /** `path` leads from `from` to `to` through members: each handle is in the object the one before points to. */
  ghost predicate Contains(ptr: Pointers, from: Oid, path: seq<Handle>, to: Oid) {
    if path == [] then from == to else
      var last := path[|path| - 1];
      && last.Field? && last in ptr && ptr[last] == Some(to)
      && Contains(ptr, from, path[..|path| - 1], last.owner)
  }

  ghost predicate LeadsTo(ptr: Pointers, from: Oid, to: Oid) {
    exists path :: Contains(ptr, from, path, to)
  }

  function RankOf(rank: map<Oid, nat>, o: Oid): nat {
    if o in rank then rank[o] else 0
  }

  /** The rank does not go down along members. */
  lemma {:induction false} RankRises(ptr: Pointers, rank: map<Oid, nat>, from: Oid, path: seq<Handle>, to: Oid)
    requires Ranked(ptr, rank) && Contains(ptr, from, path, to)
    ensures RankOf(rank, from) <= RankOf(rank, to)
  {
    if path != [] {
      var last := path[|path| - 1];
      RankRises(ptr, rank, from, path[..|path| - 1], last.owner);
    }
  }

  lemma {:induction false} ContainsStays(
      ptr: Pointers, h: Handle, p: Option<Oid>, from: Oid, path: seq<Handle>, to: Oid)
    requires Contains(ptr - {h}, from, path, to)
    ensures Contains(ptr[h := p], from, path, to)
  {
    if path != [] {
      ContainsStays(ptr, h, p, from, path[..|path| - 1], path[|path| - 1].owner);
    }
  }

  /** The objects that `from` leads to, ranked above everything up to `base`. */
  ghost function Lifted(ptr: Pointers, rank: map<Oid, nat>, objects: set<Oid>, from: Oid, base: nat): map<Oid, nat> {
    map o | o in objects :: RankOf(rank, o) + if LeadsTo(ptr, from, o) then base + 1 else 0
  }

  lemma LeadsOn(ptr: Pointers, from: Oid, k: Handle)
    requires k in ptr && k.Field? && ptr[k].Some? && LeadsTo(ptr, from, k.owner)
    ensures LeadsTo(ptr, from, ptr[k].value)
  {
    var path :| Contains(ptr, from, path, k.owner);
    assert (path + [k])[..|path|] == path;
    assert Contains(ptr, from, path + [k], ptr[k].value);
  }

  /**
   Assigning to a member keeps the objects free of cycles if and only if the new pointee does not already lead to
   the object that contains the member.
   */
  lemma AssigningKeepsAcyclic(ptr: Pointers, h: Handle, o: Oid)
    requires h.Field? && Acyclic(ptr - {h})
    ensures Acyclic(ptr[h := Some(o)]) <==> !LeadsTo(ptr - {h}, o, h.owner)
  {
    var before, after := ptr - {h}, ptr[h := Some(o)];
    if Acyclic(after) && LeadsTo(before, o, h.owner) {
      var rank :| Ranked(after, rank);
      var path :| Contains(before, o, path, h.owner);
      ContainsStays(ptr, h, Some(o), o, path, h.owner);
      assert after[h] == Some(o);
      RankRises(after, rank, o, path, h.owner);
      assert false;
    }
    if !LeadsTo(before, o, h.owner) {
      var rank :| Ranked(before, rank);
      var lifted := Lifted(before, rank, rank.Keys + {o, h.owner}, o, RankOf(rank, h.owner));
      assert LeadsTo(before, o, o) by { assert Contains(before, o, [], o); }
      forall k | k in after && k.Field? && after[k].Some?
        ensures k.owner in lifted && after[k].value in lifted && lifted[k.owner] < lifted[after[k].value]
      {
        if k != h {
          assert k in before && before[k] == after[k];
          if LeadsTo(before, o, k.owner) {
            LeadsOn(before, o, k);
          }
        }
      }
      assert Ranked(after, lifted);
    }
  }

  /** Without cycles counting is tracing, and none appears. */
  lemma AcyclicIsTraced(g: Graph)
    requires Closed(g) && Acyclic(g.ptr)
    ensures Settle(g) == Collect(g) && Acyclic(Settle(g).ptr)
  {
    var rank :| Ranked(g.ptr, rank);
    assert Ranked(Settle(g).ptr, rank) && Ranked(Garbage(Settle(g)), rank);
    CountingIsTracing(g);
  }

  lemma {:induction false} NoPathIntoCycle(g: Graph, path: seq<Handle>, o: Oid)
    requires g.owed == multiset{} && forall h :: h in g.ptr ==> h.Field?
    ensures !Leads(g, path, o)
  {
    if path != [] && path[|path| - 1].Field? {
      NoPathIntoCycle(g, path[..|path| - 1], path[|path| - 1].owner);
    }
  }
}
