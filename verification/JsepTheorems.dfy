/**
 Rollback and ownership over every history of operations.  The reference below reads
 only the history: what the MIDs were last set to, what they were at the last commit,
 and which transports were ever registered.  It destroys nothing.
 */
module JsepTheorems {
  import opened JsepModel

  datatype Mappings = Mappings(current: map<Mid, Transport>, committed: map<Mid, Transport>)

  function Map(m: Mappings, op: Op): Mappings {
    match op
    case Register(mid, t) => m.(current := m.current[mid := t])
    case SetFor(mid, t) => m.(current := m.current[mid := t])
    case RemoveFor(mid) => m.(current := m.current - {mid})
    case Rollback => m.(current := m.committed)
    case Commit => m.(committed := m.current)
  }

  function Mapped(ops: seq<Op>): Mappings {
    if ops == [] then Mappings(map[], map[]) else Map(Mapped(ops[..|ops| - 1]), ops[|ops| - 1])
  }

  function Name(names: map<Transport, Mid>, op: Op): map<Transport, Mid> {
    if op.Register? then names[op.transport := op.mid] else names
  }

  /** The name every transport was registered with. */
  function Names(ops: seq<Op>): map<Transport, Mid> {
    if ops == [] then map[] else Name(Names(ops[..|ops| - 1]), ops[|ops| - 1])
  }

  /** The transports some MID maps to, now or at the last commit. */
  function Needed(ops: seq<Op>): set<Transport> {
    Mapped(ops).current.Values + Mapped(ops).committed.Values
  }

  /** `byName` holds the transports of `needed` under their names; all others that ever existed are destroyed. */
  ghost predicate Owns(c: Collection, names: map<Transport, Mid>, needed: set<Transport>) {
    && needed <= names.Keys
    && (forall t :: t in needed ==> names[t] in c.byName && c.byName[names[t]] == t)
    && (forall n :: n in c.byName ==> c.byName[n] in needed && names[c.byName[n]] == n)
    && c.destroyed == names.Keys - needed
  }

  function NeededBy(c: Collection): set<Transport> {
    c.current.Values + c.stable.Values
  }

  ghost predicate Inv(c: Collection, names: map<Transport, Mid>) {
    Owns(c, names, NeededBy(c))
  }

  lemma OwnsNeeded(c: Collection, names: map<Transport, Mid>, needed: set<Transport>)
    requires Owns(c, names, needed)
    ensures Owned(c) == needed
  {
    forall t | t in needed ensures t in Owned(c) {
      assert c.byName[names[t]] == t;
    }
  }

  /** Replacing or removing one mapping leaves at most the transport it pointed at unneeded. */
  lemma MaybeDestroyKeeps(c: Collection, names: map<Transport, Mid>, previous: Transport)
    requires Owns(c, names, NeededBy(c) + {previous})
    ensures Inv(MaybeDestroyJsepTransport(c, previous), names)
  {
    OwnsNeeded(c, names, NeededBy(c) + {previous});
    if TransportInUse(c, previous) || TransportNeededForRollback(c, previous) {
      assert NeededBy(c) + {previous} == NeededBy(c);
    } else {
      assert NeededBy(Destroy(c, previous)) == NeededBy(c);
    }
  }

  lemma SetKeeps(c: Collection, names: map<Transport, Mid>, mid: Mid, t: Transport)
    requires Owns(c, names, NeededBy(c) + {t})
    ensures Inv(SetTransportForMid(c, mid, t), names)
  {
    var c1 := c.(current := c.current[mid := t]);
    assert t in c1.current.Values by { assert c1.current[mid] == t; }
    forall u | u in NeededBy(c) && (mid !in c.current || u != c.current[mid]) ensures u in NeededBy(c1) {
      if u in c.current.Values {
        var m :| m in c.current && c.current[m] == u;
        assert c1.current[m] == u;
      }
    }
    if mid in c.current {
      assert NeededBy(c1) + {c.current[mid]} == NeededBy(c) + {t};
      MaybeDestroyKeeps(c1, names, c.current[mid]);
    } else {
      assert NeededBy(c1) == NeededBy(c) + {t};
    }
  }

  lemma RemoveKeeps(c: Collection, names: map<Transport, Mid>, mid: Mid)
    requires Inv(c, names) && mid in c.current
    ensures Inv(RemoveTransportForMid(c, mid), names)
  {
    var c1 := c.(current := c.current - {mid});
    forall u | u in NeededBy(c) && u != c.current[mid] ensures u in NeededBy(c1) {
      if u in c.current.Values {
        var m :| m in c.current && c.current[m] == u;
        assert c1.current[m] == u;
      }
    }
    assert NeededBy(c1) + {c.current[mid]} == NeededBy(c);
    MaybeDestroyKeeps(c1, names, c.current[mid]);
  }

  lemma DestroyUnusedKeeps(c: Collection, names: map<Transport, Mid>, needed: set<Transport>)
    requires Owns(c, names, needed) && NeededBy(c) <= needed
    ensures Inv(DestroyUnusedTransports(c), names)
  {
    OwnsNeeded(c, names, needed);
    var c1 := DestroyUnusedTransports(c);
    forall t | t in NeededBy(c) ensures t in Owned(c1) {
      assert c1.byName[names[t]] == t;
    }
    assert Owned(c1) == NeededBy(c);
    assert c1.destroyed == names.Keys - NeededBy(c1);
  }

  lemma StepKeeps(c: Collection, names: map<Transport, Mid>, op: Op)
    requires Inv(c, names) && Allowed(c, op)
    ensures Inv(Apply(c, op), Name(names, op))
  {
    hide NeededBy, Owned;
    OwnsNeeded(c, names, NeededBy(c));
    match op {
      case Register(mid, t) => RegisterKeeps(c, names, mid, t);
      case SetFor(mid, t) =>
        assert NeededBy(c) + {t} == NeededBy(c);
        SetKeeps(c, names, mid, t);
      case RemoveFor(mid) =>
        if mid in c.current {
          RemoveKeeps(c, names, mid);
        }
      case Rollback => 
        RollbackNeeds(c);
        DestroyUnusedKeeps(c.(current := c.stable), names, NeededBy(c));
      case Commit =>
        RollbackNeeds(c);
        DestroyUnusedKeeps(c.(stable := c.current), names, NeededBy(c));
    }
  }

  lemma RollbackNeeds(c: Collection)
    ensures NeededBy(c.(current := c.stable)) <= NeededBy(c)
    ensures NeededBy(c.(stable := c.current)) <= NeededBy(c)
  {
  }

  lemma RegisterKeeps(c: Collection, names: map<Transport, Mid>, mid: Mid, t: Transport)
    requires Inv(c, names) && Allowed(c, Register(mid, t))
    ensures Inv(RegisterTransport(c, mid, t), names[t := mid])
  {
    OwnsNeeded(c, names, NeededBy(c));
    if mid in c.byName {
      ReplacedFirst(c, names, mid, t);
      RemoveKeeps(c, names, mid);
      RegisterNewKeeps(RemoveTransportForMid(c, mid), names, mid, t);
    } else {
      RegisterNewKeeps(c, names, mid, t);
    }
  }

  lemma RegisterNewKeeps(c: Collection, names: map<Transport, Mid>, mid: Mid, t: Transport)
    requires Inv(c, names) && mid !in c.byName && IsNew(c, t)
    ensures Inv(RegisterTransport(c, mid, t), names[t := mid])
  {
    OwnsNeeded(c, names, NeededBy(c));
    var c1 := c.(byName := c.byName[mid := t]);
    assert c1.destroyed == c.destroyed + {};
    assert t !in names;
    assert c1.destroyed == names[t := mid].Keys - (NeededBy(c) + {t});
    SetKeeps(c1, names[t := mid], mid, t);
  }

  /** A name whose transport only its own MID needs may be used again: that is removing the MID first. */
  lemma ReplacedFirst(c: Collection, names: map<Transport, Mid>, mid: Mid, t: Transport)
    requires Inv(c, names) && mid in c.byName && !NameInUse(c, mid) && IsNew(c, t)
    ensures mid in c.current && mid !in RemoveTransportForMid(c, mid).byName && IsNew(RemoveTransportForMid(c, mid), t)
    ensures RegisterTransport(RemoveTransportForMid(c, mid), mid, t) == RegisterTransport(c, mid, t)
  {
    var x := c.byName[mid];
    assert x in NeededBy(c);
    var m :| m in c.current && c.current[m] == x;
    assert c.current[mid] == x;
    var c1 := c.(current := c.current - {mid});
    assert x !in c1.current.Values;
    assert forall n :: n in c.byName && c.byName[n] == x ==> n == mid;
    assert Destroy(c1, x).byName == c.byName - {mid};
    assert x in Owned(c1);
    var c2 := RemoveTransportForMid(c, mid);
    assert c2 == Destroy(c1, x) && c2.destroyed == c.destroyed + {x};
    assert c2.byName[mid := t] == c.byName[mid := t] && c2.current[mid := t] == c.current[mid := t];
    var after := c.(byName := c.byName[mid := t], current := c.current[mid := t], destroyed := c.destroyed + {x});
    assert x !in Owned(after) by {
      forall n | n in after.byName ensures after.byName[n] != x { }
    }
    assert Destroy(after, x).byName == after.byName;
    assert Destroy(after, x).destroyed == after.destroyed;
  }

  /** What an operation does to the two mappings does not depend on what is destroyed. */
  lemma StepMaps(c: Collection, op: Op)
    ensures Apply(c, op).current == Map(Mappings(c.current, c.stable), op).current
    ensures Apply(c, op).stable == Map(Mappings(c.current, c.stable), op).committed
  {
  }

  /**
   For every history: the mappings are the ones last set and last committed, the collection owns exactly
   the transports that one of the two maps to, each under the name it was registered with, and it has
   destroyed exactly the others.
   */
  lemma {:induction false} OwnsExactlyTheNeeded(ops: seq<Op>)
    requires Runs(ops)
    ensures var c := After(ops);
            && c.current == Mapped(ops).current && c.stable == Mapped(ops).committed
            && Owned(c) == Needed(ops) && c.destroyed == Names(ops).Keys - Needed(ops)
            && Owns(c, Names(ops), Needed(ops))
  {
    if ops != [] {
      hide Apply, Map, Owned;
      var before := ops[..|ops| - 1];
      OwnsExactlyTheNeeded(before);
      StepKeeps(After(before), Names(before), ops[|ops| - 1]);
      StepMaps(After(before), ops[|ops| - 1]);
    }
    OwnsNeeded(After(ops), Names(ops), Needed(ops));
  }

  // ---------- Rollback and commit

  /** The history since a commit holds no other commit. */
  ghost predicate Pending(ops: seq<Op>) {
    forall i :: 0 <= i < |ops| ==> ops[i] != Commit
  }

  lemma {:induction false} CommittedIsFixed(ops: seq<Op>, pending: seq<Op>)
    requires Pending(pending)
    ensures Mapped(ops + [Commit] + pending).committed == Mapped(ops).current
  {
    var all := ops + [Commit] + pending;
    if pending == [] {
      assert all[..|all| - 1] == ops;
    } else {
      assert all[..|all| - 1] == ops + [Commit] + pending[..|pending| - 1];
      CommittedIsFixed(ops, pending[..|pending| - 1]);
    }
  }

  lemma {:induction false} RunsPrefix(ops: seq<Op>, n: nat)
    requires Runs(ops) && n <= |ops|
    ensures Runs(ops[..n])
  {
    if n < |ops| {
      RunsPrefix(ops[..|ops| - 1], n);
      assert ops[..|ops| - 1][..n] == ops[..n];
    } else {
      assert ops[..n] == ops;
    }
  }

  /**
   Whatever was registered, set and removed since a commit, rolling back restores exactly the mapping that
   was committed, with every transport of it alive, and keeps nothing else.
   */
  lemma RollbackRestores(ops: seq<Op>, pending: seq<Op>)
    requires Runs(ops + [Commit] + pending + [Rollback]) && Pending(pending)
    ensures var c := After(ops + [Commit] + pending + [Rollback]);
            && c.current == c.stable == After(ops).current
            && Owned(c) == After(ops).current.Values
            && (forall t :: t in After(ops).current.Values ==> t !in c.destroyed)
  {
    var before := ops + [Commit] + pending;
    var all := before + [Rollback];
    assert all[..|all| - 1] == before && all[..|ops|] == ops;
    RunsPrefix(all, |ops|);
    OwnsExactlyTheNeeded(ops);
    OwnsExactlyTheNeeded(all);
    CommittedIsFixed(ops, pending);
  }

  /** After a commit the collection owns exactly the mapped transports, and a rollback changes nothing. */
  lemma CommitKeepsTheMapped(ops: seq<Op>)
    requires Runs(ops)
    ensures var c := After(ops + [Commit]);
            && c.current == c.stable == After(ops).current && Owned(c) == After(ops).current.Values
            && Apply(c, Rollback) == c
  {
    var all := ops + [Commit];
    assert all[..|all| - 1] == ops;
    OwnsExactlyTheNeeded(ops);
    OwnsExactlyTheNeeded(all);
    var c := After(all);
    assert Kept(c) == c.byName;
  }

  /** No operation destroys a transport that a MID maps to or that a rollback would need. */
  lemma NeverDestroysTheNeeded(ops: seq<Op>, t: Transport)
    requires Runs(ops) && t in NeededBy(After(ops))
    ensures t in Owned(After(ops)) && t !in After(ops).destroyed
  {
    OwnsExactlyTheNeeded(ops);
  }

  /**
   Registering under a used name destroys the transport that the name owned.  After any history this hits one
   that is still needed if and only if another MID or the stable mapping needs it.
   */
  lemma RegisterDestroysTheNeeded(ops: seq<Op>, mid: Mid, t: Transport)
    requires Runs(ops) && IsNew(After(ops), t)
    ensures var c := RegisterTransport(After(ops), mid, t);
            (exists x :: x in c.destroyed && x in NeededBy(c)) <==> NameInUse(After(ops), mid)
  {
    OwnsExactlyTheNeeded(ops);
    var c0, c := After(ops), RegisterTransport(After(ops), mid, t);
    if NameInUse(c0, mid) {
      var x := c0.byName[mid];
      assert x in c.destroyed;
      if m :| m in c0.current && m != mid && c0.current[m] == x {
        assert c.current[m] == x;
      }
      assert x in NeededBy(c);
    } else {
      RegisterKeeps(c0, Names(ops), mid, t);
    }
  }

  // ---------- Histories with any registrations

  /** Only new objects are registered, and MIDs are only pointed at owned transports; names may be used again. */
  ghost predicate RunsFreely(ops: seq<Op>) {
    ops == [] || (
      var c, op := After(ops[..|ops| - 1]), ops[|ops| - 1];
      && RunsFreely(ops[..|ops| - 1])
      && match op
         case Register(_, t) => IsNew(c, t)
         case SetFor(_, t) => t in Owned(c)
         case _ => true)
  }

  ghost predicate KeepsTheNeeded(c: Collection) {
    forall t :: t in NeededBy(c) ==> t in Owned(c) && t !in c.destroyed
  }

  /** A history never destroys a needed transport if and only if no registration uses a name that is still in use. */
  lemma {:induction false} NeverDestroysIffNamesFree(ops: seq<Op>)
    requires RunsFreely(ops)
    ensures (forall n :: 0 <= n <= |ops| ==> KeepsTheNeeded(After(ops[..n]))) <==> Runs(ops)
  {
    if Runs(ops) {
      forall n | 0 <= n <= |ops| ensures KeepsTheNeeded(After(ops[..n])) {
        RunsPrefix(ops, n);
        OwnsExactlyTheNeeded(ops[..n]);
      }
    } else {
      var init := ops[..|ops| - 1];
      NeverDestroysIffNamesFree(init);
      if Runs(init) {
        var op := ops[|ops| - 1];
        RegisterDestroysTheNeeded(init, op.mid, op.transport);
        assert ops[..|ops|] == ops && !KeepsTheNeeded(After(ops[..|ops|]));
      } else {
        var n :| 0 <= n <= |init| && !KeepsTheNeeded(After(init[..n]));
        assert init[..n] == ops[..n];
      }
    }
  }
}
