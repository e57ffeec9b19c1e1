/**
 The JSEP transport collection.  The header gives its fields and what each operation
 is for; the bodies here are written from those comments.
 */
module JsepModel {
  type Mid = string
  type Transport = nat

  datatype Collection = Collection(
    byName: map<Mid, Transport>,   // owns the transports
    current: map<Mid, Transport>,  // mid_to_transport_
    stable: map<Mid, Transport>,   // the snapshot for rollback
    destroyed: set<Transport>)

  datatype Op =
    | Register(mid: Mid, transport: Transport)
    | SetFor(mid: Mid, transport: Transport)
    | RemoveFor(mid: Mid)
    | Rollback
    | Commit

  function Owned(c: Collection): set<Transport> {
    c.byName.Values
  }

  predicate TransportInUse(c: Collection, t: Transport) {
    t in c.current.Values
  }

  predicate TransportNeededForRollback(c: Collection, t: Transport) {
    t in c.stable.Values
  }

  function Destroy(c: Collection, t: Transport): Collection {
    c.(byName := map n | n in c.byName && c.byName[n] != t :: c.byName[n],
       destroyed := c.destroyed + (Owned(c) * {t}))
  }

  function MaybeDestroyJsepTransport(c: Collection, t: Transport): Collection {
    if TransportInUse(c, t) || TransportNeededForRollback(c, t) then c else Destroy(c, t)
  }

  function SetTransportForMid(c: Collection, mid: Mid, t: Transport): Collection {
    var c1 := c.(current := c.current[mid := t]);
    if mid in c.current then MaybeDestroyJsepTransport(c1, c.current[mid]) else c1
  }

  function RemoveTransportForMid(c: Collection, mid: Mid): Collection {
    if mid !in c.current then c else MaybeDestroyJsepTransport(c.(current := c.current - {mid}), c.current[mid])
  }

  function Kept(c: Collection): map<Mid, Transport> {
    map n | n in c.byName && (TransportInUse(c, c.byName[n]) || TransportNeededForRollback(c, c.byName[n])) ::
        c.byName[n]
  }

  function DestroyUnusedTransports(c: Collection): Collection {
    c.(byName := Kept(c), destroyed := c.destroyed + (Owned(c) - Kept(c).Values))
  }

  /**
   A new transport is owned under the MID it is registered with, and the MID maps to it.  If the name owned
   another transport, that one is destroyed by the assignment.
   */
  function RegisterTransport(c: Collection, mid: Mid, t: Transport): Collection {
    var replaced := if mid in c.byName then {c.byName[mid]} else {};
    SetTransportForMid(c.(byName := c.byName[mid := t], destroyed := c.destroyed + replaced), mid, t)
  }

  /** The name owns a transport that another MID or the stable mapping needs. */
  predicate NameInUse(c: Collection, mid: Mid) {
    && mid in c.byName
    && (|| TransportNeededForRollback(c, c.byName[mid])
        || exists m :: m in c.current && m != mid && c.current[m] == c.byName[mid])
  }

  function RollbackTransports(c: Collection): Collection {
    DestroyUnusedTransports(c.(current := c.stable))
  }

  function CommitTransports(c: Collection): Collection {
    DestroyUnusedTransports(c.(stable := c.current))
  }

  /**
   A registered transport is a new object, under a name that does not own one that is still needed; a MID is only
   pointed at an owned transport.
   */
  ghost predicate Allowed(c: Collection, op: Op) {
    match op
    case Register(mid, t) => IsNew(c, t) && !NameInUse(c, mid)
    case SetFor(_, t) => t in Owned(c)
    case _ => true
  }

  predicate IsNew(c: Collection, t: Transport) {
    t !in Owned(c) && t !in c.destroyed
  }

  function Apply(c: Collection, op: Op): Collection {
    match op
    case Register(mid, t) => RegisterTransport(c, mid, t)
    case SetFor(mid, t) => SetTransportForMid(c, mid, t)
    case RemoveFor(mid) => RemoveTransportForMid(c, mid)
    case Rollback => RollbackTransports(c)
    case Commit => CommitTransports(c)
  }

  function Empty(): Collection {
    Collection(map[], map[], map[], {})
  }

  function After(ops: seq<Op>): Collection {
    if ops == [] then Empty() else Apply(After(ops[..|ops| - 1]), ops[|ops| - 1])
  }

  ghost predicate Runs(ops: seq<Op>) {
    ops == [] || (Runs(ops[..|ops| - 1]) && Allowed(After(ops[..|ops| - 1]), ops[|ops| - 1]))
  }
}
