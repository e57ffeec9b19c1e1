/**
 RTP demultiplexing: choosing the sink of a packet through indexes.  The header gives
 the indexes and the rules; the bodies here are written from those comments.
 */
module DemuxModel {
  import opened Wrappers

  type Sink = nat
  type Ssrc = nat
  type PayloadType = nat

  const MAX_SSRC_BINDINGS: nat := 1000

  /** An empty `mid` or `rsid` is no criterion. */
  datatype Criteria = Criteria(mid: string, rsid: string, ssrcs: set<Ssrc>, payloadTypes: set<PayloadType>)

  /** The attributes of a packet that matter: `mid` and `rsid` (or the repaired RSID) if it has the header extension. */
  datatype Packet = Packet(mid: Option<string>, rsid: Option<string>, ssrc: Ssrc, payloadType: PayloadType)

  datatype Demuxer = Demuxer(
    sinkByMid: map<string, Sink>,
    sinkBySsrc: map<Ssrc, Sink>,
    sinksByPt: map<PayloadType, seq<Sink>>,  // a multimap
    sinkByMidAndRsid: map<(string, string), Sink>,
    sinkByRsid: map<string, Sink>,
    knownMids: set<string>,
    midBySsrc: map<Ssrc, string>,
    rsidBySsrc: map<Ssrc, string>)

  function Get<K, V>(m: map<K, V>, k: K): Option<V> {
    if k in m then Some(m[k]) else None
  }

  function Empty(): Demuxer {
    Demuxer(map[], map[], map[], map[], map[], {}, map[], map[])
  }

  // ---------- Adding and removing sinks

  predicate CriteriaWouldConflict(d: Demuxer, c: Criteria) {
    || (c.mid != "" && c.rsid == "" && c.mid in d.sinkByMid)
    || (c.mid == "" && c.rsid != "" && c.rsid in d.sinkByRsid)
    || (c.mid != "" && c.rsid != "" && (c.mid, c.rsid) in d.sinkByMidAndRsid)
    || exists ssrc :: ssrc in c.ssrcs && ssrc in d.sinkBySsrc
  }

  function MidsOf(byMid: map<string, Sink>, byMidAndRsid: map<(string, string), Sink>): set<string> {
    byMid.Keys + set pair | pair in byMidAndRsid :: pair.0
  }

  function RefreshKnownMids(d: Demuxer): Demuxer {
    d.(knownMids := MidsOf(d.sinkByMid, d.sinkByMidAndRsid))
  }

  function ToSink(ssrcs: set<Ssrc>, sink: Sink): map<Ssrc, Sink> {
    map ssrc | ssrc in ssrcs :: sink
  }

  function AddToEach(sinksByPt: map<PayloadType, seq<Sink>>, types: set<PayloadType>, sink: Sink)
      : map<PayloadType, seq<Sink>>
  {
    sinksByPt + map pt | pt in types :: (if pt in sinksByPt then sinksByPt[pt] else []) + [sink]
  }

  function Sinks(d: Demuxer, pt: PayloadType): seq<Sink> {
    if pt in d.sinksByPt then d.sinksByPt[pt] else []
  }

  function AddSink(d: Demuxer, c: Criteria, sink: Sink): (Demuxer, bool) {
    if CriteriaWouldConflict(d, c) then (d, false) else
      (RefreshKnownMids(d.(
         sinkByMid := if c.mid != "" && c.rsid == "" then d.sinkByMid[c.mid := sink] else d.sinkByMid,
         sinkByMidAndRsid :=
           if c.mid != "" && c.rsid != "" then d.sinkByMidAndRsid[(c.mid, c.rsid) := sink] else d.sinkByMidAndRsid,
         sinkByRsid := if c.mid == "" && c.rsid != "" then d.sinkByRsid[c.rsid := sink] else d.sinkByRsid,
         sinkBySsrc := d.sinkBySsrc + ToSink(c.ssrcs, sink),
         sinksByPt := AddToEach(d.sinksByPt, c.payloadTypes, sink))), true)
  }

  /** A list of sinks without one of them. */
  function Without(sinks: seq<Sink>, sink: Sink): seq<Sink> {
    if sinks == [] then [] else
      Without(sinks[..|sinks| - 1], sink) + if sinks[|sinks| - 1] == sink then [] else [sinks[|sinks| - 1]]
  }

  function RemoveFromEach(sinksByPt: map<PayloadType, seq<Sink>>, sink: Sink): map<PayloadType, seq<Sink>> {
    map pt | pt in sinksByPt :: Without(sinksByPt[pt], sink)
  }

  function Others<K>(m: map<K, Sink>, sink: Sink): map<K, Sink> {
    map k | k in m && m[k] != sink :: m[k]
  }

  /** Some index leads to the sink. */
  predicate Listed(d: Demuxer, sink: Sink) {
    || sink in d.sinkByMid.Values
    || sink in d.sinkBySsrc.Values
    || sink in d.sinkByMidAndRsid.Values
    || sink in d.sinkByRsid.Values
    || exists pt :: pt in d.sinksByPt && sink in d.sinksByPt[pt]
  }

  function RemoveSink(d: Demuxer, sink: Sink): (Demuxer, bool) {
    (RefreshKnownMids(d.(
       sinkByMid := Others(d.sinkByMid, sink),
       sinkBySsrc := Others(d.sinkBySsrc, sink),
       sinksByPt := RemoveFromEach(d.sinksByPt, sink),
       sinkByMidAndRsid := Others(d.sinkByMidAndRsid, sink),
       sinkByRsid := Others(d.sinkByRsid, sink))), Listed(d, sink))
  }

  // ---------- Resolving a packet

  /** A packet may rebind a bound SSRC, but does not bind a new one once there are too many. */
  function AddSsrcSinkBinding(d: Demuxer, ssrc: Ssrc, sink: Sink): Demuxer {
    if ssrc !in d.sinkBySsrc && |d.sinkBySsrc| >= MAX_SSRC_BINDINGS then d
    else d.(sinkBySsrc := d.sinkBySsrc[ssrc := sink])
  }

  /** The sink that the IDs of a packet lead to. */
  function SinkByIds(d: Demuxer, mid: Option<string>, rsid: Option<string>): Option<Sink> {
    if mid.Some? && rsid.Some? && (mid.value, rsid.value) in d.sinkByMidAndRsid then
      Some(d.sinkByMidAndRsid[(mid.value, rsid.value)])
    else if mid.Some? && mid.value in d.sinkByMid then Some(d.sinkByMid[mid.value])
    else if rsid.Some? && rsid.value in d.sinkByRsid then Some(d.sinkByRsid[rsid.value])
    else None
  }

  function SinkByPayloadType(d: Demuxer, pt: PayloadType): Option<Sink> {
    if |Sinks(d, pt)| == 1 then Some(Sinks(d, pt)[0]) else None
  }

  /** Remembers the IDs a packet carries for its SSRC. */
  function Latch(d: Demuxer, p: Packet): Demuxer {
    d.(midBySsrc := if p.mid.Some? then d.midBySsrc[p.ssrc := p.mid.value] else d.midBySsrc,
       rsidBySsrc := if p.rsid.Some? then d.rsidBySsrc[p.ssrc := p.rsid.value] else d.rsidBySsrc)
  }

  /** Where a packet goes, and whether it binds its SSRC there. */
  datatype Route = Route(to: Option<Sink>, binds: bool)

  function Choose(d: Demuxer, p: Packet): Route {
    var byIds := SinkByIds(d, Get(d.midBySsrc, p.ssrc), Get(d.rsidBySsrc, p.ssrc));
    if byIds.Some? then Route(byIds, true)
    else if p.ssrc in d.sinkBySsrc then Route(Some(d.sinkBySsrc[p.ssrc]), false)
    else Route(SinkByPayloadType(d, p.payloadType), true)
  }

  function ResolveSink(d: Demuxer, p: Packet): (Demuxer, Option<Sink>) {
    if p.mid.Some? && p.mid.value !in d.knownMids then (d, None) else
      var d1 := Latch(d, p);
      var r := Choose(d1, p);
      (if r.binds && r.to.Some? then AddSsrcSinkBinding(d1, p.ssrc, r.to.value) else d1, r.to)
  }

  // ---------- Histories

  datatype Op =
    | Add(criteria: Criteria, sink: Sink)
    | Remove(sink: Sink)
    | Receive(packet: Packet)

  datatype Answer = Flag(ok: bool) | Routed(to: Option<Sink>)

  function Apply(d: Demuxer, op: Op): (Demuxer, Answer) {
    match op
    case Add(c, sink) => var r := AddSink(d, c, sink); (r.0, Flag(r.1))
    case Remove(sink) => var r := RemoveSink(d, sink); (r.0, Flag(r.1))
    case Receive(p) => var r := ResolveSink(d, p); (r.0, Routed(r.1))
  }

  function After(d: Demuxer, ops: seq<Op>): Demuxer {
    if ops == [] then d else Apply(After(d, ops[..|ops| - 1]), ops[|ops| - 1]).0
  }

  /** The answer to the last of a history of operations. */
  function LastAnswer(ops: seq<Op>): Answer
    requires ops != []
  {
    Apply(After(Empty(), ops[..|ops| - 1]), ops[|ops| - 1]).1
  }
}
