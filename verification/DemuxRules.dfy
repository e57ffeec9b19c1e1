/**
 The routing rules without indexes: a journal of what happened, read anew for every
 question.  A criterion is in force while its sink has not been removed; an SSRC is
 bound by the last entry that binds it, unless that sink was removed since.
 */
module DemuxRules {
  import opened Wrappers
  import opened DemuxModel

  datatype Entry =
    | Added(criteria: Criteria, sink: Sink)  // a call that was not rejected
    | Removed(sink: Sink)
    | Heard(packet: Packet)                  // a packet with a known MID or none
    | Bound(ssrc: Ssrc, sink: Sink)          // a packet bound its SSRC

  datatype Registration = Registration(criteria: Criteria, sink: Sink)

  /** What a criterion asks of the IDs of a packet, if anything. */
  datatype Key = MidKey(mid: string) | PairKey(mid: string, rsid: string) | RsidKey(rsid: string)

  function KeyOf(c: Criteria): Option<Key> {
    if c.mid != "" && c.rsid != "" then Some(PairKey(c.mid, c.rsid))
    else if c.mid != "" then Some(MidKey(c.mid))
    else if c.rsid != "" then Some(RsidKey(c.rsid))
    else None
  }

  function Keep(live: seq<Registration>, sink: Sink): seq<Registration> {
    if live == [] then [] else
      Keep(live[..|live| - 1], sink) + if live[|live| - 1].sink == sink then [] else [live[|live| - 1]]
  }

  /** The criteria in force. */
  function Live(j: seq<Entry>): seq<Registration> {
    if j == [] then [] else
      var live := Live(j[..|j| - 1]);
      match j[|j| - 1]
      case Added(c, sink) => live + [Registration(c, sink)]
      case Removed(sink) => Keep(live, sink)
      case _ => live
  }

  /** A scan for the sink whose criterion asks for `key`. */
  function Find(live: seq<Registration>, key: Key): Option<Sink> {
    if live == [] then None
    else if KeyOf(live[|live| - 1].criteria) == Some(key) then Some(live[|live| - 1].sink)
    else Find(live[..|live| - 1], key)
  }

  predicate Known(live: seq<Registration>, mid: string) {
    exists i :: 0 <= i < |live| && live[i].criteria.mid == mid && mid != ""
  }

  /** A scan for the sinks that ask for a payload type. */
  function Asking(live: seq<Registration>, pt: PayloadType): seq<Sink> {
    if live == [] then [] else
      var last := live[|live| - 1];
      Asking(live[..|live| - 1], pt) + if pt in last.criteria.payloadTypes then [last.sink] else []
  }

  /** A scan back for the last entry that binds the SSRC. */
  function BoundTo(j: seq<Entry>, ssrc: Ssrc): Option<Sink> {
    if j == [] then None else
      var before := BoundTo(j[..|j| - 1], ssrc);
      match j[|j| - 1]
      case Added(c, sink) => if ssrc in c.ssrcs then Some(sink) else before
      case Removed(sink) => if before == Some(sink) then None else before
      case Bound(x, sink) => if x == ssrc then Some(sink) else before
      case Heard(_) => before
  }

  function Mentioned(j: seq<Entry>): set<Ssrc> {
    if j == [] then {} else
      Mentioned(j[..|j| - 1]) +
      match j[|j| - 1]
      case Added(c, _) => c.ssrcs
      case Bound(x, _) => {x}
      case _ => {}
  }

  function BoundSsrcs(j: seq<Entry>): set<Ssrc> {
    set ssrc | ssrc in Mentioned(j) && BoundTo(j, ssrc).Some?
  }

  /** The last MID heard on an SSRC. */
  function MidOf(j: seq<Entry>, ssrc: Ssrc): Option<string> {
    if j == [] then None
    else if j[|j| - 1].Heard? && j[|j| - 1].packet.ssrc == ssrc && j[|j| - 1].packet.mid.Some? then
        j[|j| - 1].packet.mid
    else MidOf(j[..|j| - 1], ssrc)
  }

  function RsidOf(j: seq<Entry>, ssrc: Ssrc): Option<string> {
    if j == [] then None
    else if j[|j| - 1].Heard? && j[|j| - 1].packet.ssrc == ssrc && j[|j| - 1].packet.rsid.Some? then
        j[|j| - 1].packet.rsid
    else RsidOf(j[..|j| - 1], ssrc)
  }

  // ---------- The rules

  /** The call of AddSink is rejected. */
  predicate Rejected(j: seq<Entry>, c: Criteria) {
    || (KeyOf(c).Some? && Find(Live(j), KeyOf(c).value).Some?)
    || exists ssrc :: ssrc in c.ssrcs && BoundTo(j, ssrc).Some?
  }

  datatype Verdict =
    | Drop                   // rule 1
    | ById(sink: Sink)       // rules 2, 3 and 4
    | BySsrc(sink: Sink)     // rule 5
    | ByType(sink: Sink)     // rule 6
    | NoRoute                // rule 7

  /** A MID or RSID heard earlier on the SSRC counts as carried by the packet. */
  function MidFor(j: seq<Entry>, p: Packet): Option<string> {
    if p.mid.Some? then p.mid else MidOf(j, p.ssrc)
  }

  function RsidFor(j: seq<Entry>, p: Packet): Option<string> {
    if p.rsid.Some? then p.rsid else RsidOf(j, p.ssrc)
  }

  /** The criterion that asks for both IDs comes first, then the one for the MID, then the one for the RSID. */
  function FindByIds(live: seq<Registration>, mid: Option<string>, rsid: Option<string>): Option<Sink> {
    var pair := if mid.Some? && rsid.Some? then Find(live, PairKey(mid.value, rsid.value)) else None;
    var byMid := if mid.Some? then Find(live, MidKey(mid.value)) else None;
    var byRsid := if rsid.Some? then Find(live, RsidKey(rsid.value)) else None;
    if pair.Some? then pair else if byMid.Some? then byMid else byRsid
  }

  function ByRules(j: seq<Entry>, p: Packet): Verdict {
    var live := Live(j);
    var byIds := FindByIds(live, MidFor(j, p), RsidFor(j, p));
    if p.mid.Some? && !Known(live, p.mid.value) then Drop
    else if byIds.Some? then ById(byIds.value)
    else if BoundTo(j, p.ssrc).Some? then BySsrc(BoundTo(j, p.ssrc).value)
    else if |Asking(live, p.payloadType)| == 1 then ByType(Asking(live, p.payloadType)[0])
    else NoRoute
  }

  function Destination(v: Verdict): Option<Sink> {
    if v.Drop? || v.NoRoute? then None else Some(v.sink)
  }

  /** What a packet leaves in the journal. */
  function Left(j: seq<Entry>, p: Packet): seq<Entry> {
    var v := ByRules(j, p);
    if v.Drop? then []
    else if (v.ById? || v.ByType?) && (BoundTo(j, p.ssrc).Some? || |BoundSsrcs(j)| < MAX_SSRC_BINDINGS) then
        [Heard(p), Bound(p.ssrc, v.sink)]
    else [Heard(p)]
  }

  /** Something still leads to the sink. */
  ghost predicate Leads(j: seq<Entry>, sink: Sink) {
    || (exists key :: Find(Live(j), key) == Some(sink))
    || (exists pt :: sink in Asking(Live(j), pt))
    || (exists ssrc :: BoundTo(j, ssrc) == Some(sink))
  }

  ghost function Answers(j: seq<Entry>, op: Op): Answer {
    match op
    case Add(c, sink) => Flag(!Rejected(j, c))
    case Remove(sink) => Flag(Leads(j, sink))
    case Receive(p) => Routed(Destination(ByRules(j, p)))
  }

  function Entries(j: seq<Entry>, op: Op): seq<Entry> {
    match op
    case Add(c, sink) => if Rejected(j, c) then [] else [Added(c, sink)]
    case Remove(sink) => [Removed(sink)]
    case Receive(p) => Left(j, p)
  }

  function Journal(ops: seq<Op>): seq<Entry> {
    if ops == [] then [] else
      var j := Journal(ops[..|ops| - 1]);
      j + Entries(j, ops[|ops| - 1])
  }
}
