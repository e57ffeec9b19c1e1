/** What the routing promises over whole histories. */
module DemuxRouting {
  import opened Wrappers
  import opened DemuxModel

  // ---------- Only sinks in force are chosen

  /** An accepted call added the sink, and no later call removed it. */
  ghost predicate InForce(ops: seq<Op>, sink: Sink) {
    exists i :: 0 <= i < |ops| && ops[i].Add? && ops[i].sink == sink && LastAnswer(ops[..i + 1]) == Flag(true)
      && Remove(sink) !in ops[i..]
  }

  lemma StepListed(d: Demuxer, op: Op, sink: Sink)
    ensures Apply(d, op).1 == Routed(Some(sink)) ==> Listed(d, sink)
    ensures Listed(Apply(d, op).0, sink) ==>
              (op.Add? && op.sink == sink && Apply(d, op).1 == Flag(true)) || (Listed(d, sink) && op != Remove(sink))
  {
    match op
    case Add(c, s) => AddListed(d, c, s, sink);
    case Remove(s) => RemoveListed(d, s, sink);
    case Receive(p) => ReceiveListed(d, p, sink);
  }

  lemma AddListed(d: Demuxer, c: Criteria, s: Sink, sink: Sink)
    ensures Listed(AddSink(d, c, s).0, sink) ==> (s == sink && AddSink(d, c, s).1) || Listed(d, sink)
  {
    if s != sink && !CriteriaWouldConflict(d, c) && Listed(AddSink(d, c, s).0, sink) {
      var d1 := AddSink(d, c, s).0;
      if pt :| pt in d1.sinksByPt && sink in d1.sinksByPt[pt] {
        assert sink in Sinks(d, pt);
      }
    }
  }

  lemma {:induction false} WithoutKeeps(sinks: seq<Sink>, s: Sink, sink: Sink)
    ensures sink in Without(sinks, s) <==> sink in sinks && sink != s
  {
    if sinks != [] {
      WithoutKeeps(sinks[..|sinks| - 1], s, sink);
      assert sinks == sinks[..|sinks| - 1] + [sinks[|sinks| - 1]];
    }
  }

  lemma RemoveListed(d: Demuxer, s: Sink, sink: Sink)
    ensures Listed(RemoveSink(d, s).0, sink) ==> Listed(d, sink) && s != sink
  {
    var d1 := RemoveSink(d, s).0;
    if pt :| pt in d1.sinksByPt && sink in d1.sinksByPt[pt] {
      WithoutKeeps(d.sinksByPt[pt], s, sink);
    }
  }

  lemma ReceiveListed(d: Demuxer, p: Packet, sink: Sink)
    ensures ResolveSink(d, p).1 == Some(sink) ==> Listed(d, sink)
    ensures Listed(ResolveSink(d, p).0, sink) ==> Listed(d, sink)
  {
    hide Choose, Listed;
    var d1 := Latch(d, p);
    var r := Choose(d1, p);
    assert Listed(d1, sink) == Listed(d, sink) by { LatchListed(d, p, sink); }
    if r.to.Some? {
      ChosenIsListed(d1, p);
      BindListed(d1, p.ssrc, r.to.value, sink);
    }
  }

  lemma LatchListed(d: Demuxer, p: Packet, sink: Sink)
    ensures Listed(Latch(d, p), sink) == Listed(d, sink)
  {
  }

  lemma ChosenIsListed(d: Demuxer, p: Packet)
    ensures Choose(d, p).to.Some? ==> Listed(d, Choose(d, p).to.value)
  {
  }

  lemma BindListed(d: Demuxer, ssrc: Ssrc, s: Sink, sink: Sink)
    requires Listed(d, s)
    ensures Listed(AddSsrcSinkBinding(d, ssrc, s), sink) ==> Listed(d, sink)
  {
  }

  lemma Longer(ops: seq<Op>, op: Op, i: nat)
    requires i < |ops|
    ensures var all := ops + [op]; all[i] == ops[i] && all[..i + 1] == ops[..i + 1] && all[i..] == ops[i..] + [op]
  {
  }

  lemma {:induction false} ListedIsInForce(ops: seq<Op>, sink: Sink)
    requires Listed(After(Empty(), ops), sink)
    ensures InForce(ops, sink)
  {
    if ops != [] {
      var before, op := ops[..|ops| - 1], ops[|ops| - 1];
      assert ops == before + [op];
      assert LastAnswer(ops) == Apply(After(Empty(), before), op).1;
      hide Listed, Apply, LastAnswer, InForce;
      StepListed(After(Empty(), before), op, sink);
      if Listed(After(Empty(), before), sink) && op != Remove(sink) {
        ListedIsInForce(before, sink);
        StillInForce(ops, op, sink);
      } else {
        AddedIsInForce(ops, op, sink);
      }
    }
  }

  lemma StillInForce(ops: seq<Op>, op: Op, sink: Sink)
    ensures ops != [] && op == ops[|ops| - 1] && op != Remove(sink) && InForce(ops[..|ops| - 1], sink) ==>
              InForce(ops, sink)
  {
    hide LastAnswer;
    if ops != [] && op == ops[|ops| - 1] && op != Remove(sink) && InForce(ops[..|ops| - 1], sink) {
      var before := ops[..|ops| - 1];
      assert ops == before + [op];
      var i :| 0 <= i < |before| && before[i].Add? && before[i].sink == sink
        && LastAnswer(before[..i + 1]) == Flag(true) && Remove(sink) !in before[i..];
      Longer(before, op, i);
    }
  }

  lemma AddedIsInForce(ops: seq<Op>, op: Op, sink: Sink)
    ensures ops != [] && op == ops[|ops| - 1] && op.Add? && op.sink == sink && LastAnswer(ops) == Flag(true) ==>
              InForce(ops, sink)
  {
    hide LastAnswer;
    if ops != [] && op == ops[|ops| - 1] && op.Add? && op.sink == sink && LastAnswer(ops) == Flag(true) {
      assert ops[..|ops| - 1 + 1] == ops && ops[|ops| - 1..] == [op];
    }
  }

  /** A packet is only forwarded to a sink that was added and not removed since. */
  lemma ChosenIsInForce(ops: seq<Op>, p: Packet, sink: Sink)
    requires LastAnswer(ops + [Receive(p)]) == Routed(Some(sink))
    ensures InForce(ops, sink)
  {
    assert (ops + [Receive(p)])[..|ops|] == ops;
    StepListed(After(Empty(), ops), Receive(p), sink);
    ListedIsInForce(ops, sink);
  }

  /** Once removed, a sink is not chosen until a later call adds it again. */
  lemma RemovedIsNotChosen(ops: seq<Op>, rest: seq<Op>, p: Packet, sink: Sink)
    requires forall i :: 0 <= i < |rest| && rest[i].Add? ==> rest[i].sink != sink
    ensures LastAnswer(ops + [Remove(sink)] + rest + [Receive(p)]) != Routed(Some(sink))
  {
    var before := ops + [Remove(sink)] + rest;
    if LastAnswer(before + [Receive(p)]) == Routed(Some(sink)) {
      ChosenIsInForce(before, p, sink);
      NotInForce(ops, rest, sink);
    }
  }

  lemma NotInForce(ops: seq<Op>, rest: seq<Op>, sink: Sink)
    requires forall i :: 0 <= i < |rest| && rest[i].Add? ==> rest[i].sink != sink
    ensures !InForce(ops + [Remove(sink)] + rest, sink)
  {
    var all := ops + [Remove(sink)] + rest;
    forall i | 0 <= i < |all| && all[i].Add? && all[i].sink == sink ensures Remove(sink) in all[i..] {
      assert all[i..][|ops| - i] == all[|ops|];
    }
  }

  // ---------- What a packet leaves alone

  /** Nothing that the route of a bare packet of this SSRC depends on differs. */
  ghost predicate SameFor(d: Demuxer, d1: Demuxer, ssrc: Ssrc) {
    && d1.sinkByMid == d.sinkByMid && d1.sinkByMidAndRsid == d.sinkByMidAndRsid && d1.sinkByRsid == d.sinkByRsid
    && d1.sinksByPt == d.sinksByPt && d1.knownMids == d.knownMids
    && Get(d1.sinkBySsrc, ssrc) == Get(d.sinkBySsrc, ssrc)
    && Get(d1.midBySsrc, ssrc) == Get(d.midBySsrc, ssrc) && Get(d1.rsidBySsrc, ssrc) == Get(d.rsidBySsrc, ssrc)
  }

  lemma PacketDoesNotMatter(d: Demuxer, q: Packet, ssrc: Ssrc)
    requires q.ssrc != ssrc
    ensures SameFor(d, ResolveSink(d, q).0, ssrc)
  {
    hide Choose, Latch, AddSsrcSinkBinding, SameFor;
    var d1 := Latch(d, q);
    SameForItself(d, ssrc);
    LatchOther(d, q, ssrc);
    var r := Choose(d1, q);
    if r.to.Some? {
      BindOther(d1, q.ssrc, r.to.value, ssrc);
      SameForTwice(d, d1, AddSsrcSinkBinding(d1, q.ssrc, r.to.value), ssrc);
    }
  }

  lemma SameForItself(d: Demuxer, ssrc: Ssrc)
    ensures SameFor(d, d, ssrc)
  {
  }

  lemma LatchOther(d: Demuxer, q: Packet, ssrc: Ssrc)
    requires q.ssrc != ssrc
    ensures SameFor(d, Latch(d, q), ssrc)
  {
  }

  lemma BindOther(d: Demuxer, other: Ssrc, sink: Sink, ssrc: Ssrc)
    requires other != ssrc
    ensures SameFor(d, AddSsrcSinkBinding(d, other, sink), ssrc)
  {
  }

  // ---------- Later packets of an SSRC follow the first

  /** The sink that the IDs heard on an SSRC lead to. */
  function SinkByLatched(d: Demuxer, ssrc: Ssrc): Option<Sink> {
    SinkByIds(d, Get(d.midBySsrc, ssrc), Get(d.rsidBySsrc, ssrc))
  }

  /** The packet is dropped for its unknown MID, or carries no ID that has not been heard on its SSRC before. */
  predicate Repeats(d: Demuxer, m: Packet) {
    || (m.mid.Some? && m.mid.value !in d.knownMids)
    || (&& (m.mid.Some? ==> Get(d.midBySsrc, m.ssrc) == m.mid)
        && (m.rsid.Some? ==> Get(d.rsidBySsrc, m.ssrc) == m.rsid))
  }

  /** How a packet of this SSRC that was forwarded to `sink` leaves the demuxer. */
  ghost predicate Forwarded(d: Demuxer, ssrc: Ssrc, sink: Sink) {
    && (SinkByLatched(d, ssrc).Some? ==> SinkByLatched(d, ssrc) == Some(sink))
    && (ssrc in d.sinkBySsrc ==> d.sinkBySsrc[ssrc] == sink)
    && (ssrc !in d.sinkBySsrc ==> |d.sinkBySsrc| >= MAX_SSRC_BINDINGS)
  }

  lemma ForwardedTo(d: Demuxer, p: Packet, sink: Sink)
    requires ResolveSink(d, p).1 == Some(sink)
    ensures var d1 := ResolveSink(d, p).0;
            && Forwarded(d1, p.ssrc, sink)
            && (SinkByLatched(d1, p.ssrc) == None && p.ssrc !in d1.sinkBySsrc ==>
                  SinkByPayloadType(d1, p.payloadType) == Some(sink))
  {
    hide SinkByIds, SinkByPayloadType;
    var dp, d1 := Latch(d, p), ResolveSink(d, p).0;
    SameIds(dp, d1, Get(dp.midBySsrc, p.ssrc), Get(dp.rsidBySsrc, p.ssrc));
    SameType(dp, d1, p.payloadType);
  }

  lemma SameIds(d: Demuxer, d1: Demuxer, mid: Option<string>, rsid: Option<string>)
    ensures d1.sinkByMid == d.sinkByMid && d1.sinkByMidAndRsid == d.sinkByMidAndRsid && d1.sinkByRsid == d.sinkByRsid
            ==>
              SinkByIds(d1, mid, rsid) == SinkByIds(d, mid, rsid)
  {
  }

  lemma SameType(d: Demuxer, d1: Demuxer, pt: PayloadType)
    ensures d1.sinksByPt == d.sinksByPt ==> SinkByPayloadType(d1, pt) == SinkByPayloadType(d, pt)
  {
  }

  /** A packet of the same SSRC that brings no new ID, whatever its payload type, changes nothing. */
  lemma RepeatDoesNotMatter(d: Demuxer, m: Packet, sink: Sink)
    requires Forwarded(d, m.ssrc, sink) && Repeats(d, m)
    ensures ResolveSink(d, m).0 == d
  {
    hide SinkByIds, SinkByPayloadType;
    if m.mid.Some? && m.mid.value !in d.knownMids {
      return;
    }
    assert Latch(d, m) == d;
    var r := Choose(d, m);
    if r.binds && r.to.Some? && m.ssrc in d.sinkBySsrc {
      assert d.sinkBySsrc[m.ssrc := r.to.value] == d.sinkBySsrc;
    }
  }

  ghost predicate Between(d: Demuxer, ssrc: Ssrc, op: Op) {
    op.Receive? && (op.packet.ssrc == ssrc ==> Repeats(d, op.packet))
  }

  lemma SameForwarded(d: Demuxer, d1: Demuxer, ssrc: Ssrc, sink: Sink)
    requires Forwarded(d, ssrc, sink) && SameFor(d, d1, ssrc) && |d1.sinkBySsrc| >= |d.sinkBySsrc|
    ensures Forwarded(d1, ssrc, sink) && SinkByLatched(d1, ssrc) == SinkByLatched(d, ssrc)
    ensures ssrc in d1.sinkBySsrc <==> ssrc in d.sinkBySsrc
  {
    SameIds(d, d1, Get(d.midBySsrc, ssrc), Get(d.rsidBySsrc, ssrc));
  }

  lemma {:induction false} PacketsBetween(d: Demuxer, between: seq<Op>, ssrc: Ssrc, sink: Sink)
    requires Forwarded(d, ssrc, sink) && forall i :: 0 <= i < |between| ==> Between(d, ssrc, between[i])
    ensures SameFor(d, After(d, between), ssrc) && |After(d, between).sinkBySsrc| >= |d.sinkBySsrc|
  {
    if between != [] {
      hide ResolveSink, Forwarded, SameFor;
      var init, m := between[..|between| - 1], between[|between| - 1].packet;
      var e := After(d, init);
      assert Between(d, ssrc, between[|between| - 1]);
      PacketsBetween(d, init, ssrc, sink);
      OnePacketGrows(e, m);
      if m.ssrc == ssrc {
        SameForwarded(d, e, ssrc, sink);
        SameRepeats(d, e, m);
        RepeatDoesNotMatter(e, m, sink);
      } else {
        PacketDoesNotMatter(e, m, ssrc);
        SameForTwice(d, e, ResolveSink(e, m).0, ssrc);
      }
    } else {
      assert SameFor(d, d, ssrc);
    }
  }

  lemma SameRepeats(d: Demuxer, e: Demuxer, m: Packet)
    requires SameFor(d, e, m.ssrc) && Repeats(d, m)
    ensures Repeats(e, m)
  {
  }

  lemma SameForTwice(d: Demuxer, e: Demuxer, f: Demuxer, ssrc: Ssrc)
    requires SameFor(d, e, ssrc) && SameFor(e, f, ssrc)
    ensures SameFor(d, f, ssrc)
  {
  }

  lemma BareGoes(d: Demuxer, q: Packet, sink: Sink)
    requires Forwarded(d, q.ssrc, sink) && q.mid == None && q.rsid == None
    ensures ResolveSink(d, q).1 == Some(sink) <==>
            || SinkByLatched(d, q.ssrc).Some?
            || q.ssrc in d.sinkBySsrc
            || SinkByPayloadType(d, q.payloadType) == Some(sink)
  {
    hide SinkByIds, SinkByPayloadType;
    assert Latch(d, q) == d;
  }

  lemma {:induction false} AfterThen(d: Demuxer, ops: seq<Op>, more: seq<Op>)
    ensures After(d, ops + more) == After(After(d, ops), more)
  {
    hide Apply;
    if more == [] {
      assert ops + more == ops;
    } else {
      AfterThen(d, ops, more[..|more| - 1]);
      assert (ops + more)[..|ops + more| - 1] == ops + more[..|more| - 1];
    }
  }

  /**
   Once a packet has been forwarded to a sink, a later packet of its SSRC without IDs goes to the same sink if
   and only if the IDs heard on the SSRC lead somewhere, or the SSRC is bound, or that packet's payload type
   leads there by itself.  In between, packets of other SSRCs do not matter, nor do those of the same SSRC
   that bring it no new ID.  With the same payload type the packet always follows.
   */
  lemma LaterPacketsFollow(ops: seq<Op>, p: Packet, between: seq<Op>, q: Packet, sink: Sink)
    requires LastAnswer(ops + [Receive(p)]) == Routed(Some(sink))
    requires forall i :: 0 <= i < |between| ==> Between(After(Empty(), ops + [Receive(p)]), p.ssrc, between[i])
    requires q.ssrc == p.ssrc && q.mid == None && q.rsid == None
    ensures var d := After(Empty(), ops + [Receive(p)]);
            LastAnswer(ops + [Receive(p)] + between + [Receive(q)]) == Routed(Some(sink)) <==>
            || SinkByLatched(d, q.ssrc).Some?
            || q.ssrc in d.sinkBySsrc
            || SinkByPayloadType(d, q.payloadType) == Some(sink)
    ensures q.payloadType == p.payloadType ==>
              LastAnswer(ops + [Receive(p)] + between + [Receive(q)]) == Routed(Some(sink))
  {
    hide ResolveSink, SameFor, Forwarded, SinkByLatched, SinkByPayloadType, Between;
    var d0, h := After(Empty(), ops), ops + [Receive(p)];
    assert h[..|ops|] == ops;
    var d := ResolveSink(d0, p).0;
    assert After(Empty(), h) == d;
    ForwardedTo(d0, p, sink);
    PacketsBetween(d, between, p.ssrc, sink);
    var e := After(d, between);
    AfterThen(Empty(), h, between);
    SameForwarded(d, e, p.ssrc, sink);
    BareGoes(e, q, sink);
    SameForTypes(d, e, p.ssrc, q.payloadType);
    assert (h + between + [Receive(q)])[..|h + between|] == h + between;
  }

  lemma SameForTypes(d: Demuxer, e: Demuxer, ssrc: Ssrc, pt: PayloadType)
    requires SameFor(d, e, ssrc)
    ensures SinkByPayloadType(e, pt) == SinkByPayloadType(d, pt)
  {
  }

  lemma {:induction false} SomeSsrcs(n: nat) returns (ssrcs: set<Ssrc>)
    ensures |ssrcs| == n && n !in ssrcs && forall ssrc :: ssrc in ssrcs ==> ssrc < n
  {
    ssrcs := {};
    if n > 0 {
      ssrcs := SomeSsrcs(n - 1);
      ssrcs := ssrcs + {n - 1};
    }
  }

  lemma AfterOne(d: Demuxer, ops: seq<Op>, op: Op)
    ensures After(d, ops + [op]) == Apply(After(d, ops), op).0
  {
    assert (ops + [op])[..|ops|] == ops;
  }

  /** Some SSRCs, and one payload type, are registered. */
  ghost predicate Crowded(d: Demuxer, ssrcs: set<Ssrc>) {
    && d.sinkBySsrc.Keys == ssrcs && d.sinksByPt == map[0 := [2]]
    && d.sinkByMid == map[] && d.sinkByMidAndRsid == map[] && d.sinkByRsid == map[]
    && d.midBySsrc == map[] && d.rsidBySsrc == map[]
  }

  lemma Crowd(ssrcs: set<Ssrc>) returns (ops: seq<Op>)
    ensures Crowded(After(Empty(), ops), ssrcs)
  {
    var many, typed := Criteria("", "", ssrcs, {}), Criteria("", "", {}, {0});
    var none: seq<Op> := [];
    ops := none + [Add(many, 1)] + [Add(typed, 2)];
    AfterOne(Empty(), none, Add(many, 1));
    AfterOne(Empty(), none + [Add(many, 1)], Add(typed, 2));
    CrowdedByTwo(many, typed);
  }

  lemma CrowdedByTwo(many: Criteria, typed: Criteria)
    requires many.mid == many.rsid == "" && many.payloadTypes == {} && typed == Criteria("", "", {}, {0})
    ensures Crowded(AddSink(AddSink(Empty(), many, 1).0, typed, 2).0, many.ssrcs)
  {
    var d1 := AddSink(Empty(), many, 1).0;
    assert d1.sinkBySsrc == ToSink(many.ssrcs, 1) && d1.sinksByPt == map[];
    assert d1.sinkBySsrc + ToSink({}, 2) == d1.sinkBySsrc;
    var none: seq<Sink> := [];
    assert none + [2] == [2];
    assert AddToEach(d1.sinksByPt, typed.payloadTypes, 2)[0] == [2];
    assert AddToEach(d1.sinksByPt, typed.payloadTypes, 2) == map[0 := [2]];
  }

  lemma CrowdedGoes(d: Demuxer, ssrcs: set<Ssrc>, ssrc: Ssrc)
    requires Crowded(d, ssrcs) && |ssrcs| >= MAX_SSRC_BINDINGS && ssrc !in ssrcs
    ensures ResolveSink(d, Packet(None, None, ssrc, 0)) == (d, Some(2))
    ensures ResolveSink(d, Packet(None, None, ssrc, 1)) == (d, None)
  {
    assert |d.sinkBySsrc| == |d.sinkBySsrc.Keys|;
  }

  /** At the limit a packet of another payload type does not follow. */
  lemma LimitBreaksFollowing()
    ensures exists ops, p: Packet, q: Packet ::
              && q.ssrc == p.ssrc && q.mid == None && q.rsid == None
              && LastAnswer(ops + [Receive(p)]) == Routed(Some(2))
              && LastAnswer(ops + [Receive(p)] + [Receive(q)]) == Routed(None)
  {
    var ssrcs := SomeSsrcs(MAX_SSRC_BINDINGS);
    var ops := Crowd(ssrcs);
    var d := After(Empty(), ops);
    var p, q := Packet(None, None, MAX_SSRC_BINDINGS, 0), Packet(None, None, MAX_SSRC_BINDINGS, 1);
    CrowdedGoes(d, ssrcs, MAX_SSRC_BINDINGS);
    hide ResolveSink, Crowded;
    AfterOne(Empty(), ops, Receive(p));
    assert (ops + [Receive(p)])[..|ops|] == ops;
    assert (ops + [Receive(p)] + [Receive(q)])[..|ops| + 1] == ops + [Receive(p)];
  }

  // ---------- The limit on bindings

  lemma BoundByRoute(d: Demuxer, p: Packet, sink: Sink)
    requires ResolveSink(d, p).1 == Some(sink)
    ensures var d1 := ResolveSink(d, p).0;
            && (p.ssrc in d1.sinkBySsrc <==> p.ssrc in d.sinkBySsrc || |d.sinkBySsrc| < 1000)
            && (p.ssrc in d1.sinkBySsrc ==> d1.sinkBySsrc[p.ssrc] == sink)
  {
    hide SinkByIds, SinkByPayloadType;
  }

  /**
   A forwarded packet leaves its SSRC bound to the sink it went to, unless the SSRC was not bound before and
   1000 others were.
   */
  lemma ForwardedIsBound(ops: seq<Op>, p: Packet, sink: Sink)
    requires LastAnswer(ops + [Receive(p)]) == Routed(Some(sink))
    ensures var d, d1 := After(Empty(), ops), After(Empty(), ops + [Receive(p)]);
            && (p.ssrc in d1.sinkBySsrc <==> p.ssrc in d.sinkBySsrc || |d.sinkBySsrc| < 1000)
            && (p.ssrc in d1.sinkBySsrc ==> d1.sinkBySsrc[p.ssrc] == sink)
  {
    hide ResolveSink;
    assert (ops + [Receive(p)])[..|ops|] == ops;
    BoundByRoute(After(Empty(), ops), p, sink);
  }

  /** With fewer than 1000 bound SSRCs the later packets without IDs follow, whatever their payload types. */
  lemma FollowsBelowTheLimit(ops: seq<Op>, p: Packet, between: seq<Op>, q: Packet, sink: Sink)
    requires LastAnswer(ops + [Receive(p)]) == Routed(Some(sink)) && |After(Empty(), ops).sinkBySsrc| < 1000
    requires forall i :: 0 <= i < |between| ==> Between(After(Empty(), ops + [Receive(p)]), p.ssrc, between[i])
    requires q.ssrc == p.ssrc && q.mid == None && q.rsid == None
    ensures LastAnswer(ops + [Receive(p)] + between + [Receive(q)]) == Routed(Some(sink))
  {
    hide After, LastAnswer, Between;
    ForwardedIsBound(ops, p, sink);
    LaterPacketsFollow(ops, p, between, q, sink);
  }

  /** Packets alone do not make the SSRC index grow past the limit. */
  lemma {:induction false} PacketsKeepTheLimit(d: Demuxer, packets: seq<Op>)
    requires forall i :: 0 <= i < |packets| ==> packets[i].Receive?
    ensures |After(d, packets).sinkBySsrc| <= |d.sinkBySsrc| || |After(d, packets).sinkBySsrc| <= MAX_SSRC_BINDINGS
  {
    if packets != [] {
      PacketsKeepTheLimit(d, packets[..|packets| - 1]);
      OnePacketGrows(After(d, packets[..|packets| - 1]), packets[|packets| - 1].packet);
    }
  }

  lemma OnePacketGrows(d: Demuxer, p: Packet)
    ensures var d1 := ResolveSink(d, p).0;
            || |d1.sinkBySsrc| == |d.sinkBySsrc|
            || (|d1.sinkBySsrc| == |d.sinkBySsrc| + 1 && |d.sinkBySsrc| < MAX_SSRC_BINDINGS)
  {
    hide Choose, AddSsrcSinkBinding;
    var d1 := Latch(d, p);
    forall sink {
      BindingGrows(d1, p.ssrc, sink);
    }
  }

  lemma BindingGrows(d: Demuxer, ssrc: Ssrc, sink: Sink)
    ensures var d1 := AddSsrcSinkBinding(d, ssrc, sink);
            || |d1.sinkBySsrc| == |d.sinkBySsrc|
            || (|d1.sinkBySsrc| == |d.sinkBySsrc| + 1 && |d.sinkBySsrc| < MAX_SSRC_BINDINGS)
  {
    MapGrows(d.sinkBySsrc, ssrc, sink);
  }

  lemma MapGrows<K, V>(m: map<K, V>, k: K, v: V)
    ensures |m[k := v]| == |m| + if k in m then 0 else 1
  {
    assert |m[k := v]| == |m[k := v].Keys| && |m| == |m.Keys|;
    assert m[k := v].Keys == m.Keys + {k};
  }
}
