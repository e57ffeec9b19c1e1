/** `RtpDemuxer` as a class that updates its indexes in place. */
module RtpDemuxing {
  import opened Wrappers
  import opened DemuxModel
  import opened DemuxRouting

  /** Removes the entries of a map that lead to `sink`, and counts them. */
  method RemoveByValue<K(==)>(m: map<K, Sink>, sink: Sink) returns (kept: map<K, Sink>, removed: nat)
    ensures kept == Others(m, sink) && (removed > 0 <==> sink in m.Values)
    ensures forall k :: k in kept <==> k in m && m[k] != sink
  {
    kept, removed := map[], 0;
    var rest := m.Keys;
    while rest != {}
      invariant rest <= m.Keys
      invariant forall k :: k in kept <==> k in m.Keys - rest && m[k] != sink
      invariant forall k :: k in kept ==> kept[k] == m[k]
      invariant removed > 0 <==> exists k :: k in m.Keys - rest && m[k] == sink
    {
      var k :| k in rest;
      ghost var done := m.Keys - rest;
      rest := rest - {k};
      assert m.Keys - rest == done + {k};
      if m[k] == sink {
        removed := removed + 1;
      } else {
        kept := kept[k := m[k]];
      }
    }
  }

  /** Removes a sink from a list, and counts how often it was there. */
  method RemoveFromList(sinks: seq<Sink>, sink: Sink) returns (kept: seq<Sink>, removed: nat)
    ensures kept == Without(sinks, sink)
    ensures removed == multiset(sinks)[sink]
  {
    kept, removed := [], 0;
    for i := 0 to |sinks|
      invariant kept == Without(sinks[..i], sink)
      invariant removed == multiset(sinks[..i])[sink]
    {
      assert sinks[..i + 1][..i] == sinks[..i] && sinks[..i + 1] == sinks[..i] + [sinks[i]];
      if sinks[i] == sink {
        removed := removed + 1;
      } else {
        kept := kept + [sinks[i]];
      }
    }
    assert sinks[..|sinks|] == sinks;
  }

  /** Removes a sink from every list of a multimap, and counts how often it was there. */
  method RemoveFromMultimap(m: map<PayloadType, seq<Sink>>, sink: Sink)
      returns (kept: map<PayloadType, seq<Sink>>, removed: nat)
    ensures kept == RemoveFromEach(m, sink)
    ensures removed > 0 <==> exists k :: k in m && sink in m[k]
  {
    kept, removed := map[], 0;
    var rest := m.Keys;
    while rest != {}
      invariant rest <= m.Keys && kept.Keys == m.Keys - rest
      invariant forall k :: k in kept ==> kept[k] == Without(m[k], sink)
      invariant removed > 0 <==> exists k :: k in m.Keys - rest && sink in m[k]
    {
      var k :| k in rest;
      ghost var done := m.Keys - rest;
      rest := rest - {k};
      assert m.Keys - rest == done + {k};
      var list, n := RemoveFromList(m[k], sink);
      kept, removed := kept[k := list], removed + n;
    }
  }

  class RtpDemuxer {
    ghost var forwarded: seq<(Sink, Packet)>  // what the sinks were handed

    var sinkByMid: map<string, Sink>
    var sinkBySsrc: map<Ssrc, Sink>
    var sinksByPt: map<PayloadType, seq<Sink>>
    var sinkByMidAndRsid: map<(string, string), Sink>
    var sinkByRsid: map<string, Sink>
    var knownMids: set<string>
    var midBySsrc: map<Ssrc, string>
    var rsidBySsrc: map<Ssrc, string>

    function View(): Demuxer
      reads this
    {
      Demuxer(sinkByMid, sinkBySsrc, sinksByPt, sinkByMidAndRsid, sinkByRsid, knownMids, midBySsrc, rsidBySsrc)
    }

    constructor ()
      ensures View() == Empty() && forwarded == []
    {
      forwarded := [];
      sinkByMid, sinkBySsrc, sinksByPt, sinkByMidAndRsid, sinkByRsid := map[], map[], map[], map[], map[];
      knownMids, midBySsrc, rsidBySsrc := {}, map[], map[];
    }

    /** The known MIDs become those that some MID criterion, alone or with an RSID, asks for. */
    method RefreshKnownMids()
      modifies this`knownMids
      ensures forall mid :: mid in knownMids <==>
                mid in sinkByMid || exists pair :: pair in sinkByMidAndRsid && pair.0 == mid
      ensures View() == DemuxModel.RefreshKnownMids(old(View()))
    {
      knownMids := sinkByMid.Keys;
      var rest := sinkByMidAndRsid.Keys;
      while rest != {}
        invariant rest <= sinkByMidAndRsid.Keys
        invariant forall mid :: mid in knownMids <==>
                    mid in sinkByMid || exists pair :: pair in sinkByMidAndRsid.Keys - rest && pair.0 == mid
      {
        var pair :| pair in rest;
        ghost var done := sinkByMidAndRsid.Keys - rest;
        rest := rest - {pair};
        assert sinkByMidAndRsid.Keys - rest == done + {pair};
        knownMids := knownMids + {pair.0};
      }
      assert knownMids == MidsOf(sinkByMid, sinkByMidAndRsid);
    }

    method AddIds(c: Criteria, sink: Sink)
      modifies this`sinkByMid, this`sinkByMidAndRsid, this`sinkByRsid
      ensures sinkByMid == if c.mid != "" && c.rsid == "" then old(sinkByMid)[c.mid := sink] else old(sinkByMid)
      ensures sinkByMidAndRsid ==
              if c.mid != "" && c.rsid != "" then old(sinkByMidAndRsid)[(c.mid, c.rsid) := sink]
              else old(sinkByMidAndRsid)
      ensures sinkByRsid == if c.mid == "" && c.rsid != "" then old(sinkByRsid)[c.rsid := sink] else old(sinkByRsid)
    {
      if c.mid != "" {
        if c.rsid == "" {
          sinkByMid := sinkByMid[c.mid := sink];
        } else {
          sinkByMidAndRsid := sinkByMidAndRsid[(c.mid, c.rsid) := sink];
        }
      } else if c.rsid != "" {
        sinkByRsid := sinkByRsid[c.rsid := sink];
      }
    }

    method AddSink(c: Criteria, sink: Sink) returns (added: bool)
      modifies this
      ensures (View(), added) == DemuxModel.AddSink(old(View()), c, sink)
      ensures !added ==> View() == old(View())
      ensures forwarded == old(forwarded)
    {
      hide CriteriaWouldConflict, ToSink, AddToEach, MidsOf;
      if CriteriaWouldConflict(View(), c) {
        return false;
      }
      AddIds(c, sink);
      sinkBySsrc := sinkBySsrc + ToSink(c.ssrcs, sink);
      sinksByPt := AddToEach(sinksByPt, c.payloadTypes, sink);
      RefreshKnownMids();
      added := true;
    }

    /** The sink is in no index any more, every other entry stays, and the answer is whether there was one. */
    method RemoveSink(sink: Sink) returns (removed: bool)
      modifies this
      ensures (View(), removed) == DemuxModel.RemoveSink(old(View()), sink)
      ensures !Listed(View(), sink) && removed == Listed(old(View()), sink)
      ensures midBySsrc == old(midBySsrc) && rsidBySsrc == old(rsidBySsrc) && forwarded == old(forwarded)
    {
      hide Others, RemoveFromEach, MidsOf;
      var n0, n1, n2, n3, n4;
      sinkByMid, n0 := RemoveByValue(sinkByMid, sink);
      sinkBySsrc, n1 := RemoveByValue(sinkBySsrc, sink);
      sinksByPt, n2 := RemoveFromMultimap(sinksByPt, sink);
      sinkByMidAndRsid, n3 := RemoveByValue(sinkByMidAndRsid, sink);
      sinkByRsid, n4 := RemoveByValue(sinkByRsid, sink);
      RefreshKnownMids();
      removed := n0 + n1 + n2 + n3 + n4 > 0;
      assert removed == Listed(old(View()), sink);
      NotListed(old(View()), sink);
    }

    lemma NotListed(d: Demuxer, sink: Sink)
      ensures !Listed(DemuxModel.RemoveSink(d, sink).0, sink)
    {
      RemoveListed(d, sink, sink);
    }

    method AddSsrcSinkBinding(ssrc: Ssrc, sink: Sink)
      modifies this`sinkBySsrc
      ensures View() == DemuxModel.AddSsrcSinkBinding(old(View()), ssrc, sink)
    {
      if ssrc in sinkBySsrc || |sinkBySsrc| < MAX_SSRC_BINDINGS {
        sinkBySsrc := sinkBySsrc[ssrc := sink];
      }
    }

    method ResolveSinkByIds(mid: Option<string>, rsid: Option<string>) returns (sink: Option<Sink>)
      ensures sink == SinkByIds(View(), mid, rsid)
    {
      sink := None;
      if mid.Some? && rsid.Some? {
        sink := Get(sinkByMidAndRsid, (mid.value, rsid.value));
      }
      if sink == None && mid.Some? {
        sink := Get(sinkByMid, mid.value);
      }
      if sink == None && rsid.Some? {
        sink := Get(sinkByRsid, rsid.value);
      }
    }

    method ResolveSink(p: Packet) returns (sink: Option<Sink>)
      modifies this
      ensures (View(), sink) == DemuxModel.ResolveSink(old(View()), p)
      ensures forwarded == old(forwarded)
    {
      hide SinkByIds;
      if p.mid.Some? && p.mid.value !in knownMids {
        return None;
      }
      if p.mid.Some? {
        midBySsrc := midBySsrc[p.ssrc := p.mid.value];
      }
      if p.rsid.Some? {
        rsidBySsrc := rsidBySsrc[p.ssrc := p.rsid.value];
      }
      assert View() == Latch(old(View()), p);
      sink := ResolveSinkByIds(Get(midBySsrc, p.ssrc), Get(rsidBySsrc, p.ssrc));
      if sink == None && p.ssrc in sinkBySsrc {
        return Some(sinkBySsrc[p.ssrc]);
      }
      if sink == None && |Sinks(View(), p.payloadType)| == 1 {
        sink := Some(Sinks(View(), p.payloadType)[0]);
      }
      if sink.Some? {
        AddSsrcSinkBinding(p.ssrc, sink.value);
      }
    }

    /** The packet is handed to the chosen sink, or dropped if there is none. */
    method OnRtpPacket(p: Packet) returns (wasForwarded: bool)
      modifies this
      ensures View() == DemuxModel.ResolveSink(old(View()), p).0
      ensures var sink := DemuxModel.ResolveSink(old(View()), p).1;
              && wasForwarded == sink.Some?
              && forwarded == old(forwarded) + if sink.Some? then [(sink.value, p)] else []
    {
      var sink := ResolveSink(p);
      wasForwarded := sink.Some?;
      if sink.Some? {
        forwarded := forwarded + [(sink.value, p)];
      }
    }
  }
}
