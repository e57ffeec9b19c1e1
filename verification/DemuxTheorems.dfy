/** The indexes answer every history of calls and packets as the rules do. */
module DemuxTheorems {
  import opened Wrappers
  import opened DemuxModel
  import opened DemuxRules

  function Lookup(d: Demuxer, key: Key): Option<Sink> {
    match key
    case MidKey(mid) => Get(d.sinkByMid, mid)
    case PairKey(mid, rsid) => Get(d.sinkByMidAndRsid, (mid, rsid))
    case RsidKey(rsid) => Get(d.sinkByRsid, rsid)
  }

  /** No two criteria in force ask for the same IDs. */
  ghost predicate Distinct(live: seq<Registration>) {
    live == [] || (
      && Distinct(live[..|live| - 1])
      && (KeyOf(live[|live| - 1].criteria).Some? ==>
          Find(live[..|live| - 1], KeyOf(live[|live| - 1].criteria).value).None?))
  }

  ghost predicate Indexed(d: Demuxer, live: seq<Registration>) {
    && (forall key :: Lookup(d, key) == Find(live, key))
    && (forall pt :: Sinks(d, pt) == Asking(live, pt))
  }

  ghost predicate Learned(d: Demuxer, j: seq<Entry>) {
    && (forall ssrc :: Get(d.sinkBySsrc, ssrc) == BoundTo(j, ssrc))
    && (forall ssrc :: Get(d.midBySsrc, ssrc) == MidOf(j, ssrc))
    && (forall ssrc :: Get(d.rsidBySsrc, ssrc) == RsidOf(j, ssrc))
  }

  ghost predicate Inv(d: Demuxer, j: seq<Entry>) {
    && Distinct(Live(j))
    && Indexed(d, Live(j))
    && Learned(d, j)
    && d.knownMids == RefreshKnownMids(d).knownMids
  }

  // ---------- Known MIDs

  lemma {:induction false} FoundKey(live: seq<Registration>, key: Key)
    requires Find(live, key).Some?
    ensures exists i :: 0 <= i < |live| && KeyOf(live[i].criteria) == Some(key)
  {
    if KeyOf(live[|live| - 1].criteria) != Some(key) {
      FoundKey(live[..|live| - 1], key);
      var i :| 0 <= i < |live| - 1 && KeyOf(live[..|live| - 1][i].criteria) == Some(key);
      assert KeyOf(live[i].criteria) == Some(key);
    }
  }

  lemma {:induction false} KeyFound(live: seq<Registration>, i: nat)
    requires i < |live| && KeyOf(live[i].criteria).Some?
    ensures Find(live, KeyOf(live[i].criteria).value).Some?
  {
    if i < |live| - 1 {
      KeyFound(live[..|live| - 1], i);
    }
  }

  /** The refreshed set of MIDs is the MIDs of the criteria in force. */
  lemma KnownMids(d: Demuxer, live: seq<Registration>, mid: string)
    requires Indexed(d, live)
    ensures mid in RefreshKnownMids(d).knownMids <==> Known(live, mid)
  {
    if mid in RefreshKnownMids(d).knownMids {
      var key: Key;
      if mid in d.sinkByMid {
        key := MidKey(mid);
      } else {
        var pair :| pair in d.sinkByMidAndRsid && pair.0 == mid;
        key := PairKey(mid, pair.1);
      }
      assert Lookup(d, key).Some?;
      FoundKey(live, key);
    }
    if Known(live, mid) {
      var i :| 0 <= i < |live| && live[i].criteria.mid == mid && mid != "";
      KeyFound(live, i);
      var key := KeyOf(live[i].criteria).value;
      assert Lookup(d, key).Some?;
      if key.PairKey? {
        assert (key.mid, key.rsid) in d.sinkByMidAndRsid;
      }
    }
  }

  // ---------- Adding a sink

  lemma AddAgrees(d: Demuxer, j: seq<Entry>, c: Criteria, sink: Sink)
    requires Inv(d, j)
    ensures AddSink(d, c, sink).1 == !Rejected(j, c)
    ensures Inv(AddSink(d, c, sink).0, j + Entries(j, Add(c, sink)))
  {
    ConflictAgrees(d, j, c);
    if CriteriaWouldConflict(d, c) {
      assert j + [] == j;
    } else {
      var j1 := j + [Added(c, sink)];
      assert j1[..|j|] == j;
      var live := Live(j);
      assert Live(j1) == live + [Registration(c, sink)];
      assert Live(j1)[..|live|] == live;
      AddIndexes(d, live, c, sink);
      AddLearns(d, j, c, sink);
    }
  }

  lemma ConflictAgrees(d: Demuxer, j: seq<Entry>, c: Criteria)
    requires Inv(d, j)
    ensures CriteriaWouldConflict(d, c) == Rejected(j, c)
  {
    if KeyOf(c).Some? {
      assert Lookup(d, KeyOf(c).value) == Find(Live(j), KeyOf(c).value);
    }
    assert forall ssrc :: ssrc in d.sinkBySsrc <==> Get(d.sinkBySsrc, ssrc).Some?;
  }

  lemma LookupAdded(d: Demuxer, c: Criteria, sink: Sink, key: Key)
    requires !CriteriaWouldConflict(d, c)
    ensures Lookup(AddSink(d, c, sink).0, key) == if KeyOf(c) == Some(key) then Some(sink) else Lookup(d, key)
  {
  }

  lemma SinksAdded(d: Demuxer, c: Criteria, sink: Sink, pt: PayloadType)
    requires !CriteriaWouldConflict(d, c)
    ensures Sinks(AddSink(d, c, sink).0, pt) == Sinks(d, pt) + if pt in c.payloadTypes then [sink] else []
  {
  }

  lemma AddIndexes(d: Demuxer, live: seq<Registration>, c: Criteria, sink: Sink)
    requires Indexed(d, live) && !CriteriaWouldConflict(d, c)
    ensures Indexed(AddSink(d, c, sink).0, live + [Registration(c, sink)])
  {
    hide AddSink, Lookup, Sinks, KeyOf, CriteriaWouldConflict;
    var d1 := AddSink(d, c, sink).0;
    var live1 := live + [Registration(c, sink)];
    assert live1[..|live|] == live;
    forall key ensures Lookup(d1, key) == Find(live1, key) {
      LookupAdded(d, c, sink, key);
    }
    forall pt ensures Sinks(d1, pt) == Asking(live1, pt) {
      SinksAdded(d, c, sink, pt);
    }
  }

  lemma AddLearns(d: Demuxer, j: seq<Entry>, c: Criteria, sink: Sink)
    requires Learned(d, j) && !CriteriaWouldConflict(d, c)
    ensures Learned(AddSink(d, c, sink).0, j + [Added(c, sink)])
  {
    var d1 := AddSink(d, c, sink).0;
    var j1 := j + [Added(c, sink)];
    assert j1[..|j|] == j;
    forall ssrc
      ensures Get(d1.sinkBySsrc, ssrc) == BoundTo(j1, ssrc)
      ensures Get(d1.midBySsrc, ssrc) == MidOf(j1, ssrc) && Get(d1.rsidBySsrc, ssrc) == RsidOf(j1, ssrc)
    {
      assert Get(d.sinkBySsrc, ssrc) == BoundTo(j, ssrc);
      assert Get(d.midBySsrc, ssrc) == MidOf(j, ssrc) && Get(d.rsidBySsrc, ssrc) == RsidOf(j, ssrc);
    }
  }

  // ---------- Removing a sink

  lemma FindLast(init: seq<Registration>, last: Registration, key: Key)
    ensures Find(init + [last], key) == if KeyOf(last.criteria) == Some(key) then Some(last.sink) else Find(init, key)
  {
    assert (init + [last])[..|init|] == init;
  }

  lemma {:induction false} KeepFinds(live: seq<Registration>, sink: Sink, key: Key)
    requires Distinct(live)
    ensures Find(Keep(live, sink), key) == if Find(live, key) == Some(sink) then None else Find(live, key)
  {
    hide KeyOf;
    if live != [] {
      var init, last := live[..|live| - 1], live[|live| - 1];
      KeepFinds(init, sink, key);
      FindLast(Keep(init, sink), last, key);
      assert Keep(live, sink) == if last.sink != sink then Keep(init, sink) + [last] else Keep(init, sink);
    }
  }

  lemma {:induction false} KeepDistinct(live: seq<Registration>, sink: Sink)
    requires Distinct(live)
    ensures Distinct(Keep(live, sink))
  {
    if live != [] {
      var init, last := live[..|live| - 1], live[|live| - 1];
      KeepDistinct(init, sink);
      if last.sink != sink {
        assert Keep(live, sink)[..|Keep(live, sink)| - 1] == Keep(init, sink);
        if KeyOf(last.criteria).Some? {
          KeepFinds(init, sink, KeyOf(last.criteria).value);
        }
      } else {
        assert Keep(live, sink) == Keep(init, sink);
      }
    }
  }

  lemma {:induction false} KeepAsks(live: seq<Registration>, sink: Sink, pt: PayloadType)
    ensures Asking(Keep(live, sink), pt) == Without(Asking(live, pt), sink)
  {
    if live != [] {
      var init, last := live[..|live| - 1], live[|live| - 1];
      KeepAsks(init, sink, pt);
      if last.sink != sink {
        assert Keep(live, sink)[..|Keep(live, sink)| - 1] == Keep(init, sink);
      } else {
        assert Keep(live, sink) == Keep(init, sink);
      }
      if pt in last.criteria.payloadTypes {
        assert Asking(live, pt)[..|Asking(live, pt)| - 1] == Asking(init, pt);
      } else {
        assert Asking(live, pt) == Asking(init, pt);
      }
      if last.sink != sink && pt in last.criteria.payloadTypes {
        assert Asking(Keep(live, sink), pt) == Asking(Keep(init, sink), pt) + [last.sink];
      }
    }
  }

  lemma RemoveAgrees(d: Demuxer, j: seq<Entry>, sink: Sink)
    requires Inv(d, j)
    ensures RemoveSink(d, sink).1 == Leads(j, sink)
    ensures Inv(RemoveSink(d, sink).0, j + [Removed(sink)])
  {
    ListedLeads(d, j, sink);
    var j1 := j + [Removed(sink)];
    assert j1[..|j|] == j;
    KeepDistinct(Live(j), sink);
    RemoveIndexes(d, Live(j), sink);
    RemoveLearns(d, j, sink);
  }

  lemma ListedLeads(d: Demuxer, j: seq<Entry>, sink: Sink)
    requires Inv(d, j)
    ensures Listed(d, sink) == Leads(j, sink)
  {
    if Listed(d, sink) {
      if sink in d.sinkByMid.Values {
        var mid :| mid in d.sinkByMid && d.sinkByMid[mid] == sink;
        assert Lookup(d, MidKey(mid)) == Some(sink);
      } else if sink in d.sinkBySsrc.Values {
        var ssrc :| ssrc in d.sinkBySsrc && d.sinkBySsrc[ssrc] == sink;
        assert Get(d.sinkBySsrc, ssrc) == Some(sink);
      } else if sink in d.sinkByMidAndRsid.Values {
        var pair :| pair in d.sinkByMidAndRsid && d.sinkByMidAndRsid[pair] == sink;
        assert Lookup(d, PairKey(pair.0, pair.1)) == Some(sink);
      } else if sink in d.sinkByRsid.Values {
        var rsid :| rsid in d.sinkByRsid && d.sinkByRsid[rsid] == sink;
        assert Lookup(d, RsidKey(rsid)) == Some(sink);
      } else {
        var pt :| pt in d.sinksByPt && sink in d.sinksByPt[pt];
        assert sink in Sinks(d, pt);
      }
    }
    if Leads(j, sink) {
      if key :| Find(Live(j), key) == Some(sink) {
        assert Lookup(d, key) == Some(sink);
        match key
        case MidKey(mid) => assert d.sinkByMid[mid] == sink;
        case PairKey(mid, rsid) => assert d.sinkByMidAndRsid[(mid, rsid)] == sink;
        case RsidKey(rsid) => assert d.sinkByRsid[rsid] == sink;
      } else if pt :| sink in Asking(Live(j), pt) {
        assert sink in Sinks(d, pt);
      } else {
        var ssrc :| BoundTo(j, ssrc) == Some(sink);
        assert Get(d.sinkBySsrc, ssrc) == Some(sink);
        assert d.sinkBySsrc[ssrc] == sink;
      }
    }
  }

  lemma LookupRemoved(d: Demuxer, sink: Sink, key: Key)
    ensures Lookup(RemoveSink(d, sink).0, key) == if Lookup(d, key) == Some(sink) then None else Lookup(d, key)
  {
  }

  lemma SinksRemoved(d: Demuxer, sink: Sink, pt: PayloadType)
    ensures Sinks(RemoveSink(d, sink).0, pt) == Without(Sinks(d, pt), sink)
  {
  }

  lemma RemoveIndexes(d: Demuxer, live: seq<Registration>, sink: Sink)
    requires Indexed(d, live) && Distinct(live)
    ensures Indexed(RemoveSink(d, sink).0, Keep(live, sink))
  {
    hide RemoveSink, Lookup, Sinks;
    var d1 := RemoveSink(d, sink).0;
    forall key ensures Lookup(d1, key) == Find(Keep(live, sink), key) {
      LookupRemoved(d, sink, key);
      KeepFinds(live, sink, key);
    }
    forall pt ensures Sinks(d1, pt) == Asking(Keep(live, sink), pt) {
      SinksRemoved(d, sink, pt);
      KeepAsks(live, sink, pt);
    }
  }

  lemma RemoveLearns(d: Demuxer, j: seq<Entry>, sink: Sink)
    requires Learned(d, j)
    ensures Learned(RemoveSink(d, sink).0, j + [Removed(sink)])
  {
    var d1 := RemoveSink(d, sink).0;
    var j1 := j + [Removed(sink)];
    assert j1[..|j|] == j;
    forall ssrc
      ensures Get(d1.sinkBySsrc, ssrc) == BoundTo(j1, ssrc)
      ensures Get(d1.midBySsrc, ssrc) == MidOf(j1, ssrc) && Get(d1.rsidBySsrc, ssrc) == RsidOf(j1, ssrc)
    {
      assert Get(d.sinkBySsrc, ssrc) == BoundTo(j, ssrc);
      assert Get(d.midBySsrc, ssrc) == MidOf(j, ssrc) && Get(d.rsidBySsrc, ssrc) == RsidOf(j, ssrc);
    }
  }

  // ---------- Resolving a packet

  lemma {:induction false} BoundIsMentioned(j: seq<Entry>, ssrc: Ssrc)
    requires BoundTo(j, ssrc).Some?
    ensures ssrc in Mentioned(j)
  {
    if BoundTo(j[..|j| - 1], ssrc).Some? {
      BoundIsMentioned(j[..|j| - 1], ssrc);
    }
  }

  lemma BoundAgree(d: Demuxer, j: seq<Entry>)
    requires Learned(d, j)
    ensures d.sinkBySsrc.Keys == BoundSsrcs(j)
  {
    forall ssrc ensures ssrc in d.sinkBySsrc <==> ssrc in BoundSsrcs(j) {
      assert Get(d.sinkBySsrc, ssrc) == BoundTo(j, ssrc);
      if BoundTo(j, ssrc).Some? {
        BoundIsMentioned(j, ssrc);
      }
    }
  }

  lemma IdsAgree(d: Demuxer, live: seq<Registration>, mid: Option<string>, rsid: Option<string>)
    requires Indexed(d, live)
    ensures SinkByIds(d, mid, rsid) == FindByIds(live, mid, rsid)
  {
    hide Find;
    assert mid.Some? ==> Lookup(d, MidKey(mid.value)) == Find(live, MidKey(mid.value));
    assert rsid.Some? ==> Lookup(d, RsidKey(rsid.value)) == Find(live, RsidKey(rsid.value));
    assert mid.Some? && rsid.Some? ==>
        Lookup(d, PairKey(mid.value, rsid.value)) == Find(live, PairKey(mid.value, rsid.value));
  }

  /** What the rules go by, as the indexes hold it: the known MIDs, the IDs of a packet, and the bindings. */
  lemma Facts(d: Demuxer, j: seq<Entry>, p: Packet)
    requires Inv(d, j)
    ensures Learned(d, j)
    ensures p.mid.Some? ==> (p.mid.value in d.knownMids <==> Known(Live(j), p.mid.value))
    ensures Get(Latch(d, p).midBySsrc, p.ssrc) == MidFor(j, p) && Get(Latch(d, p).rsidBySsrc, p.ssrc) == RsidFor(j, p)
    ensures Get(d.sinkBySsrc, p.ssrc) == BoundTo(j, p.ssrc)
    ensures d.sinkBySsrc.Keys == BoundSsrcs(j)
  {
    if p.mid.Some? {
      KnownMids(d, Live(j), p.mid.value);
    }
    assert Get(d.midBySsrc, p.ssrc) == MidOf(j, p.ssrc) && Get(d.rsidBySsrc, p.ssrc) == RsidOf(j, p.ssrc);
    BoundAgree(d, j);
  }

  /** And the sinks that the IDs and the payload type of a packet lead to. */
  lemma SinksAgree(d: Demuxer, j: seq<Entry>, p: Packet, mid: Option<string>, rsid: Option<string>)
    requires Inv(d, j)
    ensures SinkByIds(Latch(d, p), mid, rsid) == FindByIds(Live(j), mid, rsid)
    ensures SinkByPayloadType(Latch(d, p), p.payloadType) ==
            (if |Asking(Live(j), p.payloadType)| == 1 then Some(Asking(Live(j), p.payloadType)[0]) else None)
  {
    assert Sinks(d, p.payloadType) == Asking(Live(j), p.payloadType);
    IdsAgree(d, Live(j), mid, rsid);
  }

  lemma LatchLearns(d: Demuxer, j: seq<Entry>, p: Packet)
    requires Learned(d, j)
    ensures Learned(Latch(d, p), j + [Heard(p)])
  {
    var d1 := Latch(d, p);
    var j1 := j + [Heard(p)];
    assert j1[..|j|] == j;
    forall ssrc
      ensures Get(d1.sinkBySsrc, ssrc) == BoundTo(j1, ssrc)
      ensures Get(d1.midBySsrc, ssrc) == MidOf(j1, ssrc) && Get(d1.rsidBySsrc, ssrc) == RsidOf(j1, ssrc)
    {
      assert Get(d.sinkBySsrc, ssrc) == BoundTo(j, ssrc);
      assert Get(d.midBySsrc, ssrc) == MidOf(j, ssrc) && Get(d.rsidBySsrc, ssrc) == RsidOf(j, ssrc);
    }
  }

  lemma BindLearns(d: Demuxer, j: seq<Entry>, ssrc: Ssrc, sink: Sink)
    requires Learned(d, j)
    ensures Learned(d.(sinkBySsrc := d.sinkBySsrc[ssrc := sink]), j + [Bound(ssrc, sink)])
  {
    var d1 := d.(sinkBySsrc := d.sinkBySsrc[ssrc := sink]);
    var j1 := j + [Bound(ssrc, sink)];
    assert j1[..|j|] == j;
    forall x
      ensures Get(d1.sinkBySsrc, x) == BoundTo(j1, x)
      ensures Get(d1.midBySsrc, x) == MidOf(j1, x) && Get(d1.rsidBySsrc, x) == RsidOf(j1, x)
    {
      assert Get(d.sinkBySsrc, x) == BoundTo(j, x);
      assert Get(d.midBySsrc, x) == MidOf(j, x) && Get(d.rsidBySsrc, x) == RsidOf(j, x);
    }
  }

  /** Packets change no criterion. */
  lemma SameIndexes(d: Demuxer, j: seq<Entry>, d1: Demuxer, e: Entry)
    requires Inv(d, j) && (e.Heard? || e.Bound?)
    requires d1 == d.(midBySsrc := d1.midBySsrc, rsidBySsrc := d1.rsidBySsrc, sinkBySsrc := d1.sinkBySsrc)
    requires Learned(d1, j + [e])
    ensures Inv(d1, j + [e])
  {
    assert (j + [e])[..|j|] == j;
    assert forall key :: Lookup(d1, key) == Lookup(d, key);
    assert forall pt :: Sinks(d1, pt) == Sinks(d, pt);
  }

  lemma ReceiveAgrees(d: Demuxer, j: seq<Entry>, p: Packet)
    requires Inv(d, j)
    ensures ResolveSink(d, p).1 == Destination(ByRules(j, p))
    ensures Inv(ResolveSink(d, p).0, j + Left(j, p))
  {
    hide Inv, Learned, MidFor, RsidFor, FindByIds, SinkByIds, SinkByPayloadType, Known, BoundSsrcs;
    Facts(d, j, p);
    SinksAgree(d, j, p, MidFor(j, p), RsidFor(j, p));
    var v := ByRules(j, p);
    if v.Drop? {
      assert j + [] == j;
    } else {
      var d1 := Latch(d, p);
      LatchLearns(d, j, p);
      SameIndexes(d, j, d1, Heard(p));
      if v.ById? || v.ByType? {
        BindLearns(d1, j + [Heard(p)], p.ssrc, v.sink);
        SameIndexes(d1, j + [Heard(p)], d1.(sinkBySsrc := d1.sinkBySsrc[p.ssrc := v.sink]), Bound(p.ssrc, v.sink));
        assert j + [Heard(p)] + [Bound(p.ssrc, v.sink)] == j + [Heard(p), Bound(p.ssrc, v.sink)];
      }
    }
  }

  // ---------- Every history

  lemma StepAgrees(d: Demuxer, j: seq<Entry>, op: Op)
    requires Inv(d, j)
    ensures Apply(d, op).1 == Answers(j, op)
    ensures Inv(Apply(d, op).0, j + Entries(j, op))
  {
    hide Inv;
    match op
    case Add(c, sink) => AddAgrees(d, j, c, sink);
    case Remove(sink) => RemoveAgrees(d, j, sink);
    case Receive(p) => ReceiveAgrees(d, j, p);
  }

  lemma {:induction false} HistoryInv(ops: seq<Op>)
    ensures Inv(After(Empty(), ops), Journal(ops))
  {
    if ops != [] {
      hide Inv;
      var before := ops[..|ops| - 1];
      HistoryInv(before);
      StepAgrees(After(Empty(), before), Journal(before), ops[|ops| - 1]);
    }
  }

  /**
   For every history, the answer to the last call is the one the rules give: whether a sink was accepted or
   removed, and the sink a packet is forwarded to.
   */
  lemma IndexesFollowTheRules(ops: seq<Op>)
    requires ops != []
    ensures LastAnswer(ops) == Answers(Journal(ops[..|ops| - 1]), ops[|ops| - 1])
  {
    HistoryInv(ops[..|ops| - 1]);
    StepAgrees(After(Empty(), ops[..|ops| - 1]), Journal(ops[..|ops| - 1]), ops[|ops| - 1]);
  }

  /**
   In every reachable state the known MIDs are those of the two MID indexes, which are those of the criteria in force.
   */
  lemma KnownMidsAreTheIndexed(ops: seq<Op>, mid: string)
    ensures var d := After(Empty(), ops);
            && (mid in d.knownMids <==>
                  mid in d.sinkByMid || exists pair :: pair in d.sinkByMidAndRsid && pair.0 == mid)
            && (mid in d.knownMids <==> Known(Live(Journal(ops)), mid))
  {
    HistoryInv(ops);
    KnownMids(After(Empty(), ops), Live(Journal(ops)), mid);
  }
}
