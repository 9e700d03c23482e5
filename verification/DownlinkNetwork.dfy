/**
 Gateways and device queues as one machine: downlinks arrive at gateways, devices join their coverage and
 take frames from their queues, in any order. Step is total, so every list of events is a run.
 */
module DownlinkNetwork {
  import opened Prelude
  import opened Gateways

  /** A queue belongs to the device object that made it; two device objects may share an EUI. */
  type QueueId = nat

  /** What a gateway has done for a queue since it was added: downlinks before, and indices dropped since. */
  datatype Cover = Cover(since: nat, dropped: seq<nat>)

  datatype GatewayState = GatewayState(devices: map<DevEui, QueueId>, downlinks: seq<DownlinkFrame>, covers: map<QueueId, Cover>)

  datatype QueueState = QueueState(devEui: DevEui, queue: seq<Entry>, processed: seq<Entry>)

  datatype Network = Network(gateways: map<GatewayId, GatewayState>, queues: map<QueueId, QueueState>)

  datatype Event =
    | AddDevice(g: GatewayId, q: QueueId)
    | Downlink(g: GatewayId, frame: DownlinkFrame)
    | Take(q: QueueId)

  function EmptyGateway(): GatewayState {
    GatewayState(map[], [], map[])
  }

  /** Gateways and queues exist from the start; nothing is covered and nothing was sent. */
  predicate Initial(n: Network) {
    && (forall g | g in n.gateways :: n.gateways[g] == EmptyGateway())
    && (forall q | q in n.queues :: n.queues[q].queue == [] && n.queues[q].processed == [])
  }

  predicate Covers(gs: GatewayState, queues: map<QueueId, QueueState>, q: QueueId) {
    q in queues && queues[q].devEui in gs.devices && gs.devices[queues[q].devEui] == q
  }

  function Added(gs: GatewayState, queues: map<QueueId, QueueState>, q: QueueId): GatewayState
    requires q in queues
  {
    GatewayState(gs.devices[queues[q].devEui := q], gs.downlinks, gs.covers[q := Cover(|gs.downlinks|, [])])
  }

  function Sent(gs: GatewayState, queues: map<QueueId, QueueState>, frame: DownlinkFrame): GatewayState {
    GatewayState(gs.devices, gs.downlinks + [frame],
                 map q | q in gs.covers ::
                   if Covers(gs, queues, q) && |queues[q].queue| >= QUEUE_SIZE
                   then gs.covers[q].(dropped := gs.covers[q].dropped + [|gs.downlinks|])
                   else gs.covers[q])
  }

  function FannedOut(gs: GatewayState, queues: map<QueueId, QueueState>, e: Entry): map<QueueId, QueueState> {
    map q | q in queues ::
      if Covers(gs, queues, q) then queues[q].(queue := Offer(queues[q].queue, e)) else queues[q]
  }

  function Step(n: Network, e: Event): Network {
    match e
    case AddDevice(g, q) =>
      if g in n.gateways && q in n.queues then
        n.(gateways := n.gateways[g := Added(n.gateways[g], n.queues, q)])
      else n
    case Downlink(g, frame) =>
      if g in n.gateways then
        var gs := n.gateways[g];
        Network(n.gateways[g := Sent(gs, n.queues, frame)],
                FannedOut(gs, n.queues, Entry(g, |gs.downlinks|, frame)))
      else n
    case Take(q) =>
      if q in n.queues && n.queues[q].queue != [] then
        var qs := n.queues[q];
        n.(queues := n.queues[q := qs.(queue := qs.queue[1..], processed := qs.processed + [qs.queue[0]])])
      else n
  }

  function Exec(n: Network, es: seq<Event>): Network {
    if es == [] then n else Step(Exec(n, es[..|es| - 1]), es[|es| - 1])
  }

  /** Everything a queue ever accepted, oldest first. */
  function Taken(qs: QueueState): seq<Entry> {
    qs.processed + qs.queue
  }

  /** The places, among gateway g's downlinks, of the entries that came through g from place `since` on. */
  function Through(entries: seq<Entry>, g: GatewayId, since: nat): seq<nat> {
    if entries == [] then []
    else
      var last := entries[|entries| - 1];
      Through(entries[..|entries| - 1], g, since) + if last.gateway == g && last.index >= since then [last.index] else []
  }

  /** Entries of one gateway keep its order, none twice, each with the frame of its place. */
  ghost predicate InOrder(entries: seq<Entry>, g: GatewayId, downlinks: seq<DownlinkFrame>) {
    && (forall i | 0 <= i < |entries| && entries[i].gateway == g ::
          entries[i].index < |downlinks| && entries[i].frame == downlinks[entries[i].index])
    && (forall i, j | 0 <= i < j < |entries| && entries[i].gateway == g && entries[j].gateway == g ::
          entries[i].index < entries[j].index)
  }

  /** Enqueued and dropped frames together are the downlinks since the device was added, each exactly once. */
  ghost predicate Conserves(gs: GatewayState, g: GatewayId, entries: seq<Entry>, cover: Cover) {
    var through, n := Through(entries, g, cover.since), |gs.downlinks|;
    && cover.since <= n
    && |through| + |cover.dropped| == n - cover.since
    && (forall i: nat :: cover.since <= i < n <==> i in through || i in cover.dropped)
    && (forall i: nat :: !(i in through && i in cover.dropped))
  }

  ghost predicate Ordered(n: Network, g: GatewayId, q: QueueId)
    requires g in n.gateways && q in n.queues
  {
    InOrder(Taken(n.queues[q]), g, n.gateways[g].downlinks)
  }

  ghost predicate Accounted(n: Network, g: GatewayId, q: QueueId)
    requires g in n.gateways && q in n.queues
  {
    Covers(n.gateways[g], n.queues, q) ==>
      q in n.gateways[g].covers && Conserves(n.gateways[g], g, Taken(n.queues[q]), n.gateways[g].covers[q])
  }

  ghost predicate Inv(n: Network) {
    && (forall q | q in n.queues :: |n.queues[q].queue| <= QUEUE_SIZE)
    && (forall g, q | g in n.gateways && q in n.queues :: Ordered(n, g, q))
    && (forall g, q | g in n.gateways && q in n.queues :: Accounted(n, g, q))
  }

  lemma ThroughAppend(entries: seq<Entry>, e: Entry, g: GatewayId, since: nat)
    ensures Through(entries + [e], g, since)
         == Through(entries, g, since) + if e.gateway == g && e.index >= since then [e.index] else []
  {
    assert (entries + [e])[..|entries|] == entries;
  }

  lemma {:induction false} ThroughBelow(entries: seq<Entry>, g: GatewayId, downlinks: seq<DownlinkFrame>, since: nat)
    requires InOrder(entries, g, downlinks)
    ensures forall i :: i in Through(entries, g, since) ==> since <= i < |downlinks|
  {
    if entries != [] {
      ThroughBelow(entries[..|entries| - 1], g, downlinks, since);
    }
  }

  lemma {:induction false} NothingThroughYet(entries: seq<Entry>, g: GatewayId, downlinks: seq<DownlinkFrame>)
    requires InOrder(entries, g, downlinks)
    ensures Through(entries, g, |downlinks|) == []
  {
    if entries != [] {
      NothingThroughYet(entries[..|entries| - 1], g, downlinks);
    }
  }

  /** A queue just added to a gateway has nothing to account for. */
  lemma NewCover(gs: GatewayState, queues: map<QueueId, QueueState>, q: QueueId, g: GatewayId)
    requires q in queues && InOrder(Taken(queues[q]), g, gs.downlinks)
    ensures Conserves(Added(gs, queues, q), g, Taken(queues[q]), Cover(|gs.downlinks|, []))
  {
    NothingThroughYet(Taken(queues[q]), g, gs.downlinks);
  }

  lemma OrderExtends(entries: seq<Entry>, h: GatewayId, downlinks: seq<DownlinkFrame>, e: Entry)
    requires InOrder(entries, h, downlinks)
    requires e.gateway == h ==> e.index == |downlinks|
    ensures e.gateway == h ==> InOrder(entries + [e], h, downlinks + [e.frame])
    ensures e.gateway != h ==> InOrder(entries + [e], h, downlinks)
    ensures InOrder(entries, h, downlinks + [e.frame])
  {
  }

  lemma Conserved(gs: GatewayState, queues: map<QueueId, QueueState>, q: QueueId, g: GatewayId, frame: DownlinkFrame)
    requires Covers(gs, queues, q) && q in gs.covers
    requires Conserves(gs, g, Taken(queues[q]), gs.covers[q])
    requires InOrder(Taken(queues[q]), g, gs.downlinks)
    ensures var e := Entry(g, |gs.downlinks|, frame);
            Conserves(Sent(gs, queues, frame), g, Taken(FannedOut(gs, queues, e)[q]), Sent(gs, queues, frame).covers[q])
  {
    var n, e, cover := |gs.downlinks|, Entry(g, |gs.downlinks|, frame), gs.covers[q];
    var before, after := Taken(queues[q]), Taken(FannedOut(gs, queues, e)[q]);
    var through := Through(before, g, cover.since);
    ThroughBelow(before, g, gs.downlinks, cover.since);
    assert n !in through && n !in cover.dropped;
    if |queues[q].queue| < QUEUE_SIZE {
      assert after == before + [e];
      ThroughAppend(before, e, g, cover.since);
    } else {
      assert after == before;
    }
  }

  lemma Elsewhere(entries: seq<Entry>, e: Entry, h: GatewayId, since: nat)
    requires e.gateway != h
    ensures Through(entries + [e], h, since) == Through(entries, h, since)
  {
    ThroughAppend(entries, e, h, since);
  }

  lemma DownlinkStep(n: Network, g: GatewayId, frame: DownlinkFrame)
    requires Inv(n) && g in n.gateways
    ensures Inv(Step(n, Downlink(g, frame)))
  {
    var t := Step(n, Downlink(g, frame));
    forall h, q | h in t.gateways && q in t.queues ensures Ordered(t, h, q) && Accounted(t, h, q) {
      DownlinkAt(n, g, frame, h, q);
    }
  }

  lemma DownlinkAt(n: Network, g: GatewayId, frame: DownlinkFrame, h: GatewayId, q: QueueId)
    requires g in n.gateways && h in n.gateways && q in n.queues
    requires Ordered(n, h, q) && Accounted(n, h, q)
    ensures var t := Step(n, Downlink(g, frame)); Ordered(t, h, q) && Accounted(t, h, q)
  {
    var gs, before := n.gateways[g], Taken(n.queues[q]);
    var e := Entry(g, |gs.downlinks|, frame);
    var after := Taken(FannedOut(gs, n.queues, e)[q]);
    assert after == before || after == before + [e] by {
      if Covers(gs, n.queues, q) && |n.queues[q].queue| < QUEUE_SIZE {
        assert after == before + [e];
      }
    }
    OrderExtends(before, h, n.gateways[h].downlinks, e);
    if Covers(n.gateways[h], n.queues, q) {
      if h == g {
        Conserved(gs, n.queues, q, g, frame);
      } else {
        Elsewhere(before, e, h, n.gateways[h].covers[q].since);
      }
    }
  }

  lemma AddStep(n: Network, g: GatewayId, q: QueueId)
    requires Inv(n) && g in n.gateways && q in n.queues
    ensures Inv(Step(n, AddDevice(g, q)))
  {
    var t := Step(n, AddDevice(g, q));
    assert Ordered(n, g, q);
    NewCover(n.gateways[g], n.queues, q, g);
    forall h, r | h in t.gateways && r in t.queues ensures Ordered(t, h, r) && Accounted(t, h, r) {
      assert Ordered(n, h, r) && Accounted(n, h, r);
    }
  }

  lemma TakeStep(n: Network, q: QueueId)
    requires Inv(n) && q in n.queues && n.queues[q].queue != []
    ensures Inv(Step(n, Take(q)))
  {
    var t := Step(n, Take(q));
    assert Taken(t.queues[q]) == Taken(n.queues[q]);
    forall h, r | h in t.gateways && r in t.queues ensures Ordered(t, h, r) && Accounted(t, h, r) {
      assert Ordered(n, h, r) && Accounted(n, h, r);
    }
  }

  lemma InvStep(n: Network, e: Event)
    requires Inv(n)
    ensures Inv(Step(n, e))
  {
    match e
    case AddDevice(g, q) => if g in n.gateways && q in n.queues { AddStep(n, g, q); }
    case Downlink(g, frame) => if g in n.gateways { DownlinkStep(n, g, frame); }
    case Take(q) => if q in n.queues && n.queues[q].queue != [] { TakeStep(n, q); }
  }

  lemma {:induction false} InvExec(n: Network, es: seq<Event>)
    requires Initial(n)
    ensures Inv(Exec(n, es))
  {
    if es != [] {
      InvExec(n, es[..|es| - 1]);
      InvStep(Exec(n, es[..|es| - 1]), es[|es| - 1]);
    }
  }

  /**
   In every run, for each gateway and each queue it covers: frames enqueued plus frames dropped are the downlinks
   since the queue was added, none lost otherwise and none twice.
   */
  lemma FanOutConserves(n: Network, es: seq<Event>, g: GatewayId, q: QueueId)
    requires Initial(n)
    requires g in Exec(n, es).gateways && Covers(Exec(n, es).gateways[g], Exec(n, es).queues, q)
    ensures var t := Exec(n, es);
            q in t.gateways[g].covers && Conserves(t.gateways[g], g, Taken(t.queues[q]), t.gateways[g].covers[q])
  {
    InvExec(n, es);
    assert Accounted(Exec(n, es), g, q);
  }

  /** What a device processed and still has queued keeps, gateway by gateway, the order of that gateway's downlinks. */
  lemma ProcessedInOrder(n: Network, es: seq<Event>, g: GatewayId, q: QueueId)
    requires Initial(n)
    requires g in Exec(n, es).gateways && q in Exec(n, es).queues
    ensures var t := Exec(n, es);
            InOrder(t.queues[q].processed + t.queues[q].queue, g, t.gateways[g].downlinks)
  {
    InvExec(n, es);
    assert Ordered(Exec(n, es), g, q);
  }

  /** A frame is dropped exactly when a downlink finds the covered queue holding a hundred frames. */
  lemma DropsExactlyWhenFull(n: Network, es: seq<Event>, e: Event, g: GatewayId, q: QueueId)
    requires Initial(n)
    requires g in Exec(n, es).gateways && Covers(Exec(n, es).gateways[g], Exec(n, es).queues, q)
    requires !e.AddDevice?
    ensures var s, t := Exec(n, es), Exec(n, es + [e]);
            && q in s.gateways[g].covers && g in t.gateways && q in t.gateways[g].covers
            && (t.gateways[g].covers[q].dropped != s.gateways[g].covers[q].dropped
                <==> e.Downlink? && e.g == g && |s.queues[q].queue| == 100)
  {
    InvExec(n, es);
    assert Accounted(Exec(n, es), g, q);
    assert (es + [e])[..|es|] == es;
  }

  // ----- the objects are in a state of the machine -----

  ghost predicate QueueIn(n: Network, qs: map<QueueId, DownlinkQueue>, q: QueueId)
    requires q in n.queues && q in qs
    reads qs[q]
  {
    qs[q].Valid() && qs[q].devEui == n.queues[q].devEui && qs[q].entries == n.queues[q].queue
  }

  ghost predicate GatewayIn(n: Network, gs: map<GatewayId, Gateway>, qs: map<QueueId, DownlinkQueue>, g: GatewayId)
    requires g in n.gateways && g in gs
    reads gs[g]
  {
    var ids := n.gateways[g].devices;
    && gs[g].Valid() && gs[g].gatewayId == g && gs[g].handled == |n.gateways[g].downlinks|
    && gs[g].devices.Keys == ids.Keys
    && forall e | e in ids :: ids[e] in qs && gs[g].devices[e] == qs[ids[e]]
  }

  ghost predicate Apart<T>(m: map<nat, T>) {
    forall i, j | i in m && j in m && m[i] == m[j] :: i == j
  }

  /** The gateways and queues hold what the network says; no object has two names. */
  ghost predicate Coupled(n: Network, gs: map<GatewayId, Gateway>, qs: map<QueueId, DownlinkQueue>)
    reads gs.Values, qs.Values
  {
    && n.gateways.Keys == gs.Keys && n.queues.Keys == qs.Keys && Apart(gs) && Apart(qs)
    && (forall q | q in qs :: QueueIn(n, qs, q))
    && (forall g | g in gs :: GatewayIn(n, gs, qs, g))
  }

  /** A gateway's map covers exactly the queues that the network says it covers. */
  lemma CoveredIff(n: Network, gs: map<GatewayId, Gateway>, qs: map<QueueId, DownlinkQueue>, g: GatewayId, q: QueueId)
    requires Coupled(n, gs, qs) && g in gs && q in qs
    ensures qs[q] in gs[g].devices.Values <==> Covers(n.gateways[g], n.queues, q)
    ensures Covers(n.gateways[g], n.queues, q) ==> qs[q].devEui in gs[g].devices && gs[g].devices[qs[q].devEui] == qs[q]
  {
    assert GatewayIn(n, gs, qs, g) && QueueIn(n, qs, q);
    if qs[q] in gs[g].devices.Values {
      var e :| e in gs[g].devices && gs[g].devices[e] == qs[q];
      assert n.gateways[g].devices[e] == q;
    }
  }

  /** What a queue holds after gateway g forwarded the frame. */
  function QueueAfter(n: Network, g: GatewayId, frame: DownlinkFrame, q: QueueId): seq<Entry>
    requires g in n.gateways && q in n.queues
  {
    var e := Entry(g, |n.gateways[g].downlinks|, frame);
    if Covers(n.gateways[g], n.queues, q) then Offer(n.queues[q].queue, e) else n.queues[q].queue
  }

  lemma DownlinkMeans(n: Network, g: GatewayId, frame: DownlinkFrame)
    requires g in n.gateways
    ensures var t := Step(n, Downlink(g, frame));
            && t.gateways.Keys == n.gateways.Keys && t.queues.Keys == n.queues.Keys
            && (forall q | q in t.queues ::
                  t.queues[q].queue == QueueAfter(n, g, frame, q) && t.queues[q].devEui == n.queues[q].devEui)
            && (forall h | h in t.gateways :: t.gateways[h].devices == n.gateways[h].devices)
            && (forall h | h in t.gateways ::
                  |t.gateways[h].downlinks| == |n.gateways[h].downlinks| + if h == g then 1 else 0)
  {
  }

  /** The gateway handles the frame, seen from the queues. */
  method Forward(gateway: Gateway, frame: DownlinkFrame, ghost g: GatewayId,
                 ghost n: Network, ghost gs: map<GatewayId, Gateway>, ghost qs: map<QueueId, DownlinkQueue>)
    returns (ack: seq<AckStatus>)
    requires Coupled(n, gs, qs) && g in gs && gs[g] == gateway
    modifies gateway, gateway.devices.Values
    ensures gateway.Valid() && gateway.handled == old(gateway.handled) + 1 && gateway.devices == old(gateway.devices)
    ensures forall q | q in qs :: qs[q].Valid() && qs[q].entries == QueueAfter(n, g, frame, q)
  {
    forall q | q in qs
      ensures qs[q] in gateway.devices.Values <==> Covers(n.gateways[g], n.queues, q)
      ensures Covers(n.gateways[g], n.queues, q) ==> qs[q].devEui in gateway.devices && gateway.devices[qs[q].devEui] == qs[q]
      ensures QueueIn(n, qs, q)
    {
      CoveredIff(n, gs, qs, g, q);
    }
    assert GatewayIn(n, gs, qs, g);
    ack := gateway.HandleDownlink(frame);
    forall q | q in qs ensures qs[q].Valid() && qs[q].entries == QueueAfter(n, g, frame, q) {
      assert old(QueueIn(n, qs, q));
    }
  }

  method HandleDownlink(gateway: Gateway, frame: DownlinkFrame, ghost g: GatewayId,
                        ghost n: Network, ghost gs: map<GatewayId, Gateway>, ghost qs: map<QueueId, DownlinkQueue>)
    returns (ack: seq<AckStatus>)
    requires Coupled(n, gs, qs) && g in gs && gs[g] == gateway
    modifies gateway, gateway.devices.Values
    ensures Coupled(Step(n, Downlink(g, frame)), gs, qs)
  {
    ack := Forward(gateway, frame, g, n, gs, qs);
    ghost var t := Step(n, Downlink(g, frame));
    DownlinkMeans(n, g, frame);
    forall q | q in qs ensures QueueIn(t, qs, q) {}
    forall h | h in gs ensures GatewayIn(t, gs, qs, h) {
      assert old(GatewayIn(n, gs, qs, h));
    }
  }

  method AddToCoverage(gateway: Gateway, queue: DownlinkQueue, ghost g: GatewayId, ghost q: QueueId,
                       ghost n: Network, ghost gs: map<GatewayId, Gateway>, ghost qs: map<QueueId, DownlinkQueue>)
    requires Coupled(n, gs, qs) && g in gs && gs[g] == gateway && q in qs && qs[q] == queue
    modifies gateway
    ensures Coupled(Step(n, AddDevice(g, q)), gs, qs)
  {
    ghost var t := Step(n, AddDevice(g, q));
    gateway.AddDevice(queue);
    forall h | h in gs ensures GatewayIn(t, gs, qs, h) {
      assert old(GatewayIn(n, gs, qs, h));
      assert old(QueueIn(n, qs, q));
    }
    forall r | r in qs ensures QueueIn(t, qs, r) {
      assert old(QueueIn(n, qs, r));
    }
  }

  method Receive(queue: DownlinkQueue, ghost q: QueueId,
                 ghost n: Network, ghost gs: map<GatewayId, Gateway>, ghost qs: map<QueueId, DownlinkQueue>)
    returns (frame: DownlinkFrame)
    requires Coupled(n, gs, qs) && q in qs && qs[q] == queue && queue.entries != []
    modifies queue
    ensures Coupled(Step(n, Take(q)), gs, qs)
    ensures frame == n.queues[q].queue[0].frame
  {
    ghost var t := Step(n, Take(q));
    assert QueueIn(n, qs, q);
    frame := queue.Receive();
    forall r | r in qs ensures QueueIn(t, qs, r) {
      assert old(QueueIn(n, qs, r));
    }
    forall h | h in gs ensures GatewayIn(t, gs, qs, h) {
      assert old(GatewayIn(n, gs, qs, h));
    }
  }
}
