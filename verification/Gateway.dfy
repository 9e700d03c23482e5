/**
 Gateways: each downlink is offered to the bounded queue of every covered device, and answered with an ACK or a
 NACK for each of its items. A network of gateways and device queues is also given as a machine of steps.
 */
module Gateways {
  import opened Prelude
  import opened Arithmetic

  type GatewayId = nat
  type DevEui = nat

  const QUEUE_SIZE := 100

  datatype DownlinkFrame = DownlinkFrame(downlinkId: nat, items: seq<seq<byte>>)

  datatype AckStatus = OK | COLLISION_PACKET

  /** A frame in a queue, with the gateway it came through and its place among that gateway's downlinks. */
  datatype Entry = Entry(gateway: GatewayId, index: nat, frame: DownlinkFrame)

  /** A channel send with a default branch: taken only while there is room. */
  function Offer(queue: seq<Entry>, e: Entry): (r: seq<Entry>)
    ensures |queue| <= QUEUE_SIZE ==> |r| <= QUEUE_SIZE
  {
    if |queue| < QUEUE_SIZE then queue + [e] else queue
  }

  // ----- the objects -----

  function FramesOf(entries: seq<Entry>): (r: seq<DownlinkFrame>)
    ensures |r| == |entries|
    ensures forall i | 0 <= i < |r| :: r[i] == entries[i].frame
  {
    seq(|entries|, i requires 0 <= i < |entries| => entries[i].frame)
  }

  /** The downlinkFrames channel of one device; `entries` remembers where each queued frame came from. */
  class DownlinkQueue {
    const devEui: DevEui
    var items: seq<DownlinkFrame>
    ghost var entries: seq<Entry>

    ghost predicate Valid()
      reads this
    {
      items == FramesOf(entries)
    }

    constructor (devEui: DevEui)
      ensures Valid() && this.devEui == devEui && entries == []
    {
      this.devEui, items, entries := devEui, [], [];
    }

    /** The send of a select with a default branch. */
    method TrySend(frame: DownlinkFrame, ghost e: Entry)
      requires Valid() && e.frame == frame
      modifies this
      ensures Valid() && entries == Offer(old(entries), e)
    {
      if |items| < QUEUE_SIZE {
        items, entries := items + [frame], entries + [e];
      }
    }

    /** The device's downlink loop takes the oldest frame. */
    method Receive() returns (frame: DownlinkFrame)
      requires Valid() && entries != []
      modifies this
      ensures Valid() && frame == old(entries)[0].frame && entries == old(entries)[1..]
    {
      frame, items, entries := items[0], items[1..], entries[1..];
    }
  }

  class Gateway {
    const gatewayId: GatewayId
    const nackRate: int
    var devices: map<DevEui, DownlinkQueue>
    var downlinkTxCounter: int
    var downlinkCount: u32
    ghost var handled: nat
    ghost var nacked: nat

    /** Each key maps to the queue of the device with that EUI, so no queue is covered twice. */
    ghost predicate Covered()
      reads this
    {
      forall e | e in devices :: devices[e].devEui == e
    }

    ghost predicate Valid()
      reads this
    {
      && Covered()
      && downlinkTxCounter == (if nackRate >= 1 then handled % nackRate else handled)
      && nacked == (if nackRate >= 1 then handled / nackRate else 0)
      && downlinkCount == handled % TWO32
    }

    constructor (gatewayId: GatewayId, nackRate: int)
      ensures Valid() && this.gatewayId == gatewayId && this.nackRate == nackRate && devices == map[] && handled == 0
    {
      this.gatewayId, this.nackRate := gatewayId, nackRate;
      devices, downlinkTxCounter, downlinkCount := map[], 0, 0;
      handled, nacked := 0, 0;
    }

    /** A later device with the same EUI takes the place of an earlier one. */
    method AddDevice(q: DownlinkQueue)
      requires Valid()
      modifies this`devices
      ensures Valid() && devices == old(devices)[q.devEui := q]
    {
      devices := devices[q.devEui := q];
    }

    /** Counts a downlink; the status is what its items are answered with. */
    method CountDownlink() returns (status: AckStatus)
      requires Valid()
      modifies this`downlinkTxCounter, this`downlinkCount, this`handled, this`nacked
      ensures Valid() && handled == old(handled) + 1
      ensures status == if nackRate >= 1 && handled % nackRate == 0 then COLLISION_PACKET else OK
      ensures nacked == if status == OK then old(nacked) else old(nacked) + 1
    {
      downlinkCount := (downlinkCount + 1) % TWO32;
      downlinkTxCounter := downlinkTxCounter + 1;
      status := OK;
      if downlinkTxCounter == nackRate {
        downlinkTxCounter := 0;
        status := COLLISION_PACKET;
      }
      if nackRate >= 1 {
        NextMultiple(handled, nackRate);
      }
      handled, nacked := handled + 1, if status == OK then nacked else nacked + 1;
    }

    /**
     Forwards a downlink to every covered queue and answers it. The n-th downlink handled is NACKed exactly when the
     NACK rate is at least one and divides n; the answer has one item for each item of the downlink.
     */
    method HandleDownlink(frame: DownlinkFrame) returns (ack: seq<AckStatus>)
      requires Valid() && forall e | e in devices :: devices[e].Valid()
      modifies this`downlinkTxCounter, this`downlinkCount, this`handled, this`nacked, devices.Values
      ensures Valid() && handled == old(handled) + 1
      ensures forall e | e in devices ::
                devices[e].Valid() && devices[e].entries == Offer(old(devices[e].entries), Entry(gatewayId, old(handled), frame))
      ensures |ack| == |frame.items|
      ensures forall i | 0 <= i < |ack| ::
                ack[i] == if nackRate >= 1 && handled % nackRate == 0 then COLLISION_PACKET else OK
    {
      ghost var entry := Entry(gatewayId, handled, frame);
      FanOut(frame, entry);
      var status := CountDownlink();
      ack := AckItems(|frame.items|, status);
    }

    /** Every item of a downlink gets the same status. */
    method AckItems(count: nat, status: AckStatus) returns (ack: seq<AckStatus>)
      ensures |ack| == count && forall i | 0 <= i < count :: ack[i] == status
    {
      ack := [];
      for i := 0 to count
        invariant |ack| == i && forall k | 0 <= k < i :: ack[k] == status
      {
        ack := ack + [status];
      }
    }

    /** The order in which the map is walked does not matter: every covered queue is offered the frame once. */
    method FanOut(frame: DownlinkFrame, ghost entry: Entry)
      requires Covered() && entry.frame == frame && forall e | e in devices :: devices[e].Valid()
      modifies devices.Values
      ensures forall e | e in devices ::
                devices[e].Valid() && devices[e].entries == Offer(old(devices[e].entries), entry)
    {
      var rest := devices.Keys;
      while rest != {}
        invariant rest <= devices.Keys
        invariant forall e | e in devices :: devices[e].Valid()
        invariant forall e | e in devices && e in rest :: devices[e].entries == old(devices[e].entries)
        invariant forall e | e in devices && e !in rest :: devices[e].entries == Offer(old(devices[e].entries), entry)
        decreases rest
      {
        var e :| e in rest;
        devices[e].TrySend(frame, entry);
        rest := rest - {e};
      }
    }
  }
}
