/** What a device makes of the downlink frames in its queue: one item of each, and no new counter after a join. */
module DeviceDownlinks {
  import opened Prelude
  import opened SessionKeys
  import opened DeviceModel
  import FrameCounter

  /** The machine's events for one frame. */
  function FrameEvents(items: seq<Item>): seq<Event> {
    if items == [] || items[0].Skipped? then []
    else
      match items[0]
      case Accept(msg, decryptOk) => [ReceiveAccept(msg, decryptOk)]
      case Data(fCnt, micOk) => [ReceiveData(fCnt, micOk)]
  }

  /** Handling a frame is at most one event of the machine, so the theorems over event lists speak of frames too. */
  lemma FrameIsARun(c: Config, s: State, items: seq<Item>)
    ensures OnFrame(c, s, items) == Exec(c, s, FrameEvents(items))
  {
    if FrameEvents(items) != [] {
      ExecOne(c, s, [], FrameEvents(items)[0]);
      assert [] + [FrameEvents(items)[0]] == FrameEvents(items);
    }
  }

  /** Handling every item of the frame. */
  function OnAll(c: Config, s: State, items: seq<Item>): State {
    if items == [] then s else OnItem(c, OnAll(c, s, items[..|items| - 1]), items[|items| - 1])
  }

  /** The item would be accepted: a join-accept valid for the present nonce, or data with a valid MIC. */
  predicate Acceptable(c: Config, s: State, item: Item) {
    match item
    case Accept(msg, decryptOk) => decryptOk && c.joinMic(msg, s.devNonce)
    case Data(_, micOk) => micOk
    case Skipped => false
  }

  function Heard(s: State): nat {
    |s.seen.accepts| + |s.seen.received|
  }

  lemma ItemIsHeard(c: Config, s: State, item: Item)
    ensures var t := OnItem(c, s, item);
            t.devNonce == s.devNonce && if Acceptable(c, s, item) then Heard(t) == Heard(s) + 1 else t == s
  {
  }

  /** From a frame's first item on: no more was heard exactly when no later item was acceptable. */
  lemma {:induction false} AllHeard(c: Config, s: State, items: seq<Item>)
    requires items != []
    ensures var t := OnAll(c, s, items);
            && t.devNonce == s.devNonce && Heard(t) >= Heard(OnFrame(c, s, items))
            && (if exists k :: 1 <= k < |items| && Acceptable(c, s, items[k]) then Heard(t) > Heard(OnFrame(c, s, items))
                else t == OnFrame(c, s, items))
  {
    var front, last := items[..|items| - 1], items[|items| - 1];
    if front == [] {
      ItemIsHeard(c, s, last);
    } else {
      AllHeard(c, s, front);
      ItemIsHeard(c, OnAll(c, s, front), last);
      assert front[0] == items[0];
      if k :| 1 <= k < |items| && Acceptable(c, s, items[k]) {
        assert k < |front| ==> Acceptable(c, s, front[k]);
      }
    }
  }

  /** Nothing in a frame is missed exactly when no item after the first is acceptable. */
  lemma OnlyTheFirstIff(c: Config, s: State, items: seq<Item>)
    ensures OnFrame(c, s, items) == OnAll(c, s, items) <==> forall k | 1 <= k < |items| :: !Acceptable(c, s, items[k])
  {
    if items != [] {
      AllHeard(c, s, items);
    }
  }

  /** A valid join-accept behind another item is missed: the device stays where it is. */
  lemma MissedAccept(c: Config, s: State, msg: JoinAccept)
    requires c.joinMic(msg, s.devNonce) && !s.activated
    ensures !OnFrame(c, s, [Skipped, Accept(msg, true)]).activated && OnAll(c, s, [Skipped, Accept(msg, true)]).activated
  {
    var items := [Skipped, Accept(msg, true)];
    assert items[..1] == [Skipped] && items[..1][..0] == [];
    assert OnAll(c, s, items[..1]) == s;
  }

  /**
   A join-accept leaves the downlink counter as it was. After one, the device follows a sender at u exactly when u lies
   fewer than 65536 steps ahead of the old counter, modulo 2^32.
   */
  lemma FollowsAfterJoinIff(c: Config, s: State, msg: JoinAccept, u: nat)
    ensures OnData(OnAccept(c, s, msg, true), u % TWO16, true).fCntDown == u % TWO32 <==> (u - s.fCntDown) % TWO32 < TWO16
  {
    FrameCounter.FollowsIff(s.fCntDown, u);
  }

  /** So a sender that starts again at zero is followed exactly when the counter is zero or among the last 65535 values. */
  lemma RestartFollowedIff(c: Config, s: State, msg: JoinAccept)
    ensures OnData(OnAccept(c, s, msg, true), 0, true).fCntDown == 0 <==> s.fCntDown == 0 || s.fCntDown > TWO32 - TWO16
  {
    FollowsAfterJoinIff(c, s, msg, 0);
  }

  lemma JoinThenData(c: Config, msg: JoinAccept) returns (es: seq<Event>)
    requires !c.randomNonce && c.joinMic(msg, 1)
    ensures var s := Exec(c, Init(c), es);
            && s.seen.accepts == [Accepted(msg, 1)] && s.devNonce == 1 && s.seen.received == [40000] && s.fCntDown == 40000
  {
    es := [];
    ExecOne(c, Init(c), es, Poll);
    es := es + [Poll];
    ExecOne(c, Init(c), es, SendJoin(0, true));
    es := es + [SendJoin(0, true)];
    ExecOne(c, Init(c), es, ReceiveAccept(msg, true));
    es := es + [ReceiveAccept(msg, true)];
    ExecOne(c, Init(c), es, ReceiveData(40000, true));
    es := es + [ReceiveData(40000, true)];
  }

  /** The run: join, data 40000, a second valid join-accept, and the new session's data 0 is taken for 65536. */
  lemma SecondJoinLosesTrack(c: Config, msg: JoinAccept, other: JoinAccept) returns (es: seq<Event>)
    requires !c.randomNonce && c.joinMic(msg, 1) && c.joinMic(other, 1)
    ensures var s := Exec(c, Init(c), es);
            && s.seen.accepts == [Accepted(msg, 1), Accepted(other, 1)] && s.session == Derive(c, other, 1)
            && s.seen.received == [40000, TWO16] && s.fCntDown == TWO16
  {
    es := JoinThenData(c, msg);
    ExecOne(c, Init(c), es, ReceiveAccept(other, true));
    es := es + [ReceiveAccept(other, true)];
    ExecOne(c, Init(c), es, ReceiveData(0, true));
    es := es + [ReceiveData(0, true)];
  }
}
