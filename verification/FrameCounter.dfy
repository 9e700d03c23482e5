/** Rebuilding the 32-bit downlink counter from its low sixteen bits (LoRaWAN 1.0.3 section 4.3.1.5). */
module FrameCounter {
  import opened Prelude
  import opened DeviceModel

  /**
   Whatever the device's counter and wherever the sender is: the rebuilt value is the sender's counter modulo 2^32 exactly
   when that lies fewer than 65536 steps ahead of the device's, modulo 2^32.
   */
  lemma FollowsIff(old32: u32, u: nat)
    ensures NextFCntDown(old32, u % TWO16) == u % TWO32 <==> (u - old32) % TWO32 < TWO16
  {
    var d, gap := (u - old32) % TWO32, (u % TWO16 - old32 % TWO16) % TWO16;
    GapIs(u, old32);
    AheadBy(u, old32);
    if d >= TWO16 {
      ShiftDiffers(old32, gap, d);
    }
  }

  /** The sixteen-bit gap is the distance modulo 65536. */
  lemma GapIs(u: nat, t: nat)
    ensures (u % TWO16 - t % TWO16) % TWO16 == (u - t) % TWO32 % TWO16
  {
    LowBits(u - t);
    assert u - t == TWO16 * (u / TWO16 - t / TWO16) + (u % TWO16 - t % TWO16);
    SameLow(u - t, u % TWO16 - t % TWO16, u / TWO16 - t / TWO16);
  }

  lemma SameLow(x: int, y: int, q: int)
    requires x == TWO16 * q + y
    ensures x % TWO16 == y % TWO16
  {
  }

  lemma LowBits(x: int)
    ensures x % TWO32 % TWO16 == x % TWO16
  {
    assert x == TWO32 * (x / TWO32) + x % TWO32;
    SameLow(x, x % TWO32, TWO16 * (x / TWO32));
  }

  /** Adding the distance gets there. */
  lemma AheadBy(u: nat, t: nat)
    ensures u % TWO32 == (t + (u - t) % TWO32) % TWO32
  {
    assert u == t + (u - t) % TWO32 + TWO32 * ((u - t) / TWO32);
  }

  lemma ShiftDiffers(a: u32, g: int, d: int)
    requires 0 <= g < d < TWO32
    ensures (a + g) % TWO32 != (a + d) % TWO32
  {
  }

  /** Short of the 32-bit wrap, the rebuilt counter is the least value not below the old one with those low bits. */
  lemma LeastWithLowBits(old32: u32, wire: u16)
    requires old32 + (wire - old32 % TWO16) % TWO16 < TWO32
    ensures var n := NextFCntDown(old32, wire);
            && old32 <= n && n % TWO16 == wire
            && forall v: nat :: old32 <= v && v % TWO16 == wire ==> n <= v
  {
    var n := NextFCntDown(old32, wire);
    forall v: nat | old32 <= v && v % TWO16 == wire ensures n <= v {
      if v < n {
        assert false;
      }
    }
  }

  /** The wire counters of the downlinks that pass the MIC check. */
  function Wires(es: seq<Event>): seq<u16> {
    if es == [] then []
    else
      var last := es[|es| - 1];
      Wires(es[..|es| - 1]) + if last.ReceiveData? && last.micOk then [last.fCnt] else []
  }

  /** A sender's true counters: the first below 65536, never back, each step short of 65536; repeats and losses allowed. */
  ghost predicate SenderRun(truth: seq<nat>) {
    && (truth != [] ==> truth[0] < TWO16)
    && forall i | 0 <= i < |truth| - 1 :: truth[i] <= truth[i + 1] < truth[i] + TWO16
  }

  ghost predicate CarriesLowBits(wires: seq<u16>, truth: seq<nat>) {
    && |wires| == |truth|
    && forall i | 0 <= i < |truth| :: wires[i] == truth[i] % TWO16
  }

  /** The counter after a list of accepted wire values. */
  function Rebuilt(wires: seq<u16>): u32 {
    if wires == [] then 0 else NextFCntDown(Rebuilt(wires[..|wires| - 1]), wires[|wires| - 1])
  }

  /** The counter after each accepted wire value. */
  function AllRebuilt(wires: seq<u16>): (r: seq<u32>)
    ensures |r| == |wires|
  {
    seq(|wires|, i requires 0 <= i < |wires| => Rebuilt(wires[..i + 1]))
  }

  lemma AllRebuiltAppend(wires: seq<u16>, w: u16)
    ensures AllRebuilt(wires + [w]) == AllRebuilt(wires) + [NextFCntDown(Rebuilt(wires), w)]
  {
    var n := |wires|;
    assert (wires + [w])[..n + 1] == wires + [w] && (wires + [w])[..n] == wires;
    forall i | 0 <= i < n ensures AllRebuilt(wires + [w])[i] == AllRebuilt(wires)[i] {
      assert (wires + [w])[..i + 1] == wires[..i + 1];
    }
  }

  lemma DownlinkStep(c: Config, s: State, e: Event)
    ensures var t := Step(c, s, e);
            if e.ReceiveData? && e.micOk then
              t.fCntDown == NextFCntDown(s.fCntDown, e.fCnt) && t.seen.received == s.seen.received + [t.fCntDown]
            else t.fCntDown == s.fCntDown && t.seen.received == s.seen.received
  {
  }

  lemma {:induction false} ReceivedAreRebuilt(c: Config, es: seq<Event>)
    ensures Exec(c, Init(c), es).fCntDown == Rebuilt(Wires(es))
    ensures Exec(c, Init(c), es).seen.received == AllRebuilt(Wires(es))
  {
    if es != [] {
      var front, e := es[..|es| - 1], es[|es| - 1];
      ReceivedAreRebuilt(c, front);
      DownlinkStep(c, Exec(c, Init(c), front), e);
      if e.ReceiveData? && e.micOk {
        AllRebuiltAppend(Wires(front), e.fCnt);
        assert Wires(es)[..|Wires(front)|] == Wires(front);
      } else {
        assert Wires(es) == Wires(front);
      }
    }
  }

  /** A sender that moves on by fewer than 65536 is followed. */
  lemma SenderStep(t: nat, u: nat)
    requires t <= u < t + TWO16
    ensures NextFCntDown(t % TWO32, u % TWO16) == u % TWO32
  {
    FollowsIff(t % TWO32, u);
    assert u - t % TWO32 == (u - t) + TWO32 * (t / TWO32);
    SmallDistance(u - t, u - t % TWO32, t / TWO32);
  }

  lemma SmallDistance(d: nat, x: int, q: int)
    requires d < TWO16 && x == d + TWO32 * q
    ensures x % TWO32 == d
  {
  }

  lemma {:induction false} RebuiltIsTruth(wires: seq<u16>, truth: seq<nat>)
    requires SenderRun(truth) && CarriesLowBits(wires, truth)
    ensures Rebuilt(wires) == if truth == [] then 0 else truth[|truth| - 1] % TWO32
  {
    if truth != [] {
      var n := |truth| - 1;
      var t := if n == 0 then 0 else truth[n - 1];
      RebuiltIsTruth(wires[..n], truth[..n]);
      assert Rebuilt(wires[..n]) == t % TWO32 && wires[n] == truth[n] % TWO16;
      SenderStep(t, truth[n]);
    }
  }

  lemma AllRebuiltAreTruth(wires: seq<u16>, truth: seq<nat>)
    requires SenderRun(truth) && CarriesLowBits(wires, truth)
    ensures forall i | 0 <= i < |truth| :: AllRebuilt(wires)[i] == truth[i] % TWO32
  {
    forall i | 0 <= i < |truth| ensures Rebuilt(wires[..i + 1]) == truth[i] % TWO32 {
      RebuiltIsTruth(wires[..i + 1], truth[..i + 1]);
    }
  }

  /**
   Over whole runs, with losses, repeats and anything else interleaved, the device's counter after each accepted
   downlink is the sender's true counter modulo 2^32.
   */
  lemma TracksSender(c: Config, es: seq<Event>, truth: seq<nat>)
    requires SenderRun(truth) && CarriesLowBits(Wires(es), truth)
    ensures var s := Exec(c, Init(c), es);
            && |s.seen.received| == |truth|
            && (forall i | 0 <= i < |truth| :: s.seen.received[i] == truth[i] % TWO32)
            && s.fCntDown == if truth == [] then 0 else truth[|truth| - 1] % TWO32
  {
    ReceivedAreRebuilt(c, es);
    RebuiltIsTruth(Wires(es), truth);
    AllRebuiltAreTruth(Wires(es), truth);
  }
}
