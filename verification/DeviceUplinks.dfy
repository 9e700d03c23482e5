/** Uplink accounting: counters, metric, the uplink limit, and the flatline payload, over every run of a device. */
module DeviceUplinks {
  import opened Prelude
  import opened DeviceModel

  /** The attempts that used up a frame counter, oldest first. */
  function Slots(attempts: seq<Attempt>): seq<Outcome> {
    if attempts == [] then []
    else
      var last := attempts[|attempts| - 1].outcome;
      Slots(attempts[..|attempts| - 1]) + if last.CryptoError? then [] else [last]
  }

  function Frames(attempts: seq<Attempt>): seq<Frame> {
    if attempts == [] then []
    else
      var last := attempts[|attempts| - 1].outcome;
      Frames(attempts[..|attempts| - 1]) + if last.Sent? then [last.frame] else []
  }

  function Dropouts(attempts: seq<Attempt>): seq<u32> {
    if attempts == [] then []
    else
      var last := attempts[|attempts| - 1].outcome;
      Dropouts(attempts[..|attempts| - 1]) + if last.Dropped? then [last.fCnt] else []
  }

  /** Plaintext of the last frame, empty when there is none. */
  function LastPlaintext(attempts: seq<Attempt>): seq<byte> {
    var frames := Frames(attempts);
    if frames == [] then [] else frames[|frames| - 1].plaintext
  }

  function CounterOf(o: Outcome): u32
    requires !o.CryptoError?
  {
    match o
    case Sent(frame) => frame.fCnt
    case Dropped(fCnt) => fCnt
  }

  ghost predicate Numbered(slots: seq<Outcome>) {
    forall i | 0 <= i < |slots| :: !slots[i].CryptoError? && CounterOf(slots[i]) == i % TWO32
  }

  /** Every flatline frame sent after a non-empty one repeats the frame before it. */
  ghost predicate FlatlineRepeats(attempts: seq<Attempt>) {
    forall i | 0 <= i < |attempts| && attempts[i].outcome.Sent? && attempts[i].choice.anomaly == Flatline ::
      LastPlaintext(attempts[..i]) != [] ==> attempts[i].outcome.frame.plaintext == LastPlaintext(attempts[..i])
  }

  function CurrentChoice(pc: Pc): Option<Choice> {
    match pc
    case Chosen(ch) => Some(ch)
    case Prepared(ch) => Some(ch)
    case Framed(ch, _) => Some(ch)
    case _ => None
  }

  /** The books kept by fCntUp, the metric and lastPayload agree with the attempts made. */
  ghost predicate Ledger(attempts: seq<Attempt>, fCntUp: u32, metric: nat, lastPayload: seq<byte>) {
    && fCntUp == |Slots(attempts)| % TWO32
    && metric == |Slots(attempts)|
    && Numbered(Slots(attempts))
    && lastPayload == LastPlaintext(attempts)
    && FlatlineRepeats(attempts)
  }

  /** What the uplink goroutine holds in its hands agrees with the shared state. */
  ghost predicate InHand(pc: Pc, fCntUp: u32, payload: seq<byte>, lastPayload: seq<byte>) {
    && (pc.Framed? ==> pc.frame.fCnt == fCntUp && pc.frame.plaintext == payload)
    && (pc.Prepared? || pc.Framed? ==> pc.choice.anomaly == Flatline && lastPayload != [] ==> payload == lastPayload)
  }

  ghost predicate Inv(s: State) {
    Ledger(s.seen.attempts, s.fCntUp, s.seen.metric, s.lastPayload) && InHand(s.pc, s.fCntUp, s.payload, s.lastPayload)
  }

  lemma Append(attempts: seq<Attempt>, a: Attempt)
    ensures Slots(attempts + [a]) == Slots(attempts) + if a.outcome.CryptoError? then [] else [a.outcome]
    ensures Frames(attempts + [a]) == Frames(attempts) + if a.outcome.Sent? then [a.outcome.frame] else []
    ensures Dropouts(attempts + [a]) == Dropouts(attempts) + if a.outcome.Dropped? then [a.outcome.fCnt] else []
  {
    assert (attempts + [a])[..|attempts|] == attempts;
  }

  lemma FlatlineAppend(attempts: seq<Attempt>, a: Attempt)
    requires FlatlineRepeats(attempts)
    requires a.outcome.Sent? && a.choice.anomaly == Flatline && LastPlaintext(attempts) != [] ==>
               a.outcome.frame.plaintext == LastPlaintext(attempts)
    ensures FlatlineRepeats(attempts + [a])
  {
    forall i | 0 <= i <= |attempts| ensures (attempts + [a])[..i] == attempts[..i] {}
    assert attempts[..|attempts|] == attempts;
  }

  lemma LedgerAppend(attempts: seq<Attempt>, fCntUp: u32, metric: nat, lastPayload: seq<byte>, a: Attempt)
    requires Ledger(attempts, fCntUp, metric, lastPayload)
    requires !a.outcome.CryptoError? ==> CounterOf(a.outcome) == fCntUp
    requires a.outcome.Sent? && a.choice.anomaly == Flatline && lastPayload != [] ==>
               a.outcome.frame.plaintext == lastPayload
    ensures if a.outcome.CryptoError? then Ledger(attempts + [a], fCntUp, metric, lastPayload)
            else Ledger(attempts + [a], Next32(fCntUp), metric + 1,
                        if a.outcome.Sent? then a.outcome.frame.plaintext else lastPayload)
  {
    Append(attempts, a);
    FlatlineAppend(attempts, a);
    if !a.outcome.CryptoError? {
      NumberedAppend(Slots(attempts), a.outcome);
    }
  }

  lemma NumberedAppend(slots: seq<Outcome>, o: Outcome)
    requires Numbered(slots) && !o.CryptoError? && CounterOf(o) == |slots| % TWO32
    ensures Numbered(slots + [o]) && |slots + [o]| % TWO32 == Next32(|slots| % TWO32)
  {
  }

  /** The three steps that finish an attempt. */
  lemma AttemptStep(c: Config, s: State, e: Event, o: Outcome)
    requires Inv(s) && Enabled(c, s, e)
    requires match e
             case DropUplink => o == Dropped(s.fCntUp)
             case BuildFrame(cryptoOk) => !cryptoOk && o == CryptoError
             case Commit => o == Sent(s.pc.frame)
             case _ => false
    ensures Inv(Step(c, s, e))
  {
    LedgerAppend(s.seen.attempts, s.fCntUp, s.seen.metric, s.lastPayload, Attempt(s.pc.choice, o));
  }

  lemma InvStep(c: Config, s: State, e: Event)
    requires Inv(s)
    ensures Inv(Step(c, s, e))
  {
    if Enabled(c, s, e) {
      match e
      case DropUplink => AttemptStep(c, s, e, Dropped(s.fCntUp));
      case BuildFrame(false) => AttemptStep(c, s, e, CryptoError);
      case Commit => AttemptStep(c, s, e, Sent(s.pc.frame));
      case _ => KeepsBooks(c, s, e);
    }
  }

  lemma KeepsBooks(c: Config, s: State, e: Event)
    requires e != DropUplink && e != BuildFrame(false) && e != Commit
    requires InHand(s.pc, s.fCntUp, s.payload, s.lastPayload)
    ensures var t := Step(c, s, e);
            && t.seen.attempts == s.seen.attempts && t.fCntUp == s.fCntUp && t.seen.metric == s.seen.metric && t.lastPayload == s.lastPayload
            && InHand(t.pc, t.fCntUp, t.payload, t.lastPayload)
  {
  }

  lemma {:induction false} InvExec(c: Config, es: seq<Event>)
    ensures Inv(Exec(c, Init(c), es))
  {
    if es != [] {
      InvExec(c, es[..|es| - 1]);
      InvStep(c, Exec(c, Init(c), es[..|es| - 1]), es[|es| - 1]);
    }
  }

  lemma {:induction false} SlotsSplit(attempts: seq<Attempt>)
    ensures |Slots(attempts)| == |Frames(attempts)| + |Dropouts(attempts)|
  {
    if attempts != [] {
      SlotsSplit(attempts[..|attempts| - 1]);
    }
  }

  /**
   In every interleaving the uplink counter is, modulo 2^32, the number of frames built plus dropouts, which is
   also what the metric counted; lastPayload is the plaintext of the last frame.
   */
  lemma UplinkAccounting(c: Config, es: seq<Event>)
    ensures var s := Exec(c, Init(c), es);
            && s.seen.metric == |Frames(s.seen.attempts)| + |Dropouts(s.seen.attempts)|
            && s.fCntUp == s.seen.metric % TWO32
            && s.lastPayload == LastPlaintext(s.seen.attempts)
  {
    InvExec(c, es);
    SlotsSplit(Exec(c, Init(c), es).seen.attempts);
  }

  /** While a flatline holds, every frame repeats the frame before it, whatever is in the payload buffer. */
  lemma FlatlineHolds(c: Config, es: seq<Event>)
    ensures FlatlineRepeats(Exec(c, Init(c), es).seen.attempts)
  {
    InvExec(c, es);
  }

  // ----- counters on the air -----

  ghost predicate Increasing(s: seq<u32>) {
    forall i, j | 0 <= i < j < |s| :: s[i] < s[j]
  }

  function Counters(frames: seq<Frame>): (r: seq<u32>)
    ensures |r| == |frames|
    ensures forall i | 0 <= i < |r| :: r[i] == frames[i].fCnt
  {
    seq(|frames|, i requires 0 <= i < |frames| => frames[i].fCnt)
  }

  /** Frames and dropouts share out the counters: both increase, they never meet, together they leave no gap. */
  ghost predicate SharesOut(attempts: seq<Attempt>) {
    Shared(Counters(Frames(attempts)), Dropouts(attempts), |Slots(attempts)|)
  }

  ghost predicate Shared(one: seq<u32>, other: seq<u32>, n: nat) {
    && Increasing(one)
    && Increasing(other)
    && (forall v: u32 :: v in one ==> v < n && v !in other)
    && (forall v: u32 :: v in other ==> v < n)
    && (forall v: u32 :: v < n ==> v in one || v in other)
  }

  lemma IncreasingAppend(s: seq<u32>, n: u32)
    requires Increasing(s) && forall v :: v in s ==> v < n
    ensures Increasing(s + [n])
  {
    forall i | 0 <= i < |s| ensures s[i] < n {
      assert s[i] in s;
    }
  }

  lemma SharedWithNext(one: seq<u32>, other: seq<u32>, n: u32)
    requires Shared(one, other, n)
    ensures Shared(one + [n], other, n + 1) && Shared(other, one + [n], n + 1)
  {
    IncreasingAppend(one, n);
  }

  /** One more attempt, whose slot carries the next counter. */
  lemma SharesOutStep(front: seq<Attempt>, a: Attempt)
    requires SharesOut(front) && (a.outcome.CryptoError? || |Slots(front)| < TWO32)
    requires a.outcome.CryptoError? || CounterOf(a.outcome) == |Slots(front)|
    ensures SharesOut(front + [a])
  {
    var all, n := front + [a], |Slots(front)|;
    Append(front, a);
    if a.outcome.Sent? {
      assert Counters(Frames(all)) == Counters(Frames(front)) + [n];
      SharedWithNext(Counters(Frames(front)), Dropouts(front), n);
    } else if a.outcome.Dropped? {
      assert Dropouts(all) == Dropouts(front) + [n];
      assert Counters(Frames(all)) == Counters(Frames(front));
      SharedWithNext(Dropouts(front), Counters(Frames(front)), n);
    } else {
      assert Frames(all) == Frames(front) && Dropouts(all) == Dropouts(front);
    }
  }

  lemma NumberedFront(front: seq<Attempt>, a: Attempt)
    requires Numbered(Slots(front + [a])) && |Slots(front + [a])| <= TWO32
    ensures Numbered(Slots(front))
    ensures a.outcome.CryptoError? || (|Slots(front)| < TWO32 && CounterOf(a.outcome) == |Slots(front)|)
    ensures |Slots(front)| <= TWO32
  {
    var slots, all := Slots(front), Slots(front + [a]);
    Append(front, a);
    forall i | 0 <= i < |slots| ensures slots[i] == all[i] {}
    if !a.outcome.CryptoError? {
      assert all[|slots|] == a.outcome;
    }
  }

  lemma {:induction false} NumberedSharesOut(attempts: seq<Attempt>)
    requires Numbered(Slots(attempts)) && |Slots(attempts)| <= TWO32
    ensures SharesOut(attempts)
  {
    if attempts != [] {
      var front, a := attempts[..|attempts| - 1], attempts[|attempts| - 1];
      assert front + [a] == attempts;
      NumberedFront(front, a);
      NumberedSharesOut(front);
      SharesOutStep(front, a);
    }
  }

  /** Below 2^32 uplinks the emitted counters strictly increase and skip exactly the dropout values. */
  lemma EmittedCounters(c: Config, es: seq<Event>)
    requires Exec(c, Init(c), es).seen.metric <= TWO32
    ensures SharesOut(Exec(c, Init(c), es).seen.attempts)
  {
    InvExec(c, es);
    NumberedSharesOut(Exec(c, Init(c), es).seen.attempts);
  }

  // ----- the uplink limit -----

  ghost predicate NoCancel(es: seq<Event>) {
    forall i | 0 <= i < |es| :: es[i] != Cancel
  }

  ghost predicate LimitInv(c: Config, s: State) {
    var done := |Slots(s.seen.attempts)|;
    && done <= c.uplinkCount
    && (done == c.uplinkCount ==> s.pc == Counting || s.pc == Ended)
    && (s.pc == Ended ==> done == c.uplinkCount)
    && (s.cancelled ==> s.pc == Ended)
  }

  lemma LimitStep(c: Config, s: State, e: Event)
    requires c.uplinkCount > 0 && e != Cancel
    requires Inv(s) && LimitInv(c, s)
    ensures LimitInv(c, Step(c, s, e))
  {
    if Enabled(c, s, e) {
      match e
      case DropUplink => Append(s.seen.attempts, Attempt(s.pc.choice, Dropped(s.fCntUp)));
      case BuildFrame(cryptoOk) => Append(s.seen.attempts, Attempt(s.pc.choice, CryptoError));
      case Commit => Append(s.seen.attempts, Attempt(s.pc.choice, Sent(s.pc.frame)));
      case _ =>
    }
  }

  lemma {:induction false} LimitExec(c: Config, es: seq<Event>)
    requires c.uplinkCount > 0 && NoCancel(es)
    ensures LimitInv(c, Exec(c, Init(c), es))
  {
    if es != [] {
      var front := es[..|es| - 1];
      LimitExec(c, front);
      InvExec(c, front);
      LimitStep(c, Exec(c, Init(c), front), es[|es| - 1]);
    }
  }

  lemma CheckDecides(c: Config, s: State)
    requires c.uplinkCount > 0 && Inv(s) && LimitInv(c, s)
    ensures s.fCntUp == s.seen.metric
    ensures Step(c, s, CheckCount).pc == Ended <==> s.seen.metric == c.uplinkCount
  {
    assert s.seen.metric <= c.uplinkCount;
  }

  /**
   With a limit n > 0 and no cancellation a device never spends more than n counters, and its uplink loop has
   ended exactly when it has spent n and looked at the limit since.
   */
  lemma ExactlyTheLimit(c: Config, es: seq<Event>)
    requires c.uplinkCount > 0 && NoCancel(es)
    ensures var s := Exec(c, Init(c), es);
            && s.seen.metric <= c.uplinkCount
            && s.fCntUp == s.seen.metric
            && (s.pc == Ended <==> s.seen.metric == c.uplinkCount && s.pc != Counting)
    ensures Exec(c, Init(c), es + [CheckCount]).pc == Ended <==> Exec(c, Init(c), es).seen.metric == c.uplinkCount
  {
    LimitExec(c, es);
    InvExec(c, es);
    CheckDecides(c, Exec(c, Init(c), es));
    assert (es + [CheckCount])[..|es|] == es;
  }

  /** The uplink loop leaves no device behind that is not cancelled, so the downlink loop ends as well. */
  lemma {:induction false} EndedIsCancelled(c: Config, es: seq<Event>)
    ensures Exec(c, Init(c), es).pc == Ended ==> Exec(c, Init(c), es).cancelled
  {
    if es != [] {
      EndedIsCancelled(c, es[..|es| - 1]);
    }
  }

  /** Once the uplink loop has ended nothing is sent, whatever else happens. */
  lemma {:induction false} NothingAfterTheEnd(c: Config, s: State, es: seq<Event>)
    requires s.pc == Ended
    ensures var t := Exec(c, s, es);
            t.pc == Ended && t.seen.attempts == s.seen.attempts && t.seen.requests == s.seen.requests && t.fCntUp == s.fCntUp
  {
    if es != [] {
      NothingAfterTheEnd(c, s, es[..|es| - 1]);
    }
  }
}
