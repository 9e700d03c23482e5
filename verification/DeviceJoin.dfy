/** Over-the-air activation, over every interleaving of the uplink loop with arriving join-accepts. */
module DeviceJoin {
  import opened Prelude
  import opened SessionKeys
  import opened DeviceModel
  import opened DeviceUplinks

  ghost predicate FromAccept(c: Config, accepts: seq<Accepted>, session: Session) {
    exists i | 0 <= i < |accepts| :: session == Derive(c, accepts[i].msg, accepts[i].devNonce)
  }

  /**
   The session that a join-accept gives, octet by octet: numbers with the low octet first, the JoinEUI reversed, type 2
   for the application key and type 1 for the network key.
   */
  ghost predicate KeysOf(c: Config, session: Session, msg: JoinAccept, nonce: u16) {
    var e, jn, id := c.joinEui, msg.joinNonce, msg.netId;
    var head: seq<byte> := [jn % 256, jn / 256 % 256, jn / 65536];
    var rest: seq<byte> :=
      if msg.optNeg then head + [e[7], e[6], e[5], e[4], e[3], e[2], e[1], e[0], nonce % 256, nonce / 256, 0, 0]
      else head + [id % 256, id / 256 % 256, id / 65536, nonce % 256, nonce / 256, 0, 0, 0, 0, 0, 0, 0];
    && session.appSKey == c.encrypt([2] + rest)
    && session.nwkSKey == c.encrypt([1] + rest)
    && session.devAddr == msg.devAddr
  }

  lemma DerivedKeys(c: Config, msg: JoinAccept, nonce: u16)
    ensures KeysOf(c, Derive(c, msg, nonce), msg, nonce)
  {
    var e, jn, id := c.joinEui, msg.joinNonce, msg.netId;
    var head: seq<byte> := [jn % 256, jn / 256 % 256, jn / 65536];
    if msg.optNeg {
      var rest: seq<byte> := head + [e[7], e[6], e[5], e[4], e[3], e[2], e[1], e[0], nonce % 256, nonce / 256, 0, 0];
      assert KeyBlock(true, 2, id, e, jn, nonce) == [2] + rest;
      assert KeyBlock(true, 1, id, e, jn, nonce) == [1] + rest;
    } else {
      var rest: seq<byte> := head + [id % 256, id / 256 % 256, id / 65536, nonce % 256, nonce / 256, 0, 0, 0, 0, 0, 0, 0];
      assert KeyBlock(false, 2, id, e, jn, nonce) == [2] + rest;
      assert KeyBlock(false, 1, id, e, jn, nonce) == [1] + rest;
    }
  }

  /**
   A valid join-accept activates the device and sets keys and address, the octets of both keys written out; anything else
   changes nothing. Counters, nonce and the uplink goroutine are not touched.
   */
  lemma AcceptSetsKeys(c: Config, s: State, msg: JoinAccept, decryptOk: bool)
    ensures var t := OnAccept(c, s, msg, decryptOk);
            if decryptOk && c.joinMic(msg, s.devNonce) then
              && t.activated && KeysOf(c, t.session, msg, s.devNonce)
              && t.seen.accepts == s.seen.accepts + [Accepted(msg, s.devNonce)]
              && t.devNonce == s.devNonce && t.fCntUp == s.fCntUp && t.fCntDown == s.fCntDown && t.pc == s.pc
            else t == s
  {
    DerivedKeys(c, msg, s.devNonce);
  }

  ghost predicate JoinInv(c: Config, s: State) {
    && (s.activated <==> s.seen.accepts != [])
    && s.session == (if s.seen.accepts == [] then NO_SESSION
                     else Derive(c, s.seen.accepts[|s.seen.accepts| - 1].msg, s.seen.accepts[|s.seen.accepts| - 1].devNonce))
    && (s.pc != LoopTop && s.pc != Joining && s.pc != Ended ==> s.activated)
    && (s.seen.attempts != [] ==> s.activated)
    && (s.pc.Framed? ==> FromAccept(c, s.seen.accepts, s.pc.frame.session))
    && forall i | 0 <= i < |s.seen.attempts| && s.seen.attempts[i].outcome.Sent? ::
         FromAccept(c, s.seen.accepts, s.seen.attempts[i].outcome.frame.session)
  }

  lemma FromAcceptGrows(c: Config, accepts: seq<Accepted>, a: Accepted, session: Session)
    requires FromAccept(c, accepts, session)
    ensures FromAccept(c, accepts + [a], session)
  {
    var i :| 0 <= i < |accepts| && session == Derive(c, accepts[i].msg, accepts[i].devNonce);
    assert (accepts + [a])[i] == accepts[i];
  }

  lemma AcceptStep(c: Config, s: State, msg: JoinAccept, decryptOk: bool)
    requires JoinInv(c, s)
    ensures JoinInv(c, OnAccept(c, s, msg, decryptOk))
  {
    var t := OnAccept(c, s, msg, decryptOk);
    if t.seen.accepts != s.seen.accepts {
      var a := Accepted(msg, s.devNonce);
      forall i | 0 <= i < |s.seen.attempts| && s.seen.attempts[i].outcome.Sent?
        ensures FromAccept(c, t.seen.accepts, s.seen.attempts[i].outcome.frame.session)
      {
        FromAcceptGrows(c, s.seen.accepts, a, s.seen.attempts[i].outcome.frame.session);
      }
      if s.pc.Framed? {
        FromAcceptGrows(c, s.seen.accepts, a, s.pc.frame.session);
      }
    }
  }

  lemma JoinStep(c: Config, s: State, e: Event)
    requires JoinInv(c, s)
    ensures JoinInv(c, Step(c, s, e))
  {
    if Enabled(c, s, e) {
      match e
      case ReceiveAccept(msg, decryptOk) => AcceptStep(c, s, msg, decryptOk);
      case BuildFrame(cryptoOk) =>
        var last := |s.seen.accepts| - 1;
        assert s.session == Derive(c, s.seen.accepts[last].msg, s.seen.accepts[last].devNonce);
      case _ =>
    }
  }

  lemma {:induction false} JoinExec(c: Config, es: seq<Event>)
    ensures JoinInv(c, Exec(c, Init(c), es))
  {
    if es != [] {
      JoinExec(c, es[..|es| - 1]);
      JoinStep(c, Exec(c, Init(c), es[..|es| - 1]), es[|es| - 1]);
    }
  }

  lemma {:induction false} FramesAreAttempts(attempts: seq<Attempt>, f: Frame)
    requires f in Frames(attempts)
    ensures exists i :: 0 <= i < |attempts| && attempts[i].outcome == Sent(f)
  {
    var last := |attempts| - 1;
    if attempts[last].outcome != Sent(f) {
      FramesAreAttempts(attempts[..last], f);
      var i :| 0 <= i < last && attempts[..last][i].outcome == Sent(f);
      assert attempts[i].outcome == Sent(f);
    }
  }

  /**
   Before the first valid join-accept nothing is transmitted but join-requests; every data frame carries keys and
   address derived from a valid join-accept and the nonce it answered; the current ones come from the last.
   */
  lemma DataOnlyAfterJoin(c: Config, es: seq<Event>)
    ensures var s := Exec(c, Init(c), es);
            && (s.seen.accepts == [] ==> s.seen.attempts == [] && !s.activated && s.session == NO_SESSION)
            && (s.seen.accepts != [] ==>
                  var last := s.seen.accepts[|s.seen.accepts| - 1];
                  s.activated && s.session == Derive(c, last.msg, last.devNonce) && KeysOf(c, s.session, last.msg, last.devNonce))
            && forall f :: f in Frames(s.seen.attempts) ==> FromAccept(c, s.seen.accepts, f.session)
  {
    JoinExec(c, es);
    var s := Exec(c, Init(c), es);
    if s.seen.accepts != [] {
      DerivedKeys(c, s.seen.accepts[|s.seen.accepts| - 1].msg, s.seen.accepts[|s.seen.accepts| - 1].devNonce);
    }
    forall f | f in Frames(s.seen.attempts) ensures FromAccept(c, s.seen.accepts, f.session) {
      FramesAreAttempts(s.seen.attempts, f);
    }
  }

  /** Every data frame carries the keys and the address that one of the valid join-accepts spells. */
  lemma FramesCarryKeys(c: Config, es: seq<Event>, f: Frame)
    requires f in Frames(Exec(c, Init(c), es).seen.attempts)
    ensures var accepts := Exec(c, Init(c), es).seen.accepts;
            exists i | 0 <= i < |accepts| :: KeysOf(c, f.session, accepts[i].msg, accepts[i].devNonce)
  {
    DataOnlyAfterJoin(c, es);
    var accepts := Exec(c, Init(c), es).seen.accepts;
    var i :| 0 <= i < |accepts| && f.session == Derive(c, accepts[i].msg, accepts[i].devNonce);
    DerivedKeys(c, accepts[i].msg, accepts[i].devNonce);
  }

  /** No frame ever uses the same octets as application and as network key. */
  lemma FrameKeysDiffer(c: Config, es: seq<Event>, f: Frame)
    requires Injective(c.encrypt)
    requires f in Frames(Exec(c, Init(c), es).seen.attempts)
    ensures f.session.appSKey != f.session.nwkSKey
  {
    DataOnlyAfterJoin(c, es);
    var accepts := Exec(c, Init(c), es).seen.accepts;
    var i :| 0 <= i < |accepts| && f.session == Derive(c, accepts[i].msg, accepts[i].devNonce);
    AppAndNwkKeysDiffer(c.encrypt, c.joinEui, accepts[i].msg, accepts[i].devNonce, accepts[i].msg, accepts[i].devNonce);
  }

  /**
   Activation is never undone. From then on the nonce is frozen, except that one join-request already begun when
   the join-accept came in may still draw a nonce.
   */
  lemma {:induction false} ActivatedForGood(c: Config, s: State, es: seq<Event>)
    requires s.activated
    ensures var t := Exec(c, s, es);
            && t.activated
            && s.seen.requests <= t.seen.requests
            && (t.pc == Joining ==> s.pc == Joining && t.seen.requests == s.seen.requests)
            && |t.seen.requests| <= |s.seen.requests| + (if s.pc == Joining then 1 else 0)
            && (t.seen.requests == s.seen.requests ==> t.devNonce == s.devNonce)
  {
    if es != [] {
      ActivatedForGood(c, s, es[..|es| - 1]);
      ActivatedStep(c, Exec(c, s, es[..|es| - 1]), es[|es| - 1]);
    }
  }

  lemma ActivatedStep(c: Config, s: State, e: Event)
    requires s.activated
    ensures var t := Step(c, s, e);
            && t.activated
            && (t.seen.requests == s.seen.requests
                || (s.pc == Joining && t.pc != Joining && |t.seen.requests| == |s.seen.requests| + 1))
            && s.seen.requests <= t.seen.requests
            && (t.pc == Joining ==> s.pc == Joining)
            && (t.seen.requests == s.seen.requests ==> t.devNonce == s.devNonce)
  {
  }

  /** No request is under way, and the session is the one derived from `msg` and the nonce. */
  ghost predicate Settled(c: Config, s: State, msg: JoinAccept) {
    s.activated && s.pc != Joining && s.session == Derive(c, msg, s.devNonce)
  }

  /** The list brings no join-accept but copies of `msg` (one comes through each gateway). */
  ghost predicate OnlyCopies(es: seq<Event>, msg: JoinAccept) {
    forall i | 0 <= i < |es| && es[i].ReceiveAccept? :: es[i].msg == msg
  }

  /** At nonce n the message is invalid, or brings the session that is there already. */
  predicate Harmless(c: Config, session: Session, msg: JoinAccept, n: u16) {
    c.joinMic(msg, n) ==> Derive(c, msg, n) == session
  }

  /** Copies are harmless at the present nonce and at each nonce that a request under way can draw. */
  ghost predicate HarmlessFrom(c: Config, s: State, msg: JoinAccept) {
    && Harmless(c, s.session, msg, s.devNonce)
    && (s.pc == Joining ==> forall random: u16 :: Harmless(c, s.session, msg, NextNonce(c, s, random)))
  }

  lemma HarmlessStep(c: Config, s: State, msg: JoinAccept, e: Event)
    requires s.activated && HarmlessFrom(c, s, msg) && (e.ReceiveAccept? ==> e.msg == msg)
    ensures var t := Step(c, s, e);
            && t.activated && t.session == s.session && HarmlessFrom(c, t, msg)
            && (s.pc != Joining ==> t.pc != Joining && t.devNonce == s.devNonce)
  {
    if e.SendJoin? && s.pc == Joining {
      assert Harmless(c, s.session, msg, NextNonce(c, s, e.random));
    } else {
      forall random: u16 | s.pc == Joining ensures NextNonce(c, Step(c, s, e), random) == NextNonce(c, s, random) {}
    }
  }

  lemma {:induction false} HarmlessRun(c: Config, s: State, msg: JoinAccept, es: seq<Event>)
    requires s.activated && HarmlessFrom(c, s, msg) && OnlyCopies(es, msg)
    ensures var t := Exec(c, s, es);
            && t.activated && t.session == s.session && HarmlessFrom(c, t, msg)
            && (s.pc != Joining ==> t.pc != Joining && t.devNonce == s.devNonce)
  {
    if es != [] {
      HarmlessRun(c, s, msg, es[..|es| - 1]);
      HarmlessStep(c, Exec(c, s, es[..|es| - 1]), msg, es[|es| - 1]);
    }
  }

  /** Copies are harmless to a settled device, whatever else the two goroutines do in between. */
  lemma SettledForGood(c: Config, s: State, msg: JoinAccept, es: seq<Event>)
    requires Settled(c, s, msg) && OnlyCopies(es, msg)
    ensures var t := Exec(c, s, es);
            Settled(c, t, msg) && t.session == s.session && t.devNonce == s.devNonce && t.seen.requests == s.seen.requests
  {
    HarmlessRun(c, s, msg, es);
    ActivatedForGood(c, s, es);
  }

  lemma ExecShort(c: Config, s: State, e: Event, f: Event)
    ensures Exec(c, s, [e]) == Step(c, s, e)
    ensures Exec(c, s, [e, f]) == Step(c, Step(c, s, e), f)
  {
    assert [e, f][..1] == [e] && [e][..0] == [];
  }

  /** From activation on the nonce is frozen exactly when no request is under way. */
  lemma NonceFrozenIff(c: Config, s: State)
    requires s.activated
    ensures (forall es :: Exec(c, s, es).devNonce == s.devNonce) <==> s.pc != Joining
  {
    if s.pc == Joining {
      var e := SendJoin((s.devNonce + 1) % TWO16, true);
      ExecShort(c, s, e, e);
      assert Exec(c, s, [e]).devNonce != s.devNonce;
    } else {
      forall es ensures Exec(c, s, es).devNonce == s.devNonce {
        ActivatedForGood(c, s, es);
      }
    }
  }

  /**
   Copies of a message leave the session of an activated device as it is, in every interleaving, exactly when at the
   present nonce, and at each nonce that a request under way can draw, the message is invalid or brings that session.
   */
  lemma CopiesAreHarmlessIff(c: Config, s: State, msg: JoinAccept)
    requires s.activated
    ensures (forall es | OnlyCopies(es, msg) :: Exec(c, s, es).session == s.session) <==> HarmlessFrom(c, s, msg)
  {
    if HarmlessFrom(c, s, msg) {
      forall es | OnlyCopies(es, msg) ensures Exec(c, s, es).session == s.session {
        HarmlessRun(c, s, msg, es);
      }
    } else {
      var f := ReceiveAccept(msg, true);
      if !Harmless(c, s.session, msg, s.devNonce) {
        ExecShort(c, s, f, f);
        assert OnlyCopies([f], msg) && Exec(c, s, [f]).session != s.session;
      } else {
        var random: u16 :| !Harmless(c, s.session, msg, NextNonce(c, s, random));
        var e := SendJoin(random, true);
        ExecShort(c, s, e, f);
        assert OnlyCopies([e, f], msg) && Exec(c, s, [e, f]).session != s.session;
      }
    }
  }

  /** With an injective cipher: for keys that come from the message and the present nonce, every other nonce must make it invalid. */
  lemma HarmlessIffInvalid(c: Config, s: State, msg: JoinAccept)
    requires Injective(c.encrypt) && s.session == Derive(c, msg, s.devNonce)
    ensures HarmlessFrom(c, s, msg)
       <==> (s.pc == Joining ==>
               forall random: u16 :: NextNonce(c, s, random) == s.devNonce || !c.joinMic(msg, NextNonce(c, s, random)))
  {
    forall random: u16
      ensures Harmless(c, s.session, msg, NextNonce(c, s, random))
         <==> NextNonce(c, s, random) == s.devNonce || !c.joinMic(msg, NextNonce(c, s, random))
    {
      KeysFollowNonce(c.encrypt, c.joinEui, msg, s.devNonce, NextNonce(c, s, random));
    }
  }

  /** The run that moves the nonce: request 1 is answered while request 2 is under way. */
  lemma AnsweredWhileJoining(c: Config, msg: JoinAccept) returns (es: seq<Event>)
    requires !c.randomNonce && c.joinMic(msg, 1)
    ensures OnlyCopies(es, msg)
    ensures var s := Exec(c, Init(c), es);
            s.activated && s.pc == Joining && s.devNonce == 1 && s.session == Derive(c, msg, 1)
            && s.seen.accepts == [Accepted(msg, 1)]
  {
    es := [Poll];
    ExecOne(c, Init(c), [], Poll);
    assert [] + [Poll] == es;
    ExecOne(c, Init(c), es, SendJoin(0, true));
    es := es + [SendJoin(0, true)];
    ExecOne(c, Init(c), es, Poll);
    es := es + [Poll];
    ExecOne(c, Init(c), es, ReceiveAccept(msg, true));
    es := es + [ReceiveAccept(msg, true)];
  }

  /** When the message is valid for the next nonce too, the same run goes on to change the keys of an activated device. */
  lemma InFlightRequestMovesKeys(c: Config, msg: JoinAccept) returns (es: seq<Event>)
    requires !c.randomNonce && Injective(c.encrypt) && c.joinMic(msg, 1) && c.joinMic(msg, 2)
    ensures OnlyCopies(es, msg)
    ensures var s := Exec(c, Init(c), es);
            s.session == Derive(c, msg, 2) && s.session != Derive(c, msg, 1) && s.seen.accepts == [Accepted(msg, 1), Accepted(msg, 2)]
  {
    es := AnsweredWhileJoining(c, msg);
    ExecOne(c, Init(c), es, SendJoin(0, true));
    es := es + [SendJoin(0, true)];
    ExecOne(c, Init(c), es, ReceiveAccept(msg, true));
    es := es + [ReceiveAccept(msg, true)];
    KeysFollowNonce(c.encrypt, c.joinEui, msg, 1, 2);
  }

  // ----- nonces in counter mode -----

  ghost predicate Counting(s: State) {
    && s.devNonce == |s.seen.requests| % TWO16
    && forall i | 0 <= i < |s.seen.requests| :: s.seen.requests[i].devNonce == (i + 1) % TWO16
  }

  lemma CountingStep(c: Config, s: State, e: Event)
    requires !c.randomNonce && Counting(s)
    ensures Counting(Step(c, s, e))
  {
  }

  lemma {:induction false} CounterRequests(c: Config, es: seq<Event>)
    requires !c.randomNonce
    ensures Counting(Exec(c, Init(c), es))
  {
    if es != [] {
      CounterRequests(c, es[..|es| - 1]);
      CountingStep(c, Exec(c, Init(c), es[..|es| - 1]), es[|es| - 1]);
    }
  }

  lemma NumbersDiffer(i: nat, j: nat)
    requires i < j && j - i < TWO16
    ensures (i + 1) % TWO16 != (j + 1) % TWO16
  {
    var d, r := j - i, (i + 1) % TWO16;
    assert (j + 1) % TWO16 == (r + d) % TWO16;
    assert 0 < d < TWO16 && 0 <= r < TWO16;
  }

  /** In counter mode any 65536 consecutive requests use different nonces, and so lead to different keys. */
  lemma NoncesDiffer(c: Config, es: seq<Event>, i: nat, j: nat, msg: JoinAccept)
    requires !c.randomNonce && Injective(c.encrypt)
    requires i < j < |Exec(c, Init(c), es).seen.requests| && j - i < TWO16
    ensures var r := Exec(c, Init(c), es).seen.requests;
            var one, two := Derive(c, msg, r[i].devNonce), Derive(c, msg, r[j].devNonce);
            r[i].devNonce != r[j].devNonce && one.appSKey != two.appSKey && one.nwkSKey != two.nwkSKey
  {
    CounterRequests(c, es);
    NumbersDiffer(i, j);
    var r := Exec(c, Init(c), es).seen.requests;
    KeysFollowNonce(c.encrypt, c.joinEui, msg, r[i].devNonce, r[j].devNonce);
  }
}
