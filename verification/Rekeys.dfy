/** One rekey between two nodes with a running session, from the timer to the new session. */
module Rekeys {
  import opened Results
  import opened Words
  import opened Crypto
  import opened Noise
  import opened Patterns
  import opened Handshakes
  import opened Sessions
  import opened Simultaneous
  import Replay

  /** Message 3 without a payload, from an initiator in step with its responder to two mirrored sessions. */
  lemma {:induction false} BareMsg3Agrees(c: Suite, i: Party, r: Party)
    requires Lawful(c) && Stage(c, i, r, Initiator, Message2Done, After2) && i.sym.cipher.nonce <= 20
    ensures var (i3, msg3) := Write(c, i, XxMsg3, []);
      && msg3.Ok? && |msg3.value| == XX3_SIZE && IntoSession(c, i3).Ok?
      && var end := FinishResponse(c, r, msg3.value);
      && end.Some? && Halves(IntoSession(c, i3).value, end.value) && end.value.role.Responder?
      && Some(IntoSession(c, i3).value.remoteStatic) == i.rs && end.value.remoteStatic == c.pub(i.s)
      && IntoSession(c, i3).value.replay == end.value.replay == Replay.FRESH
      && IntoSession(c, i3).value.recv.hasKey && end.value.recv.hasKey
  {
    Third();
    MessageAgrees(c, i, r, XxMsg3, [], After2);
    DeliverParts(c, i, r, XxMsg3, []);
    var (i3, r3) := Deliver(c, i, r, XxMsg3, []).value;
    FinishedAgree(c, i3.(remoteEpoch := r3.localEpoch), r3.(remoteEpoch := i3.localEpoch));
  }

  /** The two sessions an honest rekey between `a` and `b` ends in. */
  ghost predicate Fresh(c: Suite, a: Node, b: Node, sA: Session, sB: Session) {
    && Halves(sA, sB) && sA.role.Initiator?
    && sA.remoteStatic == c.pub(b.secret) && sB.remoteStatic == c.pub(a.secret)
    && sA.replay == sB.replay == Replay.FRESH && sA.recv.hasKey && sB.recv.hasKey
  }

  /** The rekey handshake in the pieces the handlers compute. */
  lemma {:induction false} RekeyAgrees(c: Suite, a: Node, b: Node, eA: Bytes, eB: Bytes)
    requires Lawful(c) && a.name == b.name
    ensures var (hs, msg1) := Dial(c, a, eA);
      && msg1.Ok? && |msg1.value| == XX1_SIZE
      && var answer := Answer(c, b, msg1.value, eB);
      && answer.Some? && |answer.value.1| == XX2_SIZE
      && var done := CompleteRekey(c, hs, answer.value.1);
      && done.Some? && |done.value.0| == XX3_SIZE
      && var end := FinishResponse(c, answer.value.0, done.value.0);
      && end.Some? && Fresh(c, a, b, done.value.1, end.value)
  {
    AnswerAgrees(c, a, b, eA, eB);
    var (hs, msg1) := Dial(c, a, eA);
    var (r2, msg2) := Answer(c, b, msg1.value, eB).value;
    BareMsg3Agrees(c, Read(c, hs, XxMsg2, msg2).0, r2);
  }

  /** When a setup for a running session is answered: we do not insist on a rekey of our own, and no rekey
      completed within the idle timeout waits for its cutover. */
  predicate Answers(n: Node, src: Addr, e: Entry, now: nat) {
    if e.rekey.Some? then src <= n.addr
    else e.pending.Some? ==> e.completedMs != 0 && now >= e.completedMs + n.idleTimeoutMs
  }

  /** A setup for a running session arms the responder's side of a rekey exactly then; it never touches the
      running or the pending session. */
  lemma {:induction false} SetupAnsweredIff(c: Suite, n: Node, src: Addr, e: Entry, msg1: Bytes, env: Env)
    requires e.state.Established?
    ensures var o := HandleSetup(c, n, src, Some(e), msg1, env);
      var answer := Answer(c, n, msg1, env.eph);
      var willing := |msg1| == XX1_SIZE && env.rateOk && Answers(n, src, e, env.now);
      && (o.out.Some? <==> willing && answer.Some? && env.sendOk)
      && (o.out.Some? ==> o == Outcome(Some(e.(rekey := Some(answer.value.0), rekeyInitiator := false)),
                                       Some(Ack(answer.value.1))))
      && (o.out.None? ==> o.entry == Some(if willing then e.(rekey := None) else e))
  {
    assert e.rekey.None? ==> e.(rekey := None) == e;
  }

  /** Our own rekey starts exactly when a session runs, no rekey is under way and none waits for its cutover. */
  lemma {:induction false} ArmedIff(c: Suite, n: Node, e: Entry, env: Env)
    ensures var o := ArmRekey(c, n, Some(e), env);
      && (o.out.Some? <==> e.state.Established? && e.rekey.None? && e.pending.None? && env.sendOk)
      && (o.out.None? ==> o.entry == Some(e))
      && (o.out.Some? ==> o == Outcome(Some(e.(rekey := Some(Dial(c, n, env.eph).0), rekeyInitiator := true)),
                                       Some(Setup(c.pub(env.eph)))))
  {
    assert c.pub(env.eph) + [] == c.pub(env.eph);
  }

  /** The ack of our own rekey: completed, the session waits and message 3 is kept for retransmission;
      otherwise the rekey is given up. The running session stays either way. */
  lemma {:induction false} RekeyAckIff(c: Suite, n: Node, src: Addr, e: Entry, payload: Bytes, env: Env)
    requires e.state.Established? && e.rekey.Some? && e.rekeyInitiator && |payload| >= XX2_SIZE
    ensures var o := HandleAck(c, n, src, Some(e), payload, env);
      var done := CompleteRekey(c, e.rekey.value, payload);
      && (o.out.Some? <==> done.Some? && env.sendOk)
      && (o.out.Some? ==>
            o == Outcome(Some(e.(rekey := None, pending := Some(done.value.1), completedMs := env.now,
                                 rekeyMsg3 := Some(done.value.0))), Some(Msg3(done.value.0))))
      && (o.out.None? ==> o.entry == Some(e.(rekey := None, pending := None, rekeyMsg3 := None)))
  {
  }

  /** Message 3 of a rekey we answered: a session with the peer's key waits, anything else only drops the
      handshake. */
  lemma {:induction false} RekeyMsg3Iff(c: Suite, n: Node, src: Addr, e: Entry, payload: Bytes, env: Env)
    requires e.state.Established? && e.rekey.Some? && !e.rekeyInitiator && |payload| >= XX3_SIZE
    ensures var done := FinishResponse(c, e.rekey.value, payload);
      HandleMsg3(c, n, src, Some(e), payload, env) == Outcome(Some(
        if done.Some? && XOnly(done.value.remoteStatic) == XOnly(e.remoteKey)
        then e.(rekey := None, pending := done, completedMs := env.now) else e.(rekey := None)), None)
  {
  }

  /** A running session ignores an ack it armed no rekey for, a message 3 it answered no setup for, and either of
      them if it is too short. */
  lemma {:induction false} Ignored(c: Suite, n: Node, src: Addr, e: Entry, payload: Bytes, env: Env)
    requires e.state.Established?
    ensures |payload| < 106 || e.rekey.None? || !e.rekeyInitiator ==>
      HandleAck(c, n, src, Some(e), payload, env) == Outcome(Some(e), None)
    ensures |payload| < 73 || e.rekey.None? || e.rekeyInitiator ==>
      HandleMsg3(c, n, src, Some(e), payload, env) == Outcome(Some(e), None)
  {
  }

  // ----- the exchange -----

  /** The four steps of a rekey: what each handler leaves and sends. */
  datatype Exchange = Exchange(armed: Outcome, answered: Outcome, acked: Outcome, done: Outcome)

  function Payload(o: Outcome): Bytes {
    if o.out.Some? then o.out.value.payload else []
  }

  function Rekey(c: Suite, a: Node, b: Node, ea: Entry, eb: Entry, envs: (Env, Env, Env, Env)): Exchange {
    var armed := ArmRekey(c, a, Some(ea), envs.0);
    var answered := HandleSetup(c, b, a.addr, Some(eb), Payload(armed), envs.1);
    var acked := HandleAck(c, a, b.addr, armed.entry, Payload(answered), envs.2);
    Exchange(armed, answered, acked, HandleMsg3(c, b, a.addr, answered.entry, Payload(acked), envs.3))
  }

  /** `a` may start a rekey, `b` will answer it, and both know who they talk to. */
  ghost predicate Ready(c: Suite, a: Node, b: Node, ea: Entry, eb: Entry, envs: (Env, Env, Env, Env)) {
    && Lawful(c) && a.name == b.name && ea.state.Established? && eb.state.Established?
    && ea.rekey.None? && ea.pending.None? && Answers(b, a.addr, eb, envs.1.now)
    && XOnly(eb.remoteKey) == XOnly(c.pub(a.secret))
    && envs.0.sendOk && envs.1.rateOk && envs.1.sendOk && envs.2.sendOk
  }

  /** The entries after an honest rekey: each holds its half pending, and nothing else of them has changed. */
  ghost predicate Rekeyed(c: Suite, a: Node, b: Node, ea: Entry, eb: Entry, x: Exchange, at: (nat, nat)) {
    && x.acked.entry.Some? && x.done.entry.Some? && x.acked.out.Some? && x.acked.out.value.Msg3?
    && var (na, nb) := (x.acked.entry.value, x.done.entry.value);
    && na.pending.Some? && nb.pending.Some? && Fresh(c, a, b, na.pending.value, nb.pending.value)
    && na == ea.(rekeyInitiator := true, pending := na.pending, completedMs := at.0,
                 rekeyMsg3 := Some(x.acked.out.value.payload))
    && nb == eb.(rekey := None, rekeyInitiator := false, pending := nb.pending, completedMs := at.1)
  }

  /** Setup, ack and message 3 between two running sessions leave both ends with a pending session; the two
      are the halves of one handshake and each names the other's static key. */
  lemma {:induction false} HonestRekey(c: Suite, a: Node, b: Node, ea: Entry, eb: Entry, envs: (Env, Env, Env, Env))
    requires Ready(c, a, b, ea, eb, envs)
    ensures Rekeyed(c, a, b, ea, eb, Rekey(c, a, b, ea, eb, envs), (envs.2.now, envs.3.now))
  {
    RekeyAgrees(c, a, b, envs.0.eph, envs.1.eph);
    var (hs, msg1) := Dial(c, a, envs.0.eph);
    var (r2, msg2) := Answer(c, b, msg1.value, envs.1.eph).value;
    var (msg3, sA) := CompleteRekey(c, hs, msg2).value;
    var sB := FinishResponse(c, r2, msg3).value;
    FirstHalf(c, a, b, ea, eb, envs);
    var x := Rekey(c, a, b, ea, eb, envs);
    RekeyAckIff(c, a, b.addr, x.armed.entry.value, msg2, envs.2);
    RekeyMsg3Iff(c, b, a.addr, x.answered.entry.value, msg3, envs.3);
    assert x.acked.out == Some(Msg3(msg3)) && x.acked.entry.value.pending == Some(sA);
    assert x.done.entry.value.pending == Some(sB);
  }

  lemma {:induction false} FirstHalf(c: Suite, a: Node, b: Node, ea: Entry, eb: Entry, envs: (Env, Env, Env, Env))
    requires Ready(c, a, b, ea, eb, envs)
    ensures var (hs, msg1) := Dial(c, a, envs.0.eph);
      && msg1.Ok?
      && var answer := Answer(c, b, msg1.value, envs.1.eph);
      && answer.Some?
      && var x := Rekey(c, a, b, ea, eb, envs);
      && x.armed.entry == Some(ea.(rekey := Some(hs), rekeyInitiator := true))
      && Payload(x.armed) == msg1.value && Payload(x.answered) == answer.value.1
      && x.answered.entry == Some(eb.(rekey := Some(answer.value.0), rekeyInitiator := false))
  {
    var (hs, msg1) := Dial(c, a, envs.0.eph);
    RekeyAgrees(c, a, b, envs.0.eph, envs.1.eph);
    ArmedIff(c, a, ea, envs.0);
    assert msg1.value == c.pub(envs.0.eph) by { assert c.pub(envs.0.eph) + [] == c.pub(envs.0.eph); }
    SetupAnsweredIff(c, b, a.addr, eb, msg1.value, envs.1);
  }

  // ----- the cutover -----

  /** What `s` sends under counter `counter`, marked with the K-bit `kBit`. */
  function SealedFrame(c: Suite, s: Session, kBit: bool, counter: u64, header: Bytes, plain: Bytes): Frame {
    Frame(kBit, counter, header, c.seal(s.send.key, counter, header, plain))
  }

  /** The entry once its pending session has taken `f`: it runs that session, drains the old one, has flipped
      its K-bit and no longer keeps a message 3 to resend. */
  ghost predicate CutOverBy(e: Entry, e2: Entry, s: Session, f: Frame, now: nat) {
    && e.state.Established? && e2.state.Established? && SameKeys(e2.state.session, s)
    && !e2.state.session.replay.Check(f.counter)
    && e2 == e.(state := e2.state, previous := Some(e.state.session), drainStartedMs := Some(now), pending := None,
                kBit := !e.kBit, rekeyMsg3 := None)
  }

  /** A frame of the other half of the pending session, with the K-bit flipped, cuts this end over. */
  lemma {:induction false} FrameCutsOver(c: Suite, e: Entry, s: Session, peer: Session, counter: u64, header: Bytes,
                                         plain: Bytes, now: nat)
    requires Lawful(c) && e.state.Established? && e.pending == Some(s) && s.recv.hasKey && s.replay == Replay.FRESH
    requires peer.send == s.recv && counter < U64_MAX
    ensures var f := SealedFrame(c, peer, !e.kBit, counter, header, plain);
      var after := HandleData(c, Some(e), f, now);
      after.Some? && CutOverBy(e, after.value, s, f, now)
  {
    var f := SealedFrame(c, peer, !e.kBit, counter, header, plain);
    assert Accepts(c, s, f);
    Replay.ClosedStaysClosed(s.replay, counter, counter);
  }

  /** After an honest rekey one frame each way moves both ends to the new sessions: they are halves of one
      handshake, the old sessions drain, and the K-bits, equal before, are equal again. */
  lemma {:induction false} RekeyCutsOver(c: Suite, a: Node, b: Node, ea: Entry, eb: Entry, x: Exchange, at: (nat, nat),
                                         f: Frame, plain: Bytes, g: Frame, plain2: Bytes, now: nat)
    requires Lawful(c) && Rekeyed(c, a, b, ea, eb, x, at) && ea.state.Established? && eb.state.Established?
    requires ea.kBit == eb.kBit && f.counter < U64_MAX && g.counter < U64_MAX
    requires f == SealedFrame(c, x.acked.entry.value.pending.value, !ea.kBit, f.counter, f.header, plain)
    requires g == SealedFrame(c, x.done.entry.value.pending.value, !eb.kBit, g.counter, g.header, plain2)
    ensures var (a2, b2) := (HandleData(c, x.acked.entry, g, now), HandleData(c, x.done.entry, f, now));
      && a2.Some? && b2.Some? && a2.value.state.Established? && b2.value.state.Established?
      && Halves(a2.value.state.session, b2.value.state.session)
      && a2.value.previous == Some(ea.state.session) && b2.value.previous == Some(eb.state.session)
      && a2.value.pending.None? && b2.value.pending.None? && a2.value.kBit == b2.value.kBit == !ea.kBit
  {
    var (na, nb) := (x.acked.entry.value, x.done.entry.value);
    var (sA, sB) := (na.pending.value, nb.pending.value);
    FrameCutsOver(c, na, sA, sB, g.counter, g.header, plain2, now);
    FrameCutsOver(c, nb, sB, sA, f.counter, f.header, plain, now);
  }

  /** Two ends that start a rekey at the same moment: the one with the smaller address ignores the other's
      setup, the other answers and drops its own, and the rekey completes. */
  lemma {:induction false} RekeyRace(c: Suite, a: Node, b: Node, ea: Entry, eb: Entry, own: Env, cross: Env,
                                     envs: (Env, Env, Env, Env))
    requires Ready(c, a, b, ea, eb, envs) && a.addr < b.addr && eb.rekey.None? && eb.pending.None? && own.sendOk
    ensures var armedB := ArmRekey(c, b, Some(eb), own);
      && armedB.entry.Some? && armedB.entry.value.rekey.Some? && armedB.out.Some? && armedB.out.value.Setup?
      && var x := Rekey(c, a, b, ea, armedB.entry.value, envs);
      && HandleSetup(c, a, b.addr, x.armed.entry, armedB.out.value.payload, cross) == Outcome(x.armed.entry, None)
      && Rekeyed(c, a, b, ea, armedB.entry.value, x, (envs.2.now, envs.3.now))
  {
    ArmedIff(c, b, eb, own);
    var armedB := ArmRekey(c, b, Some(eb), own);
    HonestRekey(c, a, b, ea, armedB.entry.value, envs);
    ArmedIff(c, a, ea, envs.0);
    var x := Rekey(c, a, b, ea, armedB.entry.value, envs);
    SetupAnsweredIff(c, a, b.addr, x.armed.entry.value, armedB.out.value.payload, cross);
  }
}
