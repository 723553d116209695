/** Two nodes that dial each other at the same moment.

    Both start `Initiating`; the network may then deliver any message either has sent, any number of
    times, in any order, or never. */
module Simultaneous {
  import opened Results
  import opened Crypto
  import opened Noise
  import opened Patterns
  import opened Handshakes
  import opened Sessions

  /** The two nodes, their keys as the other one knows them, and their first ephemeral keys. */
  datatype Duel = Duel(c: Suite, a: Node, b: Node, keyA: Bytes, keyB: Bytes, eA: Bytes, eB: Bytes)

  /** `a` has the smaller address; keys and addresses are the right ones. */
  ghost predicate Fair(d: Duel) {
    && Lawful(d.c) && d.a.addr < d.b.addr && d.a.name == d.b.name
    && XOnly(d.keyB) == XOnly(d.c.pub(d.b.secret))
    && d.b.addrOf(XOnly(d.c.pub(d.a.secret))) == d.a.addr
  }

  function Start(c: Suite, n: Node, role: Role): Party {
    NewXx(c, n.name, role, n.secret).(localEpoch := Some(n.epoch))
  }

  // ----- one honest exchange, in the pieces the handlers compute -----

  /** The initiator after message 1, and message 1. */
  function Dial(c: Suite, n: Node, eph: Bytes): (Party, Result<Bytes>) {
    Write(c, Start(c, n, Initiator), XxMsg1, eph)
  }

  lemma DeliverParts(c: Suite, w: Party, r: Party, m: Message, eph: Bytes)
    requires Deliver(c, w, r, m, eph).Ok?
    ensures var (w', msg) := Write(c, w, m, eph);
      && msg.Ok? && |msg.value| == m.size
      && var (r', ok) := Read(c, r, m, msg.value);
      && ok.Ok? && Deliver(c, w, r, m, eph).value == (w', r')
  {
  }

  lemma {:induction false} PayloadParts(c: Suite, w: Party, r: Party, payload: Bytes)
    requires DeliverPayload(c, w, r, Some(payload)).Ok? && Lawful(c) && w.sym == r.sym
    ensures var (w', sealed) := EncryptPayload(c, w, payload);
      && sealed.Ok? && (payload != [] ==> |sealed.value| > 0)
      && var (r', plain) := DecryptPayload(c, r, sealed.value);
      && plain.Ok? && DeliverPayload(c, w, r, Some(payload)).value == (w', r')
  {
    SealedOpens(c, w.sym, payload);
  }

  lemma {:induction false} SplitJoined(base: Bytes, more: Bytes)
    requires |more| > 0
    ensures SplitPayload(base + more, |base|) == (base, Some(more))
  {
    assert (base + more)[..|base|] == base && (base + more)[|base|..] == more;
  }

  /** Message 1 and the answer to it leave the two ends in step. */
  lemma {:induction false} AnswerAgrees(c: Suite, ni: Node, nr: Node, eI: Bytes, eR: Bytes)
    requires Lawful(c) && ni.name == nr.name
    ensures var (i1, msg1) := Dial(c, ni, eI);
      && msg1.Ok? && |msg1.value| == XX1_SIZE
      && var answer := Answer(c, nr, msg1.value, eR);
      && answer.Some? && |answer.value.1| == XX2_SIZE
      && var (i2, ok) := Read(c, i1, XxMsg2, answer.value.1);
      && ok.Ok? && Stage(c, answer.value.0, i2, Responder, Message2Done, Swapped(After2))
      && answer.value.0.sym.cipher.nonce <= 10
      && i2.rs == Some(c.pub(nr.secret)) && i2.s == ni.secret && answer.value.0.s == nr.secret
  {
    var i, r := Start(c, ni, Initiator), Start(c, nr, Responder);
    XxFirst();
    XxSecond();
    MessageAgrees(c, i, r, XxMsg1, eI, NoKeys);
    DeliverParts(c, i, r, XxMsg1, eI);
    var (i1, r1) := Deliver(c, i, r, XxMsg1, eI).value;
    MessageAgrees(c, r1, i1, XxMsg2, eR, XxAfter1);
    DeliverParts(c, r1, i1, XxMsg2, eR);
  }

  /** The whole ack, and the initiator that has accepted it. */
  lemma {:induction false} AckAgrees(c: Suite, ni: Node, nr: Node, eI: Bytes, eR: Bytes, e: Entry)
    requires Lawful(c) && ni.name == nr.name && XOnly(e.remoteKey) == XOnly(c.pub(nr.secret))
    ensures var (i1, msg1) := Dial(c, ni, eI);
      && msg1.Ok?
      && var answer := AnswerWithNegotiation(c, nr, msg1.value, eR);
      && answer.Some? && |answer.value.1| > XX2_SIZE
      && var accepted := AcceptAck(c, e, i1, answer.value.1);
      && accepted.Some? && Stage(c, accepted.value, answer.value.0, Initiator, Message2Done, After2)
      && accepted.value.sym.cipher.nonce <= 20
      && accepted.value.rs == Some(c.pub(nr.secret)) && accepted.value.s == ni.secret && answer.value.0.s == nr.secret
  {
    AnswerAgrees(c, ni, nr, eI, eR);
    var (i1, msg1) := Dial(c, ni, eI);
    var (r2, msg2) := Answer(c, nr, msg1.value, eR).value;
    var i2 := Read(c, i1, XxMsg2, msg2).0;
    PayloadAgrees(c, r2, i2, Some(NEGOTIATION), Responder, Message2Done, Swapped(After2));
    PayloadParts(c, r2, i2, NEGOTIATION);
    SplitJoined(msg2, EncryptPayload(c, r2, NEGOTIATION).1.value);
  }

  /** Message 3, from an accepted ack to two mirrored sessions. */
  lemma {:induction false} Msg3Agrees(c: Suite, i: Party, r: Party)
    requires Lawful(c) && Stage(c, i, r, Initiator, Message2Done, After2) && i.sym.cipher.nonce <= 20
    ensures var done := FinishInitiation(c, i);
      && done.Some? && |done.value.0| > XX3_SIZE
      && var end := FinishResponse(c, r, done.value.0);
      && end.Some? && Halves(done.value.1, end.value)
      && done.value.1.role.Initiator? && end.value.role.Responder?
      && Some(done.value.1.remoteStatic) == i.rs && end.value.remoteStatic == c.pub(i.s)
  {
    Third();
    MessageAgrees(c, i, r, XxMsg3, [], After2);
    DeliverParts(c, i, r, XxMsg3, []);
    var (i3, r3) := Deliver(c, i, r, XxMsg3, []).value;
    var msg3 := Write(c, i, XxMsg3, []).1.value;
    PayloadAgrees(c, i3, r3, Some(NEGOTIATION), Initiator, Complete, AfterTokens(XX3, After2));
    PayloadParts(c, i3, r3, NEGOTIATION);
    SplitJoined(msg3, EncryptPayload(c, i3, NEGOTIATION).1.value);
  }

  // ----- the pair and the network between them -----

  /** Each node's entry for the other, and every message ever sent towards each. */
  datatype Pair = Pair(a: Option<Entry>, b: Option<Entry>, toA: set<Wire>, toB: set<Wire>)

  function Arrive(c: Suite, n: Node, src: Addr, existing: Option<Entry>, w: Wire, env: Env): Outcome {
    match w
    case Setup(payload) => HandleSetup(c, n, src, existing, payload, env)
    case Ack(payload) => HandleAck(c, n, src, existing, payload, env)
    case Msg3(payload) => HandleMsg3(c, n, src, existing, payload, env)
  }

  function Sent(out: Option<Wire>): set<Wire> {
    if out.Some? then {out.value} else {}
  }

  datatype Delivery = ToA(w: Wire, env: Env) | ToB(w: Wire, env: Env)

  /** Deliver a message that has been sent; anything else cannot happen. Losing a message is never
      delivering it. */
  function Deliver1(d: Duel, st: Pair, x: Delivery): Pair {
    if x.ToA? then
      if x.w !in st.toA then st
      else
        var o := Arrive(d.c, d.a, d.b.addr, st.a, x.w, x.env);
        st.(a := o.entry, toB := st.toB + Sent(o.out))
    else
      if x.w !in st.toB then st
      else
        var o := Arrive(d.c, d.b, d.a.addr, st.b, x.w, x.env);
        st.(b := o.entry, toA := st.toA + Sent(o.out))
  }

  function Begin(d: Duel): Pair {
    var env := (eph: Bytes) => Env(eph, true, true, 0);
    var a, b := Initiate(d.c, d.a, None, d.keyB, env(d.eA)), Initiate(d.c, d.b, None, d.keyA, env(d.eB));
    Pair(a.entry, b.entry, Sent(b.out), Sent(a.out))
  }

  function Play(d: Duel, xs: seq<Delivery>): Pair {
    if xs == [] then Begin(d) else Deliver1(d, Play(d, xs[..|xs| - 1]), xs[|xs| - 1])
  }

  // ----- the invariant -----

  /** Everything the run will produce once `b` has answered with the ephemeral key `eR`. */
  datatype Plan = Plan(dialA: Entry, dialB: Entry, msg1A: Bytes, msg1B: Bytes, awaiting: Entry, ack: Bytes,
                       msg3: Bytes, sessionA: Session, sessionB: Session)

  /** The plan is what the handlers compute, and its two sessions are the halves of one handshake. */
  ghost predicate Planned(d: Duel, p: Plan, eR: Bytes) {
    var (hA, msg1A) := Dial(d.c, d.a, d.eA);
    var (hB, msg1B) := Dial(d.c, d.b, d.eB);
    var answer := AnswerWithNegotiation(d.c, d.b, p.msg1A, eR);
    && msg1A == Ok(p.msg1A) && msg1B == Ok(p.msg1B) && |p.msg1A| == |p.msg1B| == XX1_SIZE
    && p.dialA == NewEntry(d.keyB, Initiating(hA), Some(p.msg1A))
    && p.dialB == NewEntry(d.keyA, Initiating(hB), Some(p.msg1B))
    && answer.Some? && answer.value.1 == p.ack && |p.ack| > XX2_SIZE
    && p.awaiting == NewEntry(d.c.pub(d.b.secret), AwaitingMsg3(answer.value.0), Some(p.ack))
    && AcceptAck(d.c, p.dialA, hA, p.ack).Some?
    && FinishInitiation(d.c, AcceptAck(d.c, p.dialA, hA, p.ack).value) == Some((p.msg3, p.sessionA))
    && |p.msg3| > XX3_SIZE
    && FinishResponse(d.c, answer.value.0, p.msg3) == Some(p.sessionB)
    && d.b.addrOf(XOnly(p.sessionB.remoteStatic)) == d.a.addr
    && Halves(p.sessionA, p.sessionB) && p.sessionA.role.Initiator? && p.sessionB.role.Responder?
    && p.sessionA.remoteStatic == d.c.pub(d.b.secret) && p.sessionB.remoteStatic == d.c.pub(d.a.secret)
  }

  lemma {:induction false} MakePlan(d: Duel, eR: Bytes) returns (p: Plan)
    requires Fair(d)
    ensures Planned(d, p, eR)
  {
    var (hA, msg1A) := Dial(d.c, d.a, d.eA);
    var (hB, msg1B) := Dial(d.c, d.b, d.eB);
    AnswerAgrees(d.c, d.b, d.a, d.eB, eR);
    AnswerAgrees(d.c, d.a, d.b, d.eA, eR);
    var dialA := NewEntry(d.keyB, Initiating(hA), Some(msg1A.value));
    AckAgrees(d.c, d.a, d.b, d.eA, eR, dialA);
    var (hB1, ack) := AnswerWithNegotiation(d.c, d.b, msg1A.value, eR).value;
    var accepted := AcceptAck(d.c, dialA, hA, ack).value;
    Msg3Agrees(d.c, accepted, hB1);
    var (msg3, sessionA) := FinishInitiation(d.c, accepted).value;
    p := Plan(dialA, NewEntry(d.keyA, Initiating(hB), Some(msg1B.value)), msg1A.value, msg1B.value,
              NewEntry(d.c.pub(d.b.secret), AwaitingMsg3(hB1), Some(ack)), ack, msg3, sessionA,
              FinishResponse(d.c, hB1, msg3).value);
  }

  /** An established entry that runs session `s` and has not started a rekey of its own. */
  predicate Running(e: Option<Entry>, s: Session) {
    e.Some? && e.value.state == Established(s) && !e.value.rekeyInitiator
  }

  /** Before `b` answers: both dialling, nothing but the two setups in flight. */
  ghost predicate BothDialling(st: Pair, p: Plan) {
    st == Pair(Some(p.dialA), Some(p.dialB), {Setup(p.msg1B)}, {Setup(p.msg1A)})
  }

  /** After `b` has answered. */
  ghost predicate Answered(st: Pair, p: Plan) {
    && (st.a == Some(p.dialA) || (Running(st.a, p.sessionA)))
    && (st.b == Some(p.awaiting) || (Running(st.b, p.sessionB) && Running(st.a, p.sessionA)))
    && Ack(p.ack) in st.toA && (Running(st.a, p.sessionA) ==> Msg3(p.msg3) in st.toB)
    && (forall w | w in st.toA ::
          match w
          case Setup(m) => m == p.msg1B
          case Ack(m) => m == p.ack || Running(st.a, p.sessionA)
          case Msg3(_) => false)
    && (forall w | w in st.toB ::
          match w
          case Setup(m) => m == p.msg1A
          case Ack(_) => Running(st.a, p.sessionA)
          case Msg3(m) => m == p.msg3 && Running(st.a, p.sessionA))
  }

  /** A running session without a rekey of its own ignores acks and keeps running through setups and message 3. */
  lemma KeepsRunning(c: Suite, n: Node, src: Addr, e: Option<Entry>, w: Wire, env: Env, s: Session)
    requires Running(e, s)
    ensures var o := Arrive(c, n, src, e, w, env);
      && Running(o.entry, s) && (o.out.Some? ==> o.out.value.Ack? && w.Setup?)
  {
  }

  lemma DiallingDropsSetup(d: Duel, p: Plan, m: Bytes, env: Env)
    requires d.a.addr < d.b.addr && p.dialA.state.Initiating?
    ensures HandleSetup(d.c, d.a, d.b.addr, Some(p.dialA), m, env) == Outcome(Some(p.dialA), None)
  {
  }

  lemma DiallingTakesAck(d: Duel, p: Plan, eR: Bytes, env: Env)
    requires Planned(d, p, eR) && env.sendOk
    ensures var o := HandleAck(d.c, d.a, d.b.addr, Some(p.dialA), p.ack, env);
      && Running(o.entry, p.sessionA) && o.out == Some(Msg3(p.msg3))
      && o.entry == Some(p.dialA.(state := Established(p.sessionA), handshakePayload := None))
  {
  }

  lemma AwaitingResends(d: Duel, p: Plan, eR: Bytes, m: Bytes, env: Env)
    requires Planned(d, p, eR)
    ensures var o := HandleSetup(d.c, d.b, d.a.addr, Some(p.awaiting), m, env);
      && o.entry == Some(p.awaiting)
      && o.out == (if |m| == XX1_SIZE && env.rateOk && env.sendOk then Some(Ack(p.ack)) else None)
    ensures HandleAck(d.c, d.b, d.a.addr, Some(p.awaiting), m, env) == Outcome(Some(p.awaiting), None)
  {
  }

  lemma AwaitingTakesMsg3(d: Duel, p: Plan, eR: Bytes, env: Env)
    requires Planned(d, p, eR)
    ensures var o := HandleMsg3(d.c, d.b, d.a.addr, Some(p.awaiting), p.msg3, env);
      && Running(o.entry, p.sessionB) && o.out == None
      && o.entry == Some(Entry(d.c.pub(d.a.secret), Established(p.sessionB), None, false, None, None, None, 0, None,
                               false, None))
  {
  }

  lemma DiallingGivesWay(d: Duel, p: Plan, env: Env)
    requires d.a.addr < d.b.addr && Planned(d, p, env.eph)
    ensures HandleSetup(d.c, d.b, d.a.addr, Some(p.dialB), p.msg1A, env)
         == if env.rateOk && env.sendOk then Outcome(Some(p.awaiting), Some(Ack(p.ack)))
            else Outcome(Some(p.dialB), None)
  {
  }

  lemma {:induction false} ArriveAtA(d: Duel, st: Pair, p: Plan, eR: Bytes, w: Wire, env: Env)
    requires d.a.addr < d.b.addr && Planned(d, p, eR) && Answered(st, p) && w in st.toA
    requires Running(st.a, p.sessionA) || w.Setup? || env.sendOk
    ensures Answered(Deliver1(d, st, ToA(w, env)), p)
  {
    var o := Arrive(d.c, d.a, d.b.addr, st.a, w, env);
    if Running(st.a, p.sessionA) {
      KeepsRunning(d.c, d.a, d.b.addr, st.a, w, env, p.sessionA);
    } else if w.Setup? {
      DiallingDropsSetup(d, p, w.payload, env);
    } else {
      DiallingTakesAck(d, p, eR, env);
    }
    NowAtA(st, p, w, o);
  }

  lemma NowAtA(st: Pair, p: Plan, w: Wire, o: Outcome)
    requires Answered(st, p) && w in st.toA
    requires (o.entry == st.a && o.out == None)
          || (Running(o.entry, p.sessionA) && Running(st.a, p.sessionA) && (o.out.Some? ==> o.out.value.Ack?))
          || (Running(o.entry, p.sessionA) && o.out == Some(Msg3(p.msg3)))
    ensures Answered(st.(a := o.entry, toB := st.toB + Sent(o.out)), p)
  {
  }

  /** What arrives at `b` once it has answered. */
  lemma {:induction false} OutcomeAtB(d: Duel, p: Plan, eR: Bytes, b: Option<Entry>, w: Wire, env: Env)
    requires Planned(d, p, eR) && (b == Some(p.awaiting) || Running(b, p.sessionB)) && (w.Msg3? ==> w.payload == p.msg3)
    ensures var o := Arrive(d.c, d.b, d.a.addr, b, w, env);
      || (o.entry == b && (o.out == None || o.out == Some(Ack(p.ack))))
      || (Running(o.entry, p.sessionB) && (Running(b, p.sessionB) || w.Msg3?) && (o.out.Some? ==> o.out.value.Ack?))
  {
    if Running(b, p.sessionB) {
      KeepsRunning(d.c, d.b, d.a.addr, b, w, env, p.sessionB);
    } else if w.Msg3? {
      AwaitingTakesMsg3(d, p, eR, env);
    } else {
      AwaitingResends(d, p, eR, w.payload, env);
    }
  }

  lemma {:induction false} ArriveAtB(d: Duel, st: Pair, p: Plan, eR: Bytes, w: Wire, env: Env)
    requires Planned(d, p, eR) && Answered(st, p) && w in st.toB
    ensures Answered(Deliver1(d, st, ToB(w, env)), p)
  {
    OutcomeAtB(d, p, eR, st.b, w, env);
    NowAtB(st, p, w, Arrive(d.c, d.b, d.a.addr, st.b, w, env));
  }

  lemma NowAtB(st: Pair, p: Plan, w: Wire, o: Outcome)
    requires Answered(st, p) && w in st.toB
    requires (o.entry == st.b && (o.out == None || o.out == Some(Ack(p.ack))))
          || (Running(o.entry, p.sessionB) && Running(st.a, p.sessionA) && (o.out.Some? ==> o.out.value.Ack?))
    ensures Answered(st.(b := o.entry, toA := st.toA + Sent(o.out)), p)
  {
  }

  lemma {:induction false} FirstAtA(d: Duel, st: Pair, p: Plan, x: Delivery)
    requires d.a.addr < d.b.addr && p.dialA.state.Initiating? && BothDialling(st, p) && x.ToA?
    ensures Deliver1(d, st, x) == st
  {
    if x.w in st.toA {
      assert x.w == Setup(p.msg1B);
      DiallingDropsSetup(d, p, p.msg1B, x.env);
    }
  }

  lemma {:induction false} FirstAtB(d: Duel, st: Pair, p: Plan, x: Delivery)
    requires d.a.addr < d.b.addr && Planned(d, p, x.env.eph) && BothDialling(st, p) && x.ToB?
    ensures BothDialling(Deliver1(d, st, x), p) || Answered(Deliver1(d, st, x), p)
  {
    if x.w in st.toB {
      assert x.w == Setup(p.msg1A);
      DiallingGivesWay(d, p, x.env);
      NowAnswered(st, p);
    }
  }

  lemma NowAnswered(st: Pair, p: Plan)
    requires BothDialling(st, p) && p.dialA.state.Initiating?
    ensures Answered(st.(b := Some(p.awaiting), toA := st.toA + Sent(Some(Ack(p.ack)))), p)
  {
  }

  /** While both dial, `a` drops the other's setup and `b` gives way to `a`'s. */
  lemma {:induction false} FirstAnswer(d: Duel, st: Pair, p: Plan, eR: Bytes, x: Delivery) returns (p2: Plan,
                                       eR2: Bytes)
    requires Fair(d) && Planned(d, p, eR) && BothDialling(st, p)
    ensures Planned(d, p2, eR2) && (BothDialling(Deliver1(d, st, x), p2) || Answered(Deliver1(d, st, x), p2))
  {
    if x.ToA? {
      p2, eR2 := p, eR;
      FirstAtA(d, st, p, x);
    } else {
      eR2 := x.env.eph;
      p2 := MakePlan(d, eR2);
      SamePlanStart(d, p, eR, p2, eR2);
      FirstAtB(d, st, p2, x);
    }
  }

  lemma SamePlanStart(d: Duel, p: Plan, eR: Bytes, q: Plan, eR2: Bytes)
    requires Planned(d, p, eR) && Planned(d, q, eR2)
    ensures p.dialA == q.dialA && p.dialB == q.dialB && p.msg1A == q.msg1A && p.msg1B == q.msg1B
  {
  }

  /** An ack reaches `a` while it still dials, and the message 3 that answers it cannot be sent. */
  ghost predicate Unsent(st: Pair, x: Delivery) {
    && x.ToA? && x.w.Ack? && x.w in st.toA && !x.env.sendOk
    && st.a.Some? && st.a.value.state.Initiating?
  }

  lemma {:induction false} SentWhileDialling(d: Duel, st: Pair, p: Plan, eR: Bytes, x: Delivery)
    requires Planned(d, p, eR) && Answered(st, p) && !Unsent(st, x) && x.ToA? && x.w in st.toA
    ensures Running(st.a, p.sessionA) || x.w.Setup? || x.env.sendOk
  {
  }

  lemma {:induction false} AnsweredStep(d: Duel, st: Pair, p: Plan, eR: Bytes, x: Delivery)
    requires d.a.addr < d.b.addr && Planned(d, p, eR) && Answered(st, p) && !Unsent(st, x)
    ensures Answered(Deliver1(d, st, x), p)
  {
    if x.ToA? && x.w in st.toA {
      SentWhileDialling(d, st, p, eR, x);
      ArriveAtA(d, st, p, eR, x.w, x.env);
    } else if x.ToB? && x.w in st.toB {
      ArriveAtB(d, st, p, eR, x.w, x.env);
    }
  }

  /** No delivery of the run is of that kind. */
  ghost predicate NoneUnsent(d: Duel, xs: seq<Delivery>) {
    forall i | 0 <= i < |xs| :: !Unsent(Play(d, xs[..i]), xs[i])
  }

  lemma {:induction false} NoneUnsentPrefix(d: Duel, xs: seq<Delivery>)
    requires xs != []
    ensures var k := |xs| - 1;
      NoneUnsent(d, xs) <==> NoneUnsent(d, xs[..k]) && !Unsent(Play(d, xs[..k]), xs[k])
  {
    var k := |xs| - 1;
    assert forall i | 0 <= i < k :: xs[..k][..i] == xs[..i] && xs[..k][i] == xs[i];
  }

  lemma {:induction false} PlayInvariant(d: Duel, xs: seq<Delivery>) returns (p: Plan, eR: Bytes)
    requires Fair(d) && NoneUnsent(d, xs)
    ensures Planned(d, p, eR) && (BothDialling(Play(d, xs), p) || Answered(Play(d, xs), p))
    decreases |xs|
  {
    if xs == [] {
      eR := [];
      p := MakePlan(d, eR);
    } else {
      var init, x := xs[..|xs| - 1], xs[|xs| - 1];
      NoneUnsentPrefix(d, xs);
      p, eR := PlayInvariant(d, init);
      var st := Play(d, init);
      if BothDialling(st, p) {
        p, eR := FirstAnswer(d, st, p, eR, x);
      } else {
        AnsweredStep(d, st, p, eR, x);
      }
    }
  }

  /** What the outcome of a duel looks like at any moment. */
  ghost predicate Settled(d: Duel, st: Pair) {
    && st.a.Some? && st.b.Some? && !st.a.value.state.AwaitingMsg3?
    && (st.a.value.state.Established? ==> st.a.value.state.session.role.Initiator? && !st.b.value.state.Initiating?)
    && (st.b.value.state.Established? ==> st.b.value.state.session.role.Responder? && st.a.value.state.Established?)
    && (st.b.value.state.Established? ==>
          && Halves(st.a.value.state.session, st.b.value.state.session)
          && st.a.value.state.session.remoteStatic == d.c.pub(d.b.secret)
          && st.b.value.state.session.remoteStatic == d.c.pub(d.a.secret))
  }

  lemma InvariantSettles(d: Duel, st: Pair, p: Plan, eR: Bytes)
    requires Planned(d, p, eR) && (BothDialling(st, p) || Answered(st, p))
    ensures Settled(d, st)
  {
  }

  /** Nobody dials any more, `b` waits for a message 3, and none was ever sent. */
  ghost predicate Stuck(st: Pair) {
    && (st.a.Some? ==> st.a.value.state.AwaitingMsg3?)
    && st.b.Some? && st.b.value.state.AwaitingMsg3?
    && (forall w | w in st.toA + st.toB :: !w.Msg3?)
  }

  lemma {:induction false} DroppedIsStuck(st: Pair, p: Plan)
    requires Answered(st, p) && st.a.Some? && st.a.value.state.Initiating? && p.awaiting.state.AwaitingMsg3?
    ensures Stuck(st.(a := None))
  {
  }

  lemma {:induction false} AckInFlight(d: Duel, st: Pair, p: Plan, eR: Bytes, x: Delivery)
    requires Planned(d, p, eR) && (BothDialling(st, p) || Answered(st, p)) && Unsent(st, x)
    ensures Answered(st, p) && x.w == Ack(p.ack) && st.a == Some(p.dialA) && p.awaiting.state.AwaitingMsg3?
  {
  }

  lemma {:induction false} UnsentAck(d: Duel, p: Plan, eR: Bytes, env: Env)
    requires Planned(d, p, eR) && !env.sendOk
    ensures HandleAck(d.c, d.a, d.b.addr, Some(p.dialA), p.ack, env) == Outcome(None, None)
  {
  }

  /** After such a delivery `a` has no entry and the two are stuck. */
  lemma {:induction false} UnsentDrops(d: Duel, st: Pair, p: Plan, eR: Bytes, x: Delivery)
    requires Planned(d, p, eR) && (BothDialling(st, p) || Answered(st, p)) && Unsent(st, x)
    ensures Deliver1(d, st, x) == st.(a := None) && Stuck(st.(a := None))
  {
    AckInFlight(d, st, p, eR, x);
    UnsentAck(d, p, eR, x.env);
    DroppedIsStuck(st, p);
  }

  lemma {:induction false} LastUnsent(d: Duel, xs: seq<Delivery>, x: Delivery)
    requires Fair(d) && NoneUnsent(d, xs) && Unsent(Play(d, xs), x)
    ensures Deliver1(d, Play(d, xs), x).a.None? && Stuck(Deliver1(d, Play(d, xs), x))
  {
    var p, eR := PlayInvariant(d, xs);
    UnsentDrops(d, Play(d, xs), p, eR, x);
  }

  /** A run with an unsent message 3 loses an entry and is stuck from then on. */
  lemma {:induction false} FirstUnsent(d: Duel, xs: seq<Delivery>) returns (k: nat)
    requires Fair(d) && !NoneUnsent(d, xs)
    ensures k <= |xs| && Play(d, xs[..k]).a.None? && Stuck(Play(d, xs[..k]))
    decreases |xs|
  {
    var last := |xs| - 1;
    NoneUnsentPrefix(d, xs);
    if NoneUnsent(d, xs[..last]) {
      k := |xs|;
      LastUnsent(d, xs[..last], xs[last]);
      assert xs[..k] == xs;
    } else {
      k := FirstUnsent(d, xs[..last]);
      assert xs[..last][..k] == xs[..k];
    }
  }

  /** The duel is settled at every moment of a run. */
  ghost predicate AlwaysSettled(d: Duel, xs: seq<Delivery>) {
    forall i | 0 <= i <= |xs| :: Settled(d, Play(d, xs[..i]))
  }

  lemma {:induction false} SettledNow(d: Duel, xs: seq<Delivery>)
    requires Fair(d) && NoneUnsent(d, xs)
    ensures Settled(d, Play(d, xs))
  {
    var p, eR := PlayInvariant(d, xs);
    InvariantSettles(d, Play(d, xs), p, eR);
  }

  lemma {:induction false} SettledWithoutUnsent(d: Duel, xs: seq<Delivery>, i: nat)
    requires Fair(d) && NoneUnsent(d, xs) && i <= |xs|
    ensures Settled(d, Play(d, xs[..i]))
    decreases |xs|
  {
    if i == |xs| {
      SettledNow(d, xs);
      assert xs[..i] == xs;
    } else {
      NoneUnsentPrefix(d, xs);
      SettledWithoutUnsent(d, xs[..|xs| - 1], i);
      assert xs[..|xs| - 1][..i] == xs[..i];
    }
  }

  /** Simultaneous initiation converges. Under every reordering, duplication, loss and local send
      failure: at every moment of the run neither entry is lost, only the node with the larger address
      has become a responder, and whenever both are established their sessions are the two halves of one
      handshake between the right keys, if and only if the smaller node could send its message 3
      whenever an ack reached it while dialling. */
  lemma {:induction false} Converges(d: Duel, xs: seq<Delivery>)
    requires Fair(d)
    ensures AlwaysSettled(d, xs) <==> NoneUnsent(d, xs)
  {
    if NoneUnsent(d, xs) {
      forall i | 0 <= i <= |xs| ensures Settled(d, Play(d, xs[..i])) { SettledWithoutUnsent(d, xs, i); }
    } else {
      var k := FirstUnsent(d, xs);
      assert !Settled(d, Play(d, xs[..k]));
    }
  }

  lemma {:induction false} PlayOne(d: Duel, xs: seq<Delivery>, x: Delivery)
    ensures Play(d, xs + [x]) == Deliver1(d, Play(d, xs), x)
  {
    assert (xs + [x])[..|xs|] == xs;
  }

  lemma {:induction false} AckStep(d: Duel, st: Pair, p: Plan, eR: Bytes, env: Env)
    requires Planned(d, p, eR) && env.sendOk && st.a == Some(p.dialA) && Ack(p.ack) in st.toA
    ensures Running(Deliver1(d, st, ToA(Ack(p.ack), env)).a, p.sessionA)
  {
    DiallingTakesAck(d, p, eR, env);
  }

  lemma {:induction false} Msg3Step(d: Duel, st: Pair, p: Plan, eR: Bytes, env: Env)
    requires Planned(d, p, eR) && st.b == Some(p.awaiting) && Msg3(p.msg3) in st.toB
    ensures Running(Deliver1(d, st, ToB(Msg3(p.msg3), env)).b, p.sessionB)
  {
    AwaitingTakesMsg3(d, p, eR, env);
  }

  lemma {:induction false} SetupStep(d: Duel, st: Pair, p: Plan, env: Env)
    requires d.a.addr < d.b.addr && Planned(d, p, env.eph) && BothDialling(st, p) && env.sendOk && env.rateOk
    ensures Answered(Deliver1(d, st, ToB(Setup(p.msg1A), env)), p)
  {
    DiallingGivesWay(d, p, env);
    NowAnswered(st, p);
  }

  predicate BothUp(st: Pair) {
    st.a.Some? && st.b.Some? && st.a.value.state.Established? && st.b.value.state.Established?
  }

  /** From an answered state the ack and message 3, both already sent, are enough. */
  lemma {:induction false} AnsweredFinishes(d: Duel, xs: seq<Delivery>, p: Plan, eR: Bytes, env: Env)
    returns (ys: seq<Delivery>)
    requires Fair(d) && env.sendOk && Planned(d, p, eR) && Answered(Play(d, xs), p)
    ensures xs <= ys && BothUp(Play(d, ys))
  {
    ys := xs;
    if Play(d, ys).a == Some(p.dialA) {
      var x := ToA(Ack(p.ack), env);
      AckStep(d, Play(d, ys), p, eR, env);
      AnsweredStep(d, Play(d, ys), p, eR, x);
      PlayOne(d, ys, x);
      ys := ys + [x];
    }
    if Play(d, ys).b == Some(p.awaiting) {
      var x := ToB(Msg3(p.msg3), env);
      Msg3Step(d, Play(d, ys), p, eR, env);
      AnsweredStep(d, Play(d, ys), p, eR, x);
      PlayOne(d, ys, x);
      ys := ys + [x];
    }
  }

  /** Some continuation of the run establishes both ends. */
  ghost predicate CanFinish(d: Duel, xs: seq<Delivery>) {
    exists ys :: xs <= ys && BothUp(Play(d, ys))
  }

  lemma {:induction false} Finishes(d: Duel, xs: seq<Delivery>)
    requires Fair(d) && NoneUnsent(d, xs)
    ensures CanFinish(d, xs)
  {
    var env := Env([], true, true, 0);
    var p, eR := PlayInvariant(d, xs);
    var ys := xs;
    if BothDialling(Play(d, xs), p) {
      var q := MakePlan(d, env.eph);
      SamePlanStart(d, p, eR, q, env.eph);
      var x := ToB(Setup(q.msg1A), env);
      SetupStep(d, Play(d, xs), q, env);
      PlayOne(d, xs, x);
      ys := AnsweredFinishes(d, xs + [x], q, env.eph, env);
    } else {
      ys := AnsweredFinishes(d, xs, p, eR, env);
    }
    assert xs <= ys && BothUp(Play(d, ys));
  }

  lemma {:induction false} WaitingStays(c: Suite, n: Node, src: Addr, e: Option<Entry>, w: Wire, env: Env)
    requires (e.Some? ==> e.value.state.AwaitingMsg3?) && !w.Msg3?
    ensures var o := Arrive(c, n, src, e, w, env);
      && (e.Some? ==> o.entry == e) && (o.entry.Some? ==> o.entry.value.state.AwaitingMsg3?)
      && (o.out.Some? ==> o.out.value.Ack?)
  {
  }

  lemma {:induction false} StuckStep(d: Duel, st: Pair, x: Delivery)
    requires Stuck(st)
    ensures Stuck(Deliver1(d, st, x))
  {
    if x.ToA? && x.w in st.toA {
      WaitingStays(d.c, d.a, d.b.addr, st.a, x.w, x.env);
    } else if x.ToB? && x.w in st.toB {
      WaitingStays(d.c, d.b, d.a.addr, st.b, x.w, x.env);
    }
  }

  lemma {:induction false} StuckForever(d: Duel, xs: seq<Delivery>, k: nat)
    requires k <= |xs| && Stuck(Play(d, xs[..k]))
    ensures Stuck(Play(d, xs))
    decreases |xs|
  {
    if k == |xs| {
      assert xs[..k] == xs;
    } else {
      assert xs[..|xs| - 1][..k] == xs[..k];
      StuckForever(d, xs[..|xs| - 1], k);
      StuckStep(d, Play(d, xs[..|xs| - 1]), xs[|xs| - 1]);
    }
  }

  /** A run can be continued to two established ends, by delivering messages already sent, if and only
      if the smaller node could send its message 3 whenever an ack reached it while dialling. */
  lemma {:induction false} CanAlwaysFinish(d: Duel, xs: seq<Delivery>)
    requires Fair(d)
    ensures CanFinish(d, xs) <==> NoneUnsent(d, xs)
  {
    if NoneUnsent(d, xs) {
      Finishes(d, xs);
    } else {
      var k := FirstUnsent(d, xs);
      forall ys: seq<Delivery> | xs <= ys
        ensures !BothUp(Play(d, ys))
      {
        assert ys[..k] == xs[..k];
        StuckForever(d, ys, k);
      }
    }
  }

  lemma {:induction false} BStillAwaits(d: Duel, p: Plan, env: Env)
    requires d.a.addr < d.b.addr && Planned(d, p, env.eph) && env.rateOk && env.sendOk
    requires BothDialling(Play(d, []), p)
    ensures var s1 := Deliver1(d, Play(d, []), ToB(Setup(p.msg1A), env));
      s1.a == Some(p.dialA) && s1.b == Some(p.awaiting) && Ack(p.ack) in s1.toA && Setup(p.msg1B) in s1.toA
  {
    DiallingGivesWay(d, p, env);
  }

  /** With no entry left, `a` answers `b`'s setup like any other. */
  lemma {:induction false} NoEntryAnswers(d: Duel, p: Plan, env: Env)
    requires Fair(d) && Planned(d, p, env.eph) && env.rateOk && env.sendOk
    ensures var o := HandleSetup(d.c, d.a, d.b.addr, None, p.msg1B, env);
      o.entry.Some? && o.entry.value.state.AwaitingMsg3?
  {
    AckAgrees(d.c, d.b, d.a, d.eB, env.eph, p.dialB.(remoteKey := d.c.pub(d.a.secret)));
  }

  lemma {:induction false} ThreeSteps(d: Duel, x1: Delivery, x2: Delivery, x3: Delivery)
    ensures Play(d, [x1, x2, x3]) == Deliver1(d, Deliver1(d, Deliver1(d, Play(d, []), x1), x2), x3)
  {
    assert [x1, x2, x3] == [] + [x1] + [x2] + [x3];
    PlayOne(d, [], x1);
    PlayOne(d, [] + [x1], x2);
    PlayOne(d, [] + [x1] + [x2], x3);
  }

  lemma {:induction false} StartDialling(d: Duel, p: Plan, eR: Bytes)
    requires Planned(d, p, eR)
    ensures BothDialling(Play(d, []), p) && p.dialA.state.Initiating?
  {
  }

  lemma {:induction false} TwoSteps(d: Duel, p: Plan, good: Env, bad: Env)
    requires Fair(d) && Planned(d, p, good.eph) && good.rateOk && good.sendOk && !bad.sendOk
    ensures var s2 := Deliver1(d, Deliver1(d, Play(d, []), ToB(Setup(p.msg1A), good)), ToA(Ack(p.ack), bad));
      s2.a.None? && Stuck(s2) && Setup(p.msg1B) in s2.toA
  {
    StartDialling(d, p, good.eph);
    SetupStep(d, Play(d, []), p, good);
    BStillAwaits(d, p, good);
    UnsentDrops(d, Deliver1(d, Play(d, []), ToB(Setup(p.msg1A), good)), p, good.eph, ToA(Ack(p.ack), bad));
  }

  /** How it fails: `b` gives way to `a`, `a` cannot send its message 3 and drops its entry, and `b`'s old
      setup then makes `a` a responder too. */
  lemma {:induction false} BothWait(d: Duel, good: Env, bad: Env) returns (xs: seq<Delivery>)
    requires Fair(d) && good.rateOk && good.sendOk && !bad.sendOk
    ensures |xs| == 3
    ensures var st := Play(d, xs);
      st.a.Some? && st.b.Some? && st.a.value.state.AwaitingMsg3? && st.b.value.state.AwaitingMsg3?
  {
    var p := MakePlan(d, good.eph);
    var x1, x2, x3 := ToB(Setup(p.msg1A), good), ToA(Ack(p.ack), bad), ToA(Setup(p.msg1B), good);
    xs := [x1, x2, x3];
    ThreeSteps(d, x1, x2, x3);
    TwoSteps(d, p, good, bad);
    NoEntryAnswers(d, p, good);
  }
}
