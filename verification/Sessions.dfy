/** End-to-end sessions: one table entry per remote address, and how each inbound message moves it.

    The handlers are given here as functions of the entry alone; `SessionTable` runs them in place on
    the table. What a handler takes from outside (a fresh ephemeral key, the clock, the rate limiter's
    verdict, whether a datagram could be sent) is its `Env`. */
module Sessions {
  import opened Results
  import opened Words
  import opened Crypto
  import opened Patterns
  import opened Handshakes

  type Addr = nat

  /** What the handlers need of the node: its address, long-term key, startup epoch, the idle timeout,
      and the address derived from an x-only key. */
  datatype Node = Node(addr: Addr, secret: Bytes, epoch: Epoch, name: Bytes, idleTimeoutMs: nat, addrOf: Bytes -> Addr)

  datatype EndState =
    | Initiating(handshake: Party)
    | AwaitingMsg3(handshake: Party)
    | Established(session: Session)

  datatype Entry = Entry(
    remoteKey: Bytes,
    state: EndState,
    rekey: Option<Party>,
    rekeyInitiator: bool,
    pending: Option<Session>,
    previous: Option<Session>,
    drainStartedMs: Option<nat>,
    completedMs: nat,
    rekeyMsg3: Option<Bytes>,
    kBit: bool,
    handshakePayload: Option<Bytes>)

  function NewEntry(remoteKey: Bytes, state: EndState, payload: Option<Bytes>): Entry {
    Entry(remoteKey, state, None, false, None, None, None, 0, None, false, payload)
  }

  datatype Env = Env(eph: Bytes, rateOk: bool, sendOk: bool, now: nat)

  /** Handshake payloads on the wire. */
  datatype Wire = Setup(payload: Bytes) | Ack(payload: Bytes) | Msg3(payload: Bytes)

  /** An encrypted session frame: header K-bit, counter, authenticated header bytes, ciphertext. */
  datatype Frame = Frame(kBit: bool, counter: u64, header: Bytes, ciphertext: Bytes)

  /** What a handler leaves in the table for this address, and what it sends. */
  datatype Outcome = Outcome(entry: Option<Entry>, out: Option<Wire>)

  /** The session negotiation payload: versions 0 to 0, no features. */
  const NEGOTIATION: Bytes := [0, 0, 0, 0, 0, 0, 0, 0, 0, 0]

  predicate WinsInitiation(ours: Addr, theirs: Addr) {
    ours < theirs
  }

  function SplitPayload(payload: Bytes, base: nat): (Bytes, Option<Bytes>) {
    if |payload| > base then (payload[..base], Some(payload[base..])) else (payload, None)
  }

  /** Decrypt the negotiation payload, if there is one. */
  function ReadNegotiation(c: Suite, p: Party, neg: Option<Bytes>): (Party, bool) {
    if neg.None? then (p, true)
    else
      var (q, plain) := DecryptPayload(c, p, neg.value);
      (q, plain.Ok?)
  }

  // ----- rekey state of an entry -----

  function AbandonHandshake(e: Entry): Entry {
    e.(rekey := None)
  }

  function AbandonRekey(e: Entry): Entry {
    e.(rekey := None, pending := None, rekeyMsg3 := None)
  }

  function SetRekey(e: Entry, handshake: Party, initiator: bool): Entry {
    e.(rekey := Some(handshake), rekeyInitiator := initiator)
  }

  /** A completed rekey waits here for the cutover; no handshake is left armed beside it. */
  function SetPending(e: Entry, session: Session, now: nat): Entry {
    e.(rekey := None, pending := Some(session), completedMs := now)
  }

  predicate PendingStale(e: Entry, now: nat, timeout: nat) {
    e.completedMs != 0 && now >= e.completedMs + timeout
  }

  /** Pending becomes current, current becomes previous and starts to drain, the K-bit flips. */
  function Promote(e: Entry, now: nat): Entry
    requires e.state.Established? && e.pending.Some?
  {
    e.(state := Established(e.pending.value), previous := Some(e.state.session), drainStartedMs := Some(now),
       pending := None, kBit := !e.kBit)
  }

  // ----- inbound setup (message 1) -----

  /** A responder handshake that has read `msg1` and written message 2, or nothing. */
  function Answer(c: Suite, n: Node, msg1: Bytes, eph: Bytes): Option<(Party, Bytes)> {
    var start := NewXx(c, n.name, Responder, n.secret).(localEpoch := Some(n.epoch));
    var (read, ok) := Read(c, start, XxMsg1, msg1);
    if ok.Err? then None
    else
      var (wrote, msg2) := Write(c, read, XxMsg2, eph);
      if msg2.Err? then None else Some((wrote, msg2.value))
  }

  /** The answer to a fresh setup carries the negotiation payload. */
  function AnswerWithNegotiation(c: Suite, n: Node, msg1: Bytes, eph: Bytes): Option<(Party, Bytes)> {
    var answer := Answer(c, n, msg1, eph);
    if answer.None? then None
    else
      var (handshake, sealed) := EncryptPayload(c, answer.value.0, NEGOTIATION);
      if sealed.Err? then None else Some((handshake, answer.value.1 + sealed.value))
  }

  function Respond(c: Suite, n: Node, existing: Option<Entry>, msg1: Bytes, env: Env): Outcome {
    var answer := AnswerWithNegotiation(c, n, msg1, env.eph);
    if answer.None? || !env.sendOk then Outcome(existing, None)
    else
      var (handshake, ack) := answer.value;
      Outcome(Some(NewEntry(c.pub(n.secret), AwaitingMsg3(handshake), Some(ack))), Some(Ack(ack)))
  }

  /** A setup naming an established peer may only arm a handshake beside the running session. */
  function RekeySetup(c: Suite, n: Node, src: Addr, e: Entry, msg1: Bytes, env: Env): Outcome {
    if e.rekey.Some? && WinsInitiation(n.addr, src) then Outcome(Some(e), None)
    else if e.rekey.None? && e.pending.Some? && !PendingStale(e, env.now, n.idleTimeoutMs) then Outcome(Some(e), None)
    else
      var cleared := if e.rekey.Some? then AbandonHandshake(e) else e;
      var answer := Answer(c, n, msg1, env.eph);
      if answer.None? || !env.sendOk then Outcome(Some(cleared), None)
      else Outcome(Some(SetRekey(cleared, answer.value.0, false)), Some(Ack(answer.value.1)))
  }

  function HandleSetup(c: Suite, n: Node, src: Addr, existing: Option<Entry>, payload: Bytes, env: Env): Outcome {
    if |payload| != XX1_SIZE || !env.rateOk then Outcome(existing, None)
    else if existing.None? then Respond(c, n, existing, payload, env)
    else
      var e := existing.value;
      match e.state
      case Initiating(_) =>
        if WinsInitiation(n.addr, src) then Outcome(existing, None) else Respond(c, n, existing, payload, env)
      case AwaitingMsg3(_) =>
        Outcome(existing, if e.handshakePayload.Some? && env.sendOk then Some(Ack(e.handshakePayload.value)) else None)
      case Established(_) => RekeySetup(c, n, src, e, payload, env)
  }

  // ----- inbound ack (message 2) -----

  /** Read message 2 and write message 3: the handshake after it, message 3 and the session. */
  function CompleteRekey(c: Suite, handshake: Party, payload: Bytes): Option<(Bytes, Session)> {
    var (read, ok) := Read(c, handshake, XxMsg2, payload);
    if ok.Err? then None
    else
      var (wrote, msg3) := Write(c, read, XxMsg3, []);
      if msg3.Err? then None
      else
        var session := IntoSession(c, wrote);
        if session.Err? then None else Some((msg3.value, session.value))
  }

  /** The initiator of a rekey; every failure abandons the rekey. */
  function RekeyAck(c: Suite, e: Entry, handshake: Party, payload: Bytes, env: Env): Outcome {
    var taken := e.(rekey := None);
    var done := CompleteRekey(c, handshake, payload);
    if done.None? || !env.sendOk then Outcome(Some(AbandonRekey(taken)), None)
    else
      var (msg3, session) := done.value;
      Outcome(Some(SetPending(taken, session, env.now).(rekeyMsg3 := Some(msg3))), Some(Msg3(msg3)))
  }

  /** The handshake after an acceptable ack; `None` if the ack is refused, for any of three reasons:
      message 2 does not authenticate, the negotiation payload does not open, or the sender's static
      key is not the one that was dialled. */
  function AcceptAck(c: Suite, e: Entry, handshake: Party, payload: Bytes): Option<Party> {
    var (base, neg) := SplitPayload(payload, XX2_SIZE);
    var (read, ok) := Read(c, handshake, XxMsg2, base);
    if ok.Err? then None
    else
      var (after, opens) := ReadNegotiation(c, read, neg);
      if !opens then None
      else if after.rs.Some? && XOnly(after.rs.value) != XOnly(e.remoteKey) then None
      else Some(after)
  }

  /** What the handshake is put back to when an ack is refused. */
  function RolledBack(c: Suite, e: Entry, handshake: Party, payload: Bytes): Party {
    var (base, neg) := SplitPayload(payload, XX2_SIZE);
    var (read, rollback) := TryReadMessage2(c, handshake, base);
    if rollback.Err? then read
    else
      var (after, _) := ReadNegotiation(c, read, neg);
      Restore(after, rollback.value)
  }

  /** Message 3 with its negotiation payload, and the session. */
  function FinishInitiation(c: Suite, accepted: Party): Option<(Bytes, Session)> {
    var (wrote, msg3) := Write(c, accepted, XxMsg3, []);
    if msg3.Err? then None
    else
      var (sealedState, sealed) := EncryptPayload(c, wrote, NEGOTIATION);
      if sealed.Err? then None
      else
        var session := IntoSession(c, sealedState);
        if session.Err? then None else Some((msg3.value + sealed.value, session.value))
  }

  function InitiatorAck(c: Suite, e: Entry, handshake: Party, payload: Bytes, env: Env): Outcome {
    var accepted := AcceptAck(c, e, handshake, payload);
    if accepted.None? then Outcome(Some(e.(state := Initiating(RolledBack(c, e, handshake, payload)))), None)
    else
      var done := FinishInitiation(c, accepted.value);
      if done.None? || !env.sendOk then Outcome(None, None)
      else
        var (msg3, session) := done.value;
        Outcome(Some(e.(state := Established(session), handshakePayload := None)), Some(Msg3(msg3)))
  }

  function HandleAck(c: Suite, n: Node, src: Addr, existing: Option<Entry>, payload: Bytes, env: Env): Outcome {
    if |payload| < XX2_SIZE || existing.None? then Outcome(existing, None)
    else
      var e := existing.value;
      if e.state.Established? && e.rekey.Some? && e.rekeyInitiator then RekeyAck(c, e, e.rekey.value, payload, env)
      else if !e.state.Initiating? then Outcome(existing, None)
      else InitiatorAck(c, e, e.state.handshake, payload, env)
  }

  // ----- inbound message 3 -----

  /** The session a message 3 completes, if it and its negotiation payload authenticate. */
  function FinishResponse(c: Suite, handshake: Party, payload: Bytes): Option<Session> {
    var (base, neg) := SplitPayload(payload, XX3_SIZE);
    var (read, ok) := Read(c, handshake, XxMsg3, base);
    if ok.Err? then None
    else
      var (after, opens) := ReadNegotiation(c, read, neg);
      if !opens || after.rs.None? then None
      else
        var session := IntoSession(c, after);
        if session.Err? then None else Some(session.value)
  }

  /** The responder of a rekey; every failure abandons only the handshake. */
  function RekeyMsg3(c: Suite, e: Entry, handshake: Party, payload: Bytes, env: Env): Outcome {
    var taken := e.(rekey := None);
    var done := FinishResponse(c, handshake, payload);
    if done.None? || XOnly(done.value.remoteStatic) != XOnly(e.remoteKey) then
      Outcome(Some(AbandonHandshake(taken)), None)
    else Outcome(Some(SetPending(taken, done.value, env.now)), None)
  }

  /** The first message 3: the claimed source address must belong to the key just authenticated. */
  function ResponderMsg3(c: Suite, n: Node, src: Addr, handshake: Party, payload: Bytes): Outcome {
    var done := FinishResponse(c, handshake, payload);
    if done.None? || n.addrOf(XOnly(done.value.remoteStatic)) != src then Outcome(None, None)
    else Outcome(Some(NewEntry(done.value.remoteStatic, Established(done.value), None)), None)
  }

  function HandleMsg3(c: Suite, n: Node, src: Addr, existing: Option<Entry>, payload: Bytes, env: Env): Outcome {
    if |payload| < XX3_SIZE || existing.None? then Outcome(existing, None)
    else
      var e := existing.value;
      if e.state.Established? && e.rekey.Some? && !e.rekeyInitiator then RekeyMsg3(c, e, e.rekey.value, payload, env)
      else if !e.state.AwaitingMsg3? then Outcome(existing, None)
      else ResponderMsg3(c, n, src, e.state.handshake, payload)
  }

  // ----- inbound data -----

  datatype Slot = Current | Pending | Previous

  predicate OpensUnder(c: Suite, s: Session, f: Frame) {
    s.recv.DecryptWithCounter(c, f.ciphertext, f.counter, f.header).Ok?
  }

  /** Inside the session's replay window, and opens. */
  predicate Accepts(c: Suite, s: Session, f: Frame) {
    s.replay.Check(f.counter) && OpensUnder(c, s, f)
  }

  /** The session once it has accepted `f`. */
  function Marked(s: Session, f: Frame): Session
    requires s.replay.Check(f.counter)
  {
    s.(replay := s.replay.Accept(f.counter))
  }

  /** Which slot accepts the frame; the K-bit only decides whether pending is tried before current. */
  function TrySlots(c: Suite, current: Session, pending: Option<Session>, previous: Option<Session>, kBit: bool,
                    f: Frame): (slot: Option<Slot>)
    ensures var inCurrent := Accepts(c, current, f);
      var inPending := pending.Some? && Accepts(c, pending.value, f);
      var inPrevious := previous.Some? && Accepts(c, previous.value, f);
      && (slot == Some(Current) <==> inCurrent && !(inPending && f.kBit != kBit))
      && (slot == Some(Pending) <==> inPending && !(inCurrent && f.kBit == kBit))
      && (slot == Some(Previous) <==> inPrevious && !inCurrent && !inPending)
      && (slot == None <==> !inCurrent && !inPending && !inPrevious)
  {
    var inCurrent, inPending := Accepts(c, current, f), pending.Some? && Accepts(c, pending.value, f);
    var pendingFirst := f.kBit != kBit && pending.Some?;
    if !pendingFirst && inCurrent then Some(Current)
    else if inPending then Some(Pending)
    else if pendingFirst && inCurrent then Some(Current)
    else if previous.Some? && Accepts(c, previous.value, f) then Some(Previous)
    else None
  }

  function TrialDecrypt(c: Suite, e: Entry, f: Frame): Option<Slot>
    requires e.state.Established?
  {
    TrySlots(c, e.state.session, e.pending, e.previous, e.kBit, f)
  }

  /** The entry after a frame: the accepting session has marked its counter; a frame of the pending
      session promotes it; one of the previous session keeps that session a while longer. */
  function HandleData(c: Suite, existing: Option<Entry>, f: Frame, now: nat): Option<Entry> {
    if existing.None? || !existing.value.state.Established? then existing
    else
      var e := existing.value;
      match TrySlots(c, e.state.session, e.pending, e.previous, e.kBit, f)
      case None => existing
      case Some(Current) =>
        Some(e.(state := Established(Marked(e.state.session, f)),
                rekeyMsg3 := if e.pending.None? then None else e.rekeyMsg3))
      case Some(Pending) =>
        Some(Promote(e.(pending := Some(Marked(e.pending.value, f)), rekeyMsg3 := None), now))
      case Some(Previous) =>
        Some(e.(previous := Some(Marked(e.previous.value, f)), drainStartedMs := Some(now)))
  }

  // ----- local actions -----

  /** `initiate_session`: a running or already dialling session is left alone. */
  function Initiate(c: Suite, n: Node, existing: Option<Entry>, key: Bytes, env: Env): Outcome {
    if existing.Some? && !existing.value.state.AwaitingMsg3? then Outcome(existing, None)
    else
      var start := NewXx(c, n.name, Initiator, n.secret).(localEpoch := Some(n.epoch));
      var (handshake, msg1) := Write(c, start, XxMsg1, env.eph);
      if msg1.Err? || !env.sendOk then Outcome(existing, None)
      else Outcome(Some(NewEntry(key, Initiating(handshake), Some(msg1.value))), Some(Setup(msg1.value)))
  }

  /** Arming our own rekey, which the source reaches only with no rekey and no pending session. */
  function ArmRekey(c: Suite, n: Node, existing: Option<Entry>, env: Env): Outcome {
    if existing.None? then Outcome(existing, None)
    else
      var e := existing.value;
      if !e.state.Established? || e.rekey.Some? || e.pending.Some? || !env.sendOk then Outcome(existing, None)
      else
        var start := NewXx(c, n.name, Initiator, n.secret).(localEpoch := Some(n.epoch));
        var (handshake, msg1) := Write(c, start, XxMsg1, env.eph);
        if msg1.Err? then Outcome(existing, None)
        else Outcome(Some(SetRekey(e, handshake, true)), Some(Setup(msg1.value)))
  }
}
