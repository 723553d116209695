/** The XX, XK and IK handshakes of the source: whole runs, rollback of a refused message 2, and
    freedom from panics. */
module Handshakes {
  import opened Results
  import opened Words
  import opened Crypto
  import opened Noise
  import opened Patterns

  datatype Pattern = Xx | Xk | Ik

  const XX1 := Then(E, End)
  const XX2 := Then(E, Then(EE, Then(S, Then(ES, Then(Stamp, End)))))
  const XX3 := Then(S, Then(SE, Then(Stamp, End)))
  const XK1 := Then(E, Then(ES, End))
  const XK2 := Then(E, Then(EE, Then(Stamp, End)))
  const XK3 := XX3
  const IK1 := Then(E, Then(ES, Then(S, Then(SS, Then(Stamp, End)))))
  /** The source labels the last mix of IK message 2 `se`, but pairs the responder's static with the
      initiator's ephemeral: token `es`. */
  const IK2 := Then(E, Then(EE, Then(ES, Then(Stamp, End))))

  const XX1_SIZE := 33
  const XX2_SIZE := 106
  const XX3_SIZE := 73
  const XK1_SIZE := 33
  const XK2_SIZE := 57
  const XK3_SIZE := 73
  const IK1_SIZE := 106
  const IK2_SIZE := 57

  // ----- creation -----

  function Fresh(role: Role, sym: Symmetric, s: Bytes, rs: Option<Bytes>): Party {
    Party(role, Initial, sym, s, None, rs, None, None, None)
  }

  /** A public key with its parity byte forced to even. */
  function Normalized(p: Bytes): Bytes {
    if p == [] then [] else [2] + p[1..]
  }

  function NewXx(c: Suite, name: Bytes, role: Role, s: Bytes): Party {
    Fresh(role, Initialize(c, name), s, None)
  }

  /** IK and XK start by hashing the responder's static key, normalized. */
  function NewInitiator(c: Suite, name: Bytes, s: Bytes, rs: Bytes): Party {
    Fresh(Initiator, Initialize(c, name).MixHash(c, Normalized(rs)), s, Some(rs))
  }

  function NewResponder(c: Suite, name: Bytes, s: Bytes): Party {
    Fresh(Responder, Initialize(c, name).MixHash(c, Normalized(c.pub(s))), s, None)
  }

  // ----- one message from one end to the other -----

  /** A message as its pattern defines it: who sends it, the progress it needs and gives, its tokens and size. */
  datatype Message = Message(sender: Role, from: Progress, tokens: Tokens, to: Progress, size: nat)

  function Peer(role: Role): Role {
    if role.Initiator? then Responder else Initiator
  }

  function Write(c: Suite, p: Party, m: Message, eph: Bytes): (Party, Result<Bytes>) {
    WriteMessage(c, p, m.sender, m.from, m.tokens, m.to, eph)
  }

  function Read(c: Suite, p: Party, m: Message, msg: Bytes): (Party, Result<()>) {
    ReadMessage(c, p, Peer(m.sender), m.from, m.tokens, m.to, m.size, msg)
  }

  const XxMsg1 := Message(Initiator, Initial, XX1, Message1Done, XX1_SIZE)
  const XxMsg2 := Message(Responder, Message1Done, XX2, Message2Done, XX2_SIZE)
  const XxMsg3 := Message(Initiator, Message2Done, XX3, Complete, XX3_SIZE)
  const XkMsg1 := Message(Initiator, Initial, XK1, Message1Done, XK1_SIZE)
  const XkMsg2 := Message(Responder, Message1Done, XK2, Message2Done, XK2_SIZE)
  const XkMsg3 := Message(Initiator, Message2Done, XK3, Complete, XK3_SIZE)
  const IkMsg1 := Message(Initiator, Initial, IK1, Message1Done, IK1_SIZE)
  const IkMsg2 := Message(Responder, Message1Done, IK2, Complete, IK2_SIZE)

  /** `m` written by `w` and read by `r`. */
  function Deliver(c: Suite, w: Party, r: Party, m: Message, eph: Bytes): Result<(Party, Party)> {
    var (w', msg) := Write(c, w, m, eph);
    if msg.Err? then Err(msg.error)
    else
      var (r', ok) := Read(c, r, m, msg.value);
      if ok.Err? then Err(ok.error) else Ok((w', r'))
  }

  /** An optional negotiation payload after a message. */
  function DeliverPayload(c: Suite, w: Party, r: Party, payload: Option<Bytes>): Result<(Party, Party)> {
    if payload.None? then Ok((w, r))
    else
      var (w', sealed) := EncryptPayload(c, w, payload.value);
      if sealed.Err? then Err(sealed.error)
      else
        var (r', plain) := DecryptPayload(c, r, sealed.value);
        if plain.Err? then Err(plain.error)
        else if plain.value != payload.value then Err(DecryptionFailed)
        else Ok((w', r'))
  }

  /** Two ends in step after the same progress, holding the keys `k`, with `w` to write next. */
  ghost predicate Stage(c: Suite, w: Party, r: Party, writer: Role, at: Progress, k: Keyring) {
    && InSync(c, w, r) && w.role == writer && w.progress == r.progress == at
    && w.localEpoch.Some? && r.localEpoch.Some? && KeyringOf(w, r) == k
  }

  function Swapped(k: Keyring): Keyring {
    Keyring(k.re, k.rre, k.rrs, k.we, k.wre, k.wrs, k.keyed)
  }

  predicate Sendable(m: Message, k: Keyring) {
    m.size == WireSize(m.tokens, k.keyed) && CanSendAll(m.tokens, m.sender, k)
  }

  /** The last write left `w2` and `r2` in step; what crossed is what the message carries. */
  ghost predicate Crossed(c: Suite, w: Party, r: Party, m: Message, w2: Party, r2: Party) {
    Carried(c, w.(progress := m.to), r.(progress := m.to), w2, r2, Has(m.tokens, S), Has(m.tokens, Stamp))
  }

  lemma {:induction false} MessageAgrees(c: Suite, w: Party, r: Party, m: Message, eph: Bytes, k: Keyring)
    requires Lawful(c) && Stage(c, w, r, m.sender, m.from, k) && Sendable(m, k)
    requires w.sym.cipher.nonce + Count(m.tokens) <= U64_MAX
    ensures var out := Deliver(c, w, r, m, eph);
      && out.Ok? && Crossed(c, w, r, m, out.value.0, out.value.1)
      && Stage(c, out.value.0, out.value.1, m.sender, m.to, AfterTokens(m.tokens, k))
      && out.value.0.sym.cipher.nonce <= w.sym.cipher.nonce + Count(m.tokens)
  {
    TokensAgree(c, w, r, m.tokens, eph);
  }

  lemma {:induction false} PayloadAgrees(c: Suite, w: Party, r: Party, payload: Option<Bytes>, writer: Role,
                                         at: Progress, k: Keyring)
    requires Lawful(c) && Stage(c, w, r, writer, at, k) && w.sym.cipher.nonce < U64_MAX && ValidPayload(payload)
    ensures var out := DeliverPayload(c, w, r, payload);
      && out.Ok? && Carried(c, w, r, out.value.0, out.value.1, false, false)
      && Stage(c, out.value.0, out.value.1, writer, at, k)
      && out.value.0.sym.cipher.nonce <= w.sym.cipher.nonce + 1
  {
    if payload.Some? { SealedCrosses(c, w, r, payload.value); }
  }

  ghost predicate ValidPayload(p: Option<Bytes>) {
    p.Some? ==> |p.value| <= MAX_MESSAGE_SIZE - TAG_SIZE
  }

  // ----- whole runs -----

  /** A message and its optional payload, from `w` to `r`. */
  function Round(c: Suite, w: Party, r: Party, m: Message, eph: Bytes, payload: Option<Bytes>): Result<(Party, Party)> {
    var sent := Deliver(c, w, r, m, eph);
    if sent.Err? then sent else DeliverPayload(c, sent.value.0, sent.value.1, payload)
  }

  lemma {:induction false} RoundAgrees(c: Suite, w: Party, r: Party, m: Message, eph: Bytes,
                                       payload: Option<Bytes>, k: Keyring)
    requires Lawful(c) && Stage(c, w, r, m.sender, m.from, k) && Sendable(m, k)
    requires w.sym.cipher.nonce <= 100 && Count(m.tokens) <= 5 && ValidPayload(payload)
    ensures var out := Round(c, w, r, m, eph, payload);
      && out.Ok? && Crossed(c, w, r, m, out.value.0, out.value.1)
      && Stage(c, out.value.1, out.value.0, Peer(m.sender), m.to, Next(m, k))
      && out.value.1.sym.cipher.nonce <= w.sym.cipher.nonce + 6
  {
    MessageAgrees(c, w, r, m, eph, k);
    var (w1, r1) := Deliver(c, w, r, m, eph).value;
    PayloadAgrees(c, w1, r1, payload, m.sender, m.to, AfterTokens(m.tokens, k));
  }

  /** Both ends finished with one shared state and mirrored sessions, and know each other's epoch. */
  ghost predicate Agreed(c: Suite, i: Party, r: Party) {
    && i.sym == r.sym
    && IntoSession(c, i).Ok? && IntoSession(c, r).Ok?
    && Halves(IntoSession(c, i).value, IntoSession(c, r).value)
    && i.remoteEpoch == r.localEpoch && r.remoteEpoch == i.localEpoch
  }

  /** A three-message handshake; payloads ride on messages 2 and 3. */
  datatype Script = Script(m1: Message, m2: Message, m3: Message, neg2: Option<Bytes>, neg3: Option<Bytes>)

  function FirstTwo(c: Suite, i: Party, r: Party, h: Script, eI: Bytes, eR: Bytes): Result<(Party, Party)> {
    var one := Round(c, i, r, h.m1, eI, None);
    if one.Err? then one else Round(c, one.value.1, one.value.0, h.m2, eR, h.neg2)
  }

  function AllThree(c: Suite, i: Party, r: Party, h: Script, eI: Bytes, eR: Bytes): Result<(Party, Party)> {
    var two := FirstTwo(c, i, r, h, eI, eR);
    if two.Err? then two else Round(c, two.value.1, two.value.0, h.m3, eI, h.neg3)
  }

  /** The script runs from `Initial` to `Complete`, each message sendable with the keys the last one left. */
  ghost predicate Playable(h: Script, k: Keyring) {
    && h.m1.sender.Initiator? && h.m2.sender.Responder? && h.m3.sender.Initiator?
    && h.m1.from.Initial? && h.m1.to == h.m2.from && h.m2.to == h.m3.from && h.m3.to.Complete?
    && Count(h.m1.tokens) <= 5 && Count(h.m2.tokens) <= 5 && Count(h.m3.tokens) <= 5
    && ValidPayload(h.neg2) && ValidPayload(h.neg3)
    && Sendable(h.m1, k)
    && Sendable(h.m2, Next(h.m1, k))
    && Sendable(h.m3, Next(h.m2, Next(h.m1, k)))
  }

  /** The keys after `m`, seen from the other end, which writes next. */
  function Next(m: Message, k: Keyring): Keyring {
    Swapped(AfterTokens(m.tokens, k))
  }

  lemma FirstTwoAgree(c: Suite, i: Party, r: Party, h: Script, eI: Bytes, eR: Bytes, k: Keyring)
    requires Lawful(c) && Playable(h, k) && Stage(c, i, r, Initiator, Initial, k) && i.sym.cipher.nonce <= 10
    requires !Has(h.m1.tokens, S) && !Has(h.m1.tokens, Stamp) && Has(h.m2.tokens, Stamp)
    ensures var two := FirstTwo(c, i, r, h, eI, eR);
      && two.Ok?
      && var k2 := Next(h.m2, Next(h.m1, k));
      && var (r2, i2) := two.value;
      && Stage(c, i2, r2, Initiator, h.m3.from, k2) && i2.sym.cipher.nonce <= 30
      && i2.s == i.s && r2.s == r.s && i2.localEpoch == i.localEpoch && r2.localEpoch == r.localEpoch
      && i2.remoteEpoch == r.localEpoch && i2.rs == (if Has(h.m2.tokens, S) then Some(c.pub(r.s)) else i.rs)
  {
    RoundAgrees(c, i, r, h.m1, eI, None, k);
    var (i1, r1) := Round(c, i, r, h.m1, eI, None).value;
    RoundAgrees(c, r1, i1, h.m2, eR, h.neg2, Next(h.m1, k));
  }

  /** A finished pair in step, each knowing the other's static and epoch, has mirrored sessions. */
  lemma FinishedAgree(c: Suite, i: Party, r: Party)
    requires InSync(c, i, r) && i.role.Initiator? && i.progress == r.progress == Complete
    requires i.rs.Some? && r.rs.Some? && i.remoteEpoch == r.localEpoch && r.remoteEpoch == i.localEpoch
    ensures Agreed(c, i, r)
  {
  }

  /** Agreement for every playable three-message script that sends the initiator's static and epoch last. */
  lemma {:induction false} AllThreeAgree(c: Suite, i: Party, r: Party, h: Script, eI: Bytes, eR: Bytes, k: Keyring)
    requires Lawful(c) && Playable(h, k) && Stage(c, i, r, Initiator, Initial, k) && i.sym.cipher.nonce <= 10
    requires !Has(h.m1.tokens, S) && !Has(h.m1.tokens, Stamp) && Has(h.m2.tokens, Stamp)
    requires Has(h.m3.tokens, S) && Has(h.m3.tokens, Stamp) && (i.rs.Some? || Has(h.m2.tokens, S))
    ensures var out := AllThree(c, i, r, h, eI, eR);
      && out.Ok? && Agreed(c, out.value.0, out.value.1)
      && out.value.0.rs == (if Has(h.m2.tokens, S) then Some(c.pub(r.s)) else i.rs)
      && out.value.1.rs == Some(c.pub(i.s))
      && out.value.0.remoteEpoch == r.localEpoch && out.value.1.remoteEpoch == i.localEpoch
  {
    FirstTwoAgree(c, i, r, h, eI, eR, k);
    var (r2, i2) := FirstTwo(c, i, r, h, eI, eR).value;
    var k2 := Next(h.m2, Next(h.m1, k));
    RoundAgrees(c, i2, r2, h.m3, eI, h.neg3, k2);
    var (i3, r3) := Round(c, i2, r2, h.m3, eI, h.neg3).value;
    FinishedAgree(c, i3, r3);
  }

  const NoKeys := Keyring(false, false, false, false, false, false, false)
  const ResponderKnown := Keyring(false, false, true, false, false, false, false)

  const XxAfter1 := Keyring(false, true, false, true, false, false, false)
  const XkAfter1 := Keyring(false, true, false, true, false, true, true)
  const After2 := Keyring(true, true, true, true, true, false, true)

  lemma XxFirst()
    ensures Sendable(XxMsg1, NoKeys) && Next(XxMsg1, NoKeys) == XxAfter1
    ensures !Has(XX1, S) && !Has(XX1, Stamp) && Count(XX1) <= 5
  {
  }

  lemma XxSecond()
    ensures Sendable(XxMsg2, XxAfter1) && Next(XxMsg2, XxAfter1) == After2
    ensures Has(XX2, S) && Has(XX2, Stamp) && Count(XX2) <= 5
  {
  }

  lemma XkFirst()
    ensures Sendable(XkMsg1, ResponderKnown) && Next(XkMsg1, ResponderKnown) == XkAfter1
    ensures !Has(XK1, S) && !Has(XK1, Stamp) && Count(XK1) <= 5
  {
  }

  lemma XkSecond()
    ensures Sendable(XkMsg2, XkAfter1) && Next(XkMsg2, XkAfter1) == After2
    ensures !Has(XK2, S) && Has(XK2, Stamp) && Count(XK2) <= 5
  {
  }

  lemma Third()
    ensures Sendable(XxMsg3, After2) && Sendable(XkMsg3, After2)
    ensures Has(XX3, S) && Has(XX3, Stamp) && Count(XX3) <= 5
  {
  }

  /** Every honest XX run completes and the two ends agree, whatever the keys, epochs and payloads. */
  lemma {:induction false} XxAgreement(c: Suite, name: Bytes, sI: Bytes, sR: Bytes, eI: Bytes, eR: Bytes,
                                       epI: Epoch, epR: Epoch,
                    neg2: Option<Bytes>, neg3: Option<Bytes>)
    requires Lawful(c) && ValidPayload(neg2) && ValidPayload(neg3)
    ensures var i := NewXx(c, name, Initiator, sI).(localEpoch := Some(epI));
      var r := NewXx(c, name, Responder, sR).(localEpoch := Some(epR));
      var out := AllThree(c, i, r, Script(XxMsg1, XxMsg2, XxMsg3, neg2, neg3), eI, eR);
      && out.Ok? && Agreed(c, out.value.0, out.value.1)
      && out.value.0.rs == Some(c.pub(sR)) && out.value.1.rs == Some(c.pub(sI))
      && out.value.0.remoteEpoch == Some(epR) && out.value.1.remoteEpoch == Some(epI)
  {
    var i := NewXx(c, name, Initiator, sI).(localEpoch := Some(epI));
    var r := NewXx(c, name, Responder, sR).(localEpoch := Some(epR));
    XxFirst(); XxSecond(); Third();
    AllThreeAgree(c, i, r, Script(XxMsg1, XxMsg2, XxMsg3, neg2, neg3), eI, eR, NoKeys);
  }

  /** The same for XK, even when the initiator holds the responder's key with the wrong parity. */
  lemma {:induction false} XkAgreement(c: Suite, name: Bytes, sI: Bytes, sR: Bytes, known: Bytes, eI: Bytes,
                                       eR: Bytes, epI: Epoch, epR: Epoch)
    requires Lawful(c) && c.valid(known) && XOnly(known) == XOnly(c.pub(sR))
    ensures var i := NewInitiator(c, name, sI, known).(localEpoch := Some(epI));
      var r := NewResponder(c, name, sR).(localEpoch := Some(epR));
      var out := AllThree(c, i, r, Script(XkMsg1, XkMsg2, XkMsg3, None, None), eI, eR);
      && out.Ok? && Agreed(c, out.value.0, out.value.1)
      && out.value.0.rs == Some(known) && out.value.1.rs == Some(c.pub(sI))
      && out.value.0.remoteEpoch == Some(epR) && out.value.1.remoteEpoch == Some(epI)
  {
    var i := NewInitiator(c, name, sI, known).(localEpoch := Some(epI));
    var r := NewResponder(c, name, sR).(localEpoch := Some(epR));
    SameStart(c, name, sI, sR, known);
    XkFirst(); XkSecond(); Third();
    AllThreeAgree(c, i, r, Script(XkMsg1, XkMsg2, XkMsg3, None, None), eI, eR, ResponderKnown);
  }

  /** Normalizing the parity makes both ends hash the same pre-message. */
  lemma {:induction false} SameStart(c: Suite, name: Bytes, sI: Bytes, sR: Bytes, known: Bytes)
    requires Lawful(c) && c.valid(known) && XOnly(known) == XOnly(c.pub(sR))
    ensures InSync(c, NewInitiator(c, name, sI, known), NewResponder(c, name, sR))
  {
    assert |known| == |c.pub(sR)| == PUBKEY_SIZE;
    assert Normalized(known) == Normalized(c.pub(sR));
  }

  // ----- IK: two messages -----

  function BothIk(c: Suite, i: Party, r: Party, eI: Bytes, eR: Bytes, m1: Message, m2: Message)
    : Result<(Party, Party)>
  {
    var one := Round(c, i, r, m1, eI, None);
    if one.Err? then one else Round(c, one.value.1, one.value.0, m2, eR, None)
  }

  lemma BothAgree(c: Suite, i: Party, r: Party, eI: Bytes, eR: Bytes, m1: Message, m2: Message, k: Keyring)
    requires Lawful(c) && Stage(c, i, r, Initiator, Initial, k) && i.sym.cipher.nonce <= 10 && i.rs.Some?
    requires m1.sender.Initiator? && m2.sender.Responder? && m1.from.Initial? && m1.to == m2.from && m2.to.Complete?
    requires Count(m1.tokens) <= 5 && Count(m2.tokens) <= 5
    requires Sendable(m1, k) && Sendable(m2, Next(m1, k))
    requires Has(m1.tokens, S) && Has(m1.tokens, Stamp) && !Has(m2.tokens, S) && Has(m2.tokens, Stamp)
    ensures var out := BothIk(c, i, r, eI, eR, m1, m2);
      && out.Ok? && Agreed(c, out.value.1, out.value.0)
      && out.value.1.rs == i.rs && out.value.0.rs == Some(c.pub(i.s))
      && out.value.1.remoteEpoch == r.localEpoch && out.value.0.remoteEpoch == i.localEpoch
  {
    RoundAgrees(c, i, r, m1, eI, None, k);
    var (i1, r1) := Round(c, i, r, m1, eI, None).value;
    RoundAgrees(c, r1, i1, m2, eR, None, Next(m1, k));
    var (r2, i2) := Round(c, r1, i1, m2, eR, None).value;
    FinishedAgree(c, i2, r2);
  }

  lemma {:induction false} IkPlayable()
    ensures Sendable(IkMsg1, ResponderKnown) && Sendable(IkMsg2, Next(IkMsg1, ResponderKnown))
    ensures Has(IK1, S) && Has(IK1, Stamp) && !Has(IK2, S) && Has(IK2, Stamp) && Count(IK1) <= 5 && Count(IK2) <= 5
  {
    assert Next(IkMsg1, ResponderKnown) == Keyring(false, true, true, true, false, true, true);
  }

  /** IK: agreement in two messages, again with either parity of the responder's key. */
  lemma {:induction false} IkAgreement(c: Suite, name: Bytes, sI: Bytes, sR: Bytes, known: Bytes, eI: Bytes,
                                       eR: Bytes, epI: Epoch, epR: Epoch)
    requires Lawful(c) && c.valid(known) && XOnly(known) == XOnly(c.pub(sR))
    ensures var i := NewInitiator(c, name, sI, known).(localEpoch := Some(epI));
      var r := NewResponder(c, name, sR).(localEpoch := Some(epR));
      var out := BothIk(c, i, r, eI, eR, IkMsg1, IkMsg2);
      && out.Ok? && Agreed(c, out.value.1, out.value.0)
      && out.value.1.rs == Some(known) && out.value.0.rs == Some(c.pub(sI))
      && out.value.1.remoteEpoch == Some(epR) && out.value.0.remoteEpoch == Some(epI)
  {
    var i := NewInitiator(c, name, sI, known).(localEpoch := Some(epI));
    var r := NewResponder(c, name, sR).(localEpoch := Some(epR));
    SameStart(c, name, sI, sR, known);
    IkPlayable();
    BothAgree(c, i, r, eI, eR, IkMsg1, IkMsg2, ResponderKnown);
  }

  // ----- what is refused -----

  lemma {:induction false} TokensInTurn(c: Suite, p: Party, ts: Tokens, eph: Bytes, msg: Bytes)
    ensures WriteTokens(c, p, ts, eph).1 != Err(WrongState) && ReadTokens(c, p, ts, msg).1 != Err(WrongState)
    decreases ts
  {
    if ts.Then? {
      var (q, first) := WriteToken(c, p, ts.head, eph);
      if first.Ok? { TokensInTurn(c, q, ts.rest, eph, msg); }
      var (r, left) := ReadToken(c, p, ts.head, msg);
      if left.Ok? { TokensInTurn(c, r, ts.rest, eph, left.value); }
    }
  }

  /** A message is out of turn exactly for the wrong role or progress; then, and on a message of another size,
      nothing changes. One that is written or read moves the progress on, and there is no session before the last. */
  lemma {:induction false} OutOfTurn(c: Suite, p: Party, m: Message, eph: Bytes, msg: Bytes)
    ensures Write(c, p, m, eph).1 == Err(WrongState) <==> p.role != m.sender || p.progress != m.from
    ensures Read(c, p, m, msg).1 == Err(WrongState) <==> p.role == m.sender || p.progress != m.from
    ensures Write(c, p, m, eph).1 == Err(WrongState) ==> Write(c, p, m, eph).0 == p
    ensures Read(c, p, m, msg).1 == Err(WrongState) || |msg| != m.size ==>
      Read(c, p, m, msg).0 == p && Read(c, p, m, msg).1.Err?
    ensures Write(c, p, m, eph).1.Ok? ==> Write(c, p, m, eph).0.progress == m.to
    ensures Read(c, p, m, msg).1.Ok? ==> Read(c, p, m, msg).0.progress == m.to
    ensures IntoSession(c, p) == Err(HandshakeNotComplete) <==> !p.progress.Complete?
  {
    TokensInTurn(c, p, m.tokens, eph, msg);
  }

  /** Every public key of the peer that this end holds is valid. */
  predicate HoldsValidKeys(c: Suite, p: Party) {
    (p.re.Some? ==> c.valid(p.re.value)) && (p.rs.Some? ==> c.valid(p.rs.value))
  }

  /** Reading keeps it so, whatever is read and however it ends. */
  lemma {:induction false} ReadingKeepsKeysValid(c: Suite, p: Party, ts: Tokens, msg: Bytes)
    requires HoldsValidKeys(c, p)
    ensures HoldsValidKeys(c, ReadTokens(c, p, ts, msg).0)
    decreases ts
  {
    if ts.Then? {
      var (q, left) := ReadToken(c, p, ts.head, msg);
      if left.Ok? { ReadingKeepsKeysValid(c, q, ts.rest, left.value); }
    }
  }

  // ----- rollback of message 2 -----

  datatype Rollback = Rollback(sym: Symmetric, re: Option<Bytes>, rs: Option<Bytes>, remoteEpoch: Option<Epoch>,
                               progress: Progress)

  function Saved(p: Party): Rollback {
    Rollback(p.sym, p.re, p.rs, p.remoteEpoch, p.progress)
  }

  function Restore(p: Party, saved: Rollback): Party {
    p.(sym := saved.sym, re := saved.re, rs := saved.rs, remoteEpoch := saved.remoteEpoch, progress := saved.progress)
  }

  function TryReadMessage2(c: Suite, p: Party, msg: Bytes): (Party, Result<Rollback>) {
    var (q, ok) := Read(c, p, XxMsg2, msg);
    if ok.Ok? then (q, Ok(Saved(p))) else (Restore(q, Saved(p)), Err(ok.error))
  }

  /** XK message 2 carries no static key, so its rollback leaves the remote static alone. */
  function TryReadXkMessage2(c: Suite, p: Party, msg: Bytes): (Party, Result<()>) {
    var (q, ok) := Read(c, p, XkMsg2, msg);
    if ok.Ok? then (q, ok)
    else (q.(sym := p.sym, re := p.re, remoteEpoch := p.remoteEpoch, progress := p.progress), ok)
  }

  /** Reading tokens writes only the symmetric state and what is known of the peer; the remote static
      only if the list carries one. */
  lemma {:induction false} ReadFrame(c: Suite, p: Party, ts: Tokens, msg: Bytes)
    ensures var q := ReadTokens(c, p, ts, msg).0;
      && q == p.(sym := q.sym, re := q.re, rs := q.rs, remoteEpoch := q.remoteEpoch)
      && (!Has(ts, S) ==> q.rs == p.rs)
    decreases ts
  {
    if ts.Then? {
      var (q, left) := ReadToken(c, p, ts.head, msg);
      if left.Ok? { ReadFrame(c, q, ts.rest, left.value); }
    }
  }

  /** The saved fields are exactly what reading message 2, and a payload after it, can change:
      restoring gives back the whole handshake, for every message, accepted or not. */
  lemma RollbackIsExact(c: Suite, p: Party, m: Message, msg: Bytes, extra: Bytes)
    ensures Restore(Read(c, p, m, msg).0, Saved(p)) == p
    ensures Restore(DecryptPayload(c, Read(c, p, m, msg).0, extra).0, Saved(p)) == p
  {
    ReadFrame(c, p, m.tokens, msg);
  }

  /** A refused message 2 leaves the handshake exactly as it was, in XX and in XK. */
  lemma {:induction false} RefusedReadChangesNothing(c: Suite, p: Party, msg: Bytes)
    ensures TryReadMessage2(c, p, msg).1.Err? ==> TryReadMessage2(c, p, msg).0 == p
    ensures TryReadXkMessage2(c, p, msg).1.Err? ==> TryReadXkMessage2(c, p, msg).0 == p
  {
    RollbackIsExact(c, p, XxMsg2, msg, []);
    XkSecond();
    ReadFrame(c, p, XK2, msg);
  }
}
