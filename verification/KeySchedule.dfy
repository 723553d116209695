/** What each handshake message contains and what the keys of a finished handshake are derived from, spelled
    out from the secrets. */
module KeySchedule {
  import opened Results
  import opened Words
  import opened Crypto
  import opened Noise
  import opened Patterns
  import opened Handshakes
  import Replay

  /** The chaining key after mixing in a secret, and the cipher key that comes with it. */
  function K(c: Suite, ck: Bytes, secret: Bytes): Bytes {
    c.kdf(ck, secret).0
  }

  function Key(c: Suite, ck: Bytes, secret: Bytes): Bytes {
    c.kdf(ck, secret).1
  }

  /** A public key fits a message. */
  lemma KeyFits(c: Suite, s: Bytes)
    requires Lawful(c)
    ensures |c.pub(s)| == 33
  {
    assert c.valid(c.pub(s));
  }

  // ----- the start -----

  /** The protocol name itself, padded with zeros to 32 bytes, or its hash if it is longer; no key yet. */
  lemma StartIsTheName(c: Suite, name: Bytes)
    ensures var sym := Initialize(c, name);
      && sym.ck == sym.h && !sym.cipher.hasKey && sym.cipher.nonce == 0
      && (|name| > 32 ==> sym.h == c.hash(name))
      && (|name| <= 32 ==> |sym.h| == 32 && sym.h[..|name|] == name && forall i | |name| <= i < 32 :: sym.h[i] == 0)
  {
  }

  /** XX starts from the name alone; IK and XK also hash the responder's x coordinate behind a byte 2. */
  lemma StartHashes(c: Suite, name: Bytes, s: Bytes, known: Bytes, role: Role)
    requires |known| == 33
    ensures NewXx(c, name, role, s).sym == Initialize(c, name)
    ensures var h := Initialize(c, name).h;
      && NewInitiator(c, name, s, known).sym == Initialize(c, name).(h := c.hash(h + ([2] + XOnly(known))))
      && NewInitiator(c, name, s, known).rs == Some(known)
  {
  }

  // ----- steps of a message -----

  lemma SendKey(c: Suite, p: Party, rest: Tokens, eph: Bytes, sent: Bytes)
    ensures var q := p.(e := Some(eph), sym := Symmetric(p.sym.ck, c.hash(p.sym.h + c.pub(eph)), p.sym.cipher));
      WriteMore(c, p, Then(E, rest), eph, sent) == WriteMore(c, q, rest, eph, sent + c.pub(eph))
  {
    WriteMoreStep(c, p, Then(E, rest), eph, sent);
  }

  lemma Mix(c: Suite, p: Party, t: Token, rest: Tokens, eph: Bytes, sent: Bytes, secret: Bytes)
    requires (t.EE? || t.ES? || t.SE? || t.SS?) && SharedSecret(c, p, t) == Some(secret)
    ensures var cipher := CipherState(Key(c, p.sym.ck, secret), 0, true);
      var q := p.(sym := Symmetric(K(c, p.sym.ck, secret), p.sym.h, cipher));
      WriteMore(c, p, Then(t, rest), eph, sent) == WriteMore(c, q, rest, eph, sent)
  {
    WriteMoreStep(c, p, Then(t, rest), eph, sent);
    assert sent + [] == sent;
  }

  /** What a token sends sealed. */
  predicate Plain(c: Suite, p: Party, t: Token, plain: Bytes) {
    && |plain| <= 65519
    && ((t.S? && plain == c.pub(p.s)) || (t.Stamp? && p.localEpoch.Some? && p.localEpoch.value == plain))
  }

  lemma Seal(c: Suite, p: Party, t: Token, rest: Tokens, eph: Bytes, sent: Bytes, plain: Bytes)
    requires Plain(c, p, t, plain) && p.sym.cipher.hasKey && p.sym.cipher.nonce < U64_MAX
    ensures var x := p.sym.cipher;
      var sealed := c.seal(x.key, x.nonce, [], plain);
      var q := p.(sym := Symmetric(p.sym.ck, c.hash(p.sym.h + sealed), CipherState(x.key, x.nonce + 1, true)));
      WriteMore(c, p, Then(t, rest), eph, sent) == WriteMore(c, q, rest, eph, sent + sealed)
  {
    WriteMoreStep(c, p, Then(t, rest), eph, sent);
  }

  /** A secret mixed in and something sealed under the key it gives. */
  function SealedUnder(c: Suite, p: Party, secret: Bytes, plain: Bytes): Bytes {
    c.seal(Key(c, p.sym.ck, secret), 0, [], plain)
  }

  function AfterMixSeal(c: Suite, p: Party, secret: Bytes, plain: Bytes): Party {
    p.(sym := Symmetric(K(c, p.sym.ck, secret), c.hash(p.sym.h + SealedUnder(c, p, secret, plain)),
                        CipherState(Key(c, p.sym.ck, secret), 1, true)))
  }

  lemma MixSeal(c: Suite, p: Party, t: Token, t2: Token, rest: Tokens, eph: Bytes, sent: Bytes, secret: Bytes,
                plain: Bytes)
    requires (t.EE? || t.ES? || t.SE? || t.SS?) && SharedSecret(c, p, t) == Some(secret) && Plain(c, p, t2, plain)
    ensures WriteMore(c, p, Then(t, Then(t2, rest)), eph, sent)
         == WriteMore(c, AfterMixSeal(c, p, secret, plain), rest, eph, sent + SealedUnder(c, p, secret, plain))
  {
    Mix(c, p, t, Then(t2, rest), eph, sent, secret);
    var cipher := CipherState(Key(c, p.sym.ck, secret), 0, true);
    Seal(c, p.(sym := Symmetric(K(c, p.sym.ck, secret), p.sym.h, cipher)), t2, rest, eph, sent, plain);
  }

  /** A message is its tokens behind the guards. */
  lemma Written(c: Suite, p: Party, m: Message, eph: Bytes, q: Party, msg: Bytes)
    requires p.role == m.sender && p.progress == m.from
    requires WriteMore(c, p, m.tokens, eph, []) == WriteMore(c, q, End, eph, msg)
    ensures Write(c, p, m, eph) == (q.(progress := m.to), Ok(msg))
  {
    WriteMoreStart(c, p, m.tokens, eph);
    WriteMoreEnd(c, q, eph, msg);
  }

  // ----- whole messages -----

  /** After an ephemeral key has been sent. */
  function Sent(c: Suite, p: Party, eph: Bytes): Party {
    p.(e := Some(eph), sym := Symmetric(p.sym.ck, c.hash(p.sym.h + c.pub(eph)), p.sym.cipher))
  }

  lemma FirstKey(c: Suite, p: Party, rest: Tokens, eph: Bytes)
    ensures WriteMore(c, p, Then(E, rest), eph, []) == WriteMore(c, Sent(c, p, eph), rest, eph, c.pub(eph))
  {
    SendKey(c, p, rest, eph, []);
    assert [] + c.pub(eph) == c.pub(eph);
  }

  /** `-> e` */
  lemma {:induction false} XxMessage1(c: Suite, p: Party, eph: Bytes)
    requires p.role.Initiator? && p.progress.Initial?
    ensures Write(c, p, XxMsg1, eph) == (Sent(c, p, eph).(progress := Message1Done), Ok(c.pub(eph)))
  {
    FirstKey(c, p, End, eph);
    Written(c, p, XxMsg1, eph, Sent(c, p, eph), c.pub(eph));
  }

  /** `<- e, ee, s, es`, epoch: the static key is sealed under the ephemeral secret, the epoch under both. */
  lemma {:induction false} XxMessage2(c: Suite, p: Party, eph: Bytes, re: Bytes, epoch: Epoch)
    requires Lawful(c) && p.role.Responder? && p.progress.Message1Done?
    requires p.re == Some(re) && p.localEpoch == Some(epoch)
    ensures var ee, es := c.dh(eph, re), c.dh(p.s, re);
      var p1 := Sent(c, p, eph);
      var p2 := AfterMixSeal(c, p1, ee, c.pub(p.s));
      Write(c, p, XxMsg2, eph)
        == (AfterMixSeal(c, p2, es, epoch).(progress := Message2Done),
            Ok(c.pub(eph) + SealedUnder(c, p1, ee, c.pub(p.s)) + SealedUnder(c, p2, es, epoch)))
  {
    var ee, es := c.dh(eph, re), c.dh(p.s, re);
    KeyFits(c, p.s);
    FirstKey(c, p, XX2.rest, eph);
    var p1 := Sent(c, p, eph);
    MixSeal(c, p1, EE, S, XX2.rest.rest.rest, eph, c.pub(eph), ee, c.pub(p.s));
    var p2 := AfterMixSeal(c, p1, ee, c.pub(p.s));
    var sent := c.pub(eph) + SealedUnder(c, p1, ee, c.pub(p.s));
    MixSeal(c, p2, ES, Stamp, End, eph, sent, es, epoch);
    Written(c, p, XxMsg2, eph, AfterMixSeal(c, p2, es, epoch), sent + SealedUnder(c, p2, es, epoch));
  }

  /** `-> s, se`, epoch, in XX and in XK: the static key is sealed under the key the last message left. */
  lemma {:induction false} Message3(c: Suite, p: Party, eph: Bytes, re: Bytes, epoch: Epoch)
    requires Lawful(c) && p.role.Initiator? && p.progress.Message2Done?
    requires p.re == Some(re) && p.localEpoch == Some(epoch)
    requires p.sym.cipher.hasKey && p.sym.cipher.nonce < U64_MAX
    ensures XxMsg3 == XkMsg3
    ensures var x, se := p.sym.cipher, c.dh(p.s, re);
      var sealed := c.seal(x.key, x.nonce, [], c.pub(p.s));
      var p1 := p.(sym := Symmetric(p.sym.ck, c.hash(p.sym.h + sealed), CipherState(x.key, x.nonce + 1, true)));
      Write(c, p, XxMsg3, eph)
        == (AfterMixSeal(c, p1, se, epoch).(progress := Complete), Ok(sealed + SealedUnder(c, p1, se, epoch)))
  {
    var x, se := p.sym.cipher, c.dh(p.s, re);
    KeyFits(c, p.s);
    var sealed := c.seal(x.key, x.nonce, [], c.pub(p.s));
    Seal(c, p, S, XX3.rest, eph, [], c.pub(p.s));
    assert [] + sealed == sealed;
    var p1 := p.(sym := Symmetric(p.sym.ck, c.hash(p.sym.h + sealed), CipherState(x.key, x.nonce + 1, true)));
    MixSeal(c, p1, SE, Stamp, End, eph, sealed, se, epoch);
    Written(c, p, XxMsg3, eph, AfterMixSeal(c, p1, se, epoch), sealed + SealedUnder(c, p1, se, epoch));
  }

  /** `-> e, es`: only the key crosses; what it agrees with the known static key is mixed in. */
  lemma {:induction false} XkMessage1(c: Suite, p: Party, eph: Bytes, rs: Bytes)
    requires p.role.Initiator? && p.progress.Initial? && p.rs == Some(rs)
    ensures var (ck, key) := c.kdf(p.sym.ck, c.dh(eph, rs));
      var sym := Symmetric(ck, c.hash(p.sym.h + c.pub(eph)), CipherState(key, 0, true));
      Write(c, p, XkMsg1, eph) == (p.(e := Some(eph), sym := sym, progress := Message1Done), Ok(c.pub(eph)))
  {
    FirstKey(c, p, XK1.rest, eph);
    var es := c.dh(eph, rs);
    Mix(c, Sent(c, p, eph), ES, End, eph, c.pub(eph), es);
    var (ck, key) := c.kdf(p.sym.ck, es);
    var sym := Symmetric(ck, c.hash(p.sym.h + c.pub(eph)), CipherState(key, 0, true));
    Written(c, p, XkMsg1, eph, p.(e := Some(eph), sym := sym), c.pub(eph));
  }

  /** `<- e, ee`, epoch. */
  lemma {:induction false} XkMessage2(c: Suite, p: Party, eph: Bytes, re: Bytes, epoch: Epoch)
    requires p.role.Responder? && p.progress.Message1Done? && p.re == Some(re) && p.localEpoch == Some(epoch)
    ensures var ee, p1 := c.dh(eph, re), Sent(c, p, eph);
      Write(c, p, XkMsg2, eph)
        == (AfterMixSeal(c, p1, ee, epoch).(progress := Message2Done), Ok(c.pub(eph) + SealedUnder(c, p1, ee, epoch)))
  {
    FirstKey(c, p, XK2.rest, eph);
    var ee, p1 := c.dh(eph, re), Sent(c, p, eph);
    MixSeal(c, p1, EE, Stamp, End, eph, c.pub(eph), ee, epoch);
    Written(c, p, XkMsg2, eph, AfterMixSeal(c, p1, ee, epoch), c.pub(eph) + SealedUnder(c, p1, ee, epoch));
  }

  /** `-> e, es, s, ss`, epoch. */
  lemma {:induction false} IkMessage1(c: Suite, p: Party, eph: Bytes, rs: Bytes, epoch: Epoch)
    requires Lawful(c) && p.role.Initiator? && p.progress.Initial? && p.rs == Some(rs) && p.localEpoch == Some(epoch)
    ensures var es, ss := c.dh(eph, rs), c.dh(p.s, rs);
      var p1 := Sent(c, p, eph);
      var p2 := AfterMixSeal(c, p1, es, c.pub(p.s));
      Write(c, p, IkMsg1, eph)
        == (AfterMixSeal(c, p2, ss, epoch).(progress := Message1Done),
            Ok(c.pub(eph) + SealedUnder(c, p1, es, c.pub(p.s)) + SealedUnder(c, p2, ss, epoch)))
  {
    var es, ss := c.dh(eph, rs), c.dh(p.s, rs);
    KeyFits(c, p.s);
    FirstKey(c, p, IK1.rest, eph);
    var p1 := Sent(c, p, eph);
    MixSeal(c, p1, ES, S, IK1.rest.rest.rest, eph, c.pub(eph), es, c.pub(p.s));
    var p2 := AfterMixSeal(c, p1, es, c.pub(p.s));
    var sent := c.pub(eph) + SealedUnder(c, p1, es, c.pub(p.s));
    MixSeal(c, p2, SS, Stamp, End, eph, sent, ss, epoch);
    Written(c, p, IkMsg1, eph, AfterMixSeal(c, p2, ss, epoch), sent + SealedUnder(c, p2, ss, epoch));
  }

  /** `<- e, ee`, then the responder's static with the initiator's ephemeral once more, epoch. */
  lemma {:induction false} IkMessage2(c: Suite, p: Party, eph: Bytes, re: Bytes, epoch: Epoch)
    requires p.role.Responder? && p.progress.Message1Done? && p.re == Some(re) && p.localEpoch == Some(epoch)
    ensures var ee, es := c.dh(eph, re), c.dh(p.s, re);
      var (ck, key) := c.kdf(p.sym.ck, ee);
      var p1 := p.(e := Some(eph), sym := Symmetric(ck, c.hash(p.sym.h + c.pub(eph)), CipherState(key, 0, true)));
      Write(c, p, IkMsg2, eph)
        == (AfterMixSeal(c, p1, es, epoch).(progress := Complete), Ok(c.pub(eph) + SealedUnder(c, p1, es, epoch)))
  {
    var ee, es := c.dh(eph, re), c.dh(p.s, re);
    FirstKey(c, p, IK2.rest, eph);
    Mix(c, Sent(c, p, eph), EE, IK2.rest.rest, eph, c.pub(eph), ee);
    var (ck, key) := c.kdf(p.sym.ck, ee);
    var p1 := p.(e := Some(eph), sym := Symmetric(ck, c.hash(p.sym.h + c.pub(eph)), CipherState(key, 0, true)));
    MixSeal(c, p1, ES, Stamp, End, eph, c.pub(eph), es, epoch);
    Written(c, p, IkMsg2, eph, AfterMixSeal(c, p1, es, epoch), c.pub(eph) + SealedUnder(c, p1, es, epoch));
  }

  // ----- whole runs -----

  /** A payload after a message changes neither the chaining key nor the writer's keys. */
  lemma RoundKeeps(c: Suite, w: Party, r: Party, m: Message, eph: Bytes, payload: Option<Bytes>)
    requires Round(c, w, r, m, eph, payload).Ok?
    ensures var w2 := Round(c, w, r, m, eph, payload).value.0;
      var w1 := Write(c, w, m, eph).0;
      w2.sym.ck == w1.sym.ck && w2.e == w1.e && w2.s == w1.s
  {
  }

  lemma {:induction false} XxRound1(c: Suite, i: Party, r: Party, eI: Bytes)
    requires Lawful(c) && Stage(c, i, r, Initiator, Initial, NoKeys) && i.sym.cipher.nonce <= 10
    ensures var out := Round(c, i, r, XxMsg1, eI, None);
      && out.Ok?
      && var (i1, r1) := out.value;
      && Stage(c, r1, i1, Responder, Message1Done, XxAfter1) && r1.sym.cipher.nonce <= 20
      && r1.sym.ck == i.sym.ck && r1.re == Some(c.pub(eI)) && r1.s == r.s && i1.s == i.s
  {
    XxFirst();
    RoundAgrees(c, i, r, XxMsg1, eI, None, NoKeys);
    XxMessage1(c, i, eI);
    RoundKeeps(c, i, r, XxMsg1, eI, None);
  }

  lemma {:induction false} XxRound2(c: Suite, r: Party, i: Party, re: Bytes, eR: Bytes, neg2: Option<Bytes>)
    requires Lawful(c) && Stage(c, r, i, Responder, Message1Done, XxAfter1) && r.sym.cipher.nonce <= 20
    requires r.re == Some(re) && ValidPayload(neg2)
    ensures var out := Round(c, r, i, XxMsg2, eR, neg2);
      && out.Ok?
      && var (r2, i2) := out.value;
      && Stage(c, i2, r2, Initiator, Message2Done, After2) && i2.sym.cipher.nonce <= 30
      && i2.sym.ck == K(c, K(c, r.sym.ck, c.dh(eR, re)), c.dh(r.s, re)) && i2.re == Some(c.pub(eR)) && i2.s == i.s
  {
    XxSecond();
    RoundAgrees(c, r, i, XxMsg2, eR, neg2, XxAfter1);
    XxMessage2(c, r, eR, re, r.localEpoch.value);
    RoundKeeps(c, r, i, XxMsg2, eR, neg2);
  }

  lemma {:induction false} XkRound1(c: Suite, i: Party, r: Party, rs: Bytes, eI: Bytes)
    requires Lawful(c) && Stage(c, i, r, Initiator, Initial, ResponderKnown) && i.sym.cipher.nonce <= 10
    requires i.rs == Some(rs)
    ensures var out := Round(c, i, r, XkMsg1, eI, None);
      && out.Ok?
      && var (i1, r1) := out.value;
      && Stage(c, r1, i1, Responder, Message1Done, XkAfter1) && r1.sym.cipher.nonce <= 20
      && r1.sym.ck == K(c, i.sym.ck, c.dh(eI, rs)) && r1.re == Some(c.pub(eI)) && r1.s == r.s && i1.s == i.s
  {
    XkFirst();
    RoundAgrees(c, i, r, XkMsg1, eI, None, ResponderKnown);
    XkMessage1(c, i, eI, rs);
    RoundKeeps(c, i, r, XkMsg1, eI, None);
  }

  lemma {:induction false} XkRound2(c: Suite, r: Party, i: Party, re: Bytes, eR: Bytes)
    requires Lawful(c) && Stage(c, r, i, Responder, Message1Done, XkAfter1) && r.sym.cipher.nonce <= 20
    requires r.re == Some(re)
    ensures var out := Round(c, r, i, XkMsg2, eR, None);
      && out.Ok?
      && var (r2, i2) := out.value;
      && Stage(c, i2, r2, Initiator, Message2Done, After2) && i2.sym.cipher.nonce <= 30
      && i2.sym.ck == K(c, r.sym.ck, c.dh(eR, re)) && i2.re == Some(c.pub(eR)) && i2.s == i.s
  {
    XkSecond();
    RoundAgrees(c, r, i, XkMsg2, eR, None, XkAfter1);
    XkMessage2(c, r, eR, re, r.localEpoch.value);
    RoundKeeps(c, r, i, XkMsg2, eR, None);
  }

  lemma {:induction false} Round3(c: Suite, i: Party, r: Party, re: Bytes, eI: Bytes, neg3: Option<Bytes>)
    requires Lawful(c) && Stage(c, i, r, Initiator, Message2Done, After2) && i.sym.cipher.nonce <= 30
    requires i.re == Some(re) && ValidPayload(neg3)
    ensures var out := Round(c, i, r, XxMsg3, eI, neg3);
      out.Ok? && out.value.0.role.Initiator? && out.value.0.sym.ck == K(c, i.sym.ck, c.dh(i.s, re))
  {
    Third();
    RoundAgrees(c, i, r, XxMsg3, eI, neg3, After2);
    Message3(c, i, eI, re, i.localEpoch.value);
    RoundKeeps(c, i, r, XxMsg3, eI, neg3);
  }

  const IkAfter1 := Keyring(false, true, true, true, false, true, true)

  lemma {:induction false} IkRound1(c: Suite, i: Party, r: Party, rs: Bytes, eI: Bytes)
    requires Lawful(c) && Stage(c, i, r, Initiator, Initial, ResponderKnown) && i.sym.cipher.nonce <= 10
    requires i.rs == Some(rs)
    ensures var out := Round(c, i, r, IkMsg1, eI, None);
      && out.Ok?
      && var (i1, r1) := out.value;
      && Stage(c, r1, i1, Responder, Message1Done, IkAfter1) && r1.sym.cipher.nonce <= 20
      && r1.sym.ck == K(c, K(c, i.sym.ck, c.dh(eI, rs)), c.dh(i.s, rs)) && r1.re == Some(c.pub(eI)) && r1.s == r.s
  {
    IkPlayable();
    IkKeys();
    RoundAgrees(c, i, r, IkMsg1, eI, None, ResponderKnown);
    IkMessage1(c, i, eI, rs, i.localEpoch.value);
    RoundKeeps(c, i, r, IkMsg1, eI, None);
  }

  lemma IkKeys()
    ensures Next(IkMsg1, ResponderKnown) == IkAfter1
  {
  }

  lemma {:induction false} IkRound2(c: Suite, r: Party, i: Party, re: Bytes, eR: Bytes)
    requires Lawful(c) && Stage(c, r, i, Responder, Message1Done, IkAfter1) && r.sym.cipher.nonce <= 20
    requires r.re == Some(re)
    ensures var out := Round(c, r, i, IkMsg2, eR, None);
      && out.Ok? && out.value.1.role.Initiator?
      && out.value.0.sym.ck == K(c, K(c, r.sym.ck, c.dh(eR, re)), c.dh(r.s, re))
  {
    IkPlayable();
    IkKeys();
    RoundAgrees(c, r, i, IkMsg2, eR, None, IkAfter1);
    IkMessage2(c, r, eR, re, r.localEpoch.value);
    RoundKeeps(c, r, i, IkMsg2, eR, None);
  }

  /** Two fresh sessions: the initiator sends under the first half of the last derivation and receives under
      the second, the responder the other way round. */
  ghost predicate KeyedBy(c: Suite, i: Party, r: Party, ck: Bytes) {
    var (k1, k2) := c.kdf(ck, []);
    var (there, back) := (CipherState(k1, 0, true), CipherState(k2, 0, true));
    && i.rs.Some? && r.rs.Some?
    && IntoSession(c, i) == Ok(Session(Initiator, there, back, i.sym.h, i.rs.value, Replay.FRESH))
    && IntoSession(c, r) == Ok(Session(Responder, back, there, i.sym.h, r.rs.value, Replay.FRESH))
  }

  lemma AgreedKeys(c: Suite, i: Party, r: Party)
    requires Agreed(c, i, r) && i.role.Initiator?
    ensures KeyedBy(c, i, r, i.sym.ck)
  {
  }

  /** XX: the keys of the two sessions come from the protocol name and the secrets ee, es and se, in that order. */
  lemma {:induction false} XxKeySchedule(c: Suite, name: Bytes, sI: Bytes, sR: Bytes, eI: Bytes, eR: Bytes,
                                         epI: Epoch, epR: Epoch, neg2: Option<Bytes>, neg3: Option<Bytes>)
    requires Lawful(c) && ValidPayload(neg2) && ValidPayload(neg3)
    ensures var i := NewXx(c, name, Initiator, sI).(localEpoch := Some(epI));
      var r := NewXx(c, name, Responder, sR).(localEpoch := Some(epR));
      var out := AllThree(c, i, r, Script(XxMsg1, XxMsg2, XxMsg3, neg2, neg3), eI, eR);
      var ee, es, se := c.dh(eI, c.pub(eR)), c.dh(eI, c.pub(sR)), c.dh(sI, c.pub(eR));
      out.Ok? && KeyedBy(c, out.value.0, out.value.1, K(c, K(c, K(c, Initialize(c, name).ck, ee), es), se))
  {
    var i := NewXx(c, name, Initiator, sI).(localEpoch := Some(epI));
    var r := NewXx(c, name, Responder, sR).(localEpoch := Some(epR));
    XxRound1(c, i, r, eI);
    var (i1, r1) := Round(c, i, r, XxMsg1, eI, None).value;
    XxRound2(c, r1, i1, c.pub(eI), eR, neg2);
    var (r2, i2) := Round(c, r1, i1, XxMsg2, eR, neg2).value;
    Round3(c, i2, r2, c.pub(eR), eI, neg3);
    var (i3, r3) := Round(c, i2, r2, XxMsg3, eI, neg3).value;
    assert c.dh(eI, c.pub(eR)) == c.dh(eR, c.pub(eI)) && c.dh(eI, c.pub(sR)) == c.dh(sR, c.pub(eI));
    XxAgreement(c, name, sI, sR, eI, eR, epI, epR, neg2, neg3);
    AgreedKeys(c, i3, r3);
  }

  /** XK: from es, ee and se; the parity the responder's key was given with makes no difference. */
  lemma {:induction false} XkKeySchedule(c: Suite, name: Bytes, sI: Bytes, sR: Bytes, known: Bytes, eI: Bytes,
                                         eR: Bytes, epI: Epoch, epR: Epoch)
    requires Lawful(c) && c.valid(known) && XOnly(known) == XOnly(c.pub(sR))
    ensures var i := NewInitiator(c, name, sI, known).(localEpoch := Some(epI));
      var r := NewResponder(c, name, sR).(localEpoch := Some(epR));
      var out := AllThree(c, i, r, Script(XkMsg1, XkMsg2, XkMsg3, None, None), eI, eR);
      var ee, es, se := c.dh(eI, c.pub(eR)), c.dh(eI, c.pub(sR)), c.dh(sI, c.pub(eR));
      out.Ok? && KeyedBy(c, out.value.0, out.value.1, K(c, K(c, K(c, Initialize(c, name).ck, es), ee), se))
  {
    var i := NewInitiator(c, name, sI, known).(localEpoch := Some(epI));
    var r := NewResponder(c, name, sR).(localEpoch := Some(epR));
    SameStart(c, name, sI, sR, known);
    XkRound1(c, i, r, known, eI);
    var (i1, r1) := Round(c, i, r, XkMsg1, eI, None).value;
    XkRound2(c, r1, i1, c.pub(eI), eR);
    var (r2, i2) := Round(c, r1, i1, XkMsg2, eR, None).value;
    Round3(c, i2, r2, c.pub(eR), eI, None);
    var (i3, r3) := Round(c, i2, r2, XkMsg3, eI, None).value;
    assert c.dh(eI, c.pub(eR)) == c.dh(eR, c.pub(eI)) && c.dh(eI, known) == c.dh(eI, c.pub(sR));
    XkAgreement(c, name, sI, sR, known, eI, eR, epI, epR);
    AgreedKeys(c, i3, r3);
  }

  /** IK: from es, ss, ee and es once more, where the pattern would have se. */
  lemma {:induction false} IkKeySchedule(c: Suite, name: Bytes, sI: Bytes, sR: Bytes, known: Bytes, eI: Bytes,
                                         eR: Bytes, epI: Epoch, epR: Epoch)
    requires Lawful(c) && c.valid(known) && XOnly(known) == XOnly(c.pub(sR))
    ensures var i := NewInitiator(c, name, sI, known).(localEpoch := Some(epI));
      var r := NewResponder(c, name, sR).(localEpoch := Some(epR));
      var out := BothIk(c, i, r, eI, eR, IkMsg1, IkMsg2);
      var ee, es, ss := c.dh(eI, c.pub(eR)), c.dh(eI, c.pub(sR)), c.dh(sI, c.pub(sR));
      out.Ok? && KeyedBy(c, out.value.1, out.value.0, K(c, K(c, K(c, K(c, Initialize(c, name).ck, es), ss), ee), es))
  {
    var i := NewInitiator(c, name, sI, known).(localEpoch := Some(epI));
    var r := NewResponder(c, name, sR).(localEpoch := Some(epR));
    SameStart(c, name, sI, sR, known);
    IkRound1(c, i, r, known, eI);
    var (i1, r1) := Round(c, i, r, IkMsg1, eI, None).value;
    IkRound2(c, r1, i1, c.pub(eI), eR);
    var (r2, i2) := Round(c, r1, i1, IkMsg2, eR, None).value;
    assert c.dh(eI, c.pub(eR)) == c.dh(eR, c.pub(eI)) && c.dh(eI, c.pub(sR)) == c.dh(sR, c.pub(eI));
    assert c.dh(eI, known) == c.dh(eI, c.pub(sR)) && c.dh(sI, known) == c.dh(sI, c.pub(sR));
    IkAgreement(c, name, sI, sR, known, eI, eR, epI, epR);
    AgreedKeys(c, i2, r2);
  }
}
