/** What no sequence of inbound messages can do to a session. */
module SessionSafety {
  import opened Results
  import Words
  import opened Crypto
  import opened Patterns
  import opened Handshakes
  import opened Sessions
  import Simultaneous
  import Replay
  import Negotiation

  // ----- forged acks -----

  /** An ack the initiator refuses: too short, or message 2, the negotiation payload or the identity is wrong. */
  predicate Refused(c: Suite, e: Entry, payload: Bytes)
    requires e.state.Initiating?
  {
    |payload| < XX2_SIZE || AcceptAck(c, e, e.state.handshake, payload).None?
  }

  /** A refused ack leaves the entry, handshake included, exactly as it was, and sends nothing. */
  lemma {:induction false} RefusedAckAbsorbed(c: Suite, n: Node, src: Addr, e: Entry, payload: Bytes, env: Env)
    requires e.state.Initiating? && Refused(c, e, payload)
    ensures HandleAck(c, n, src, Some(e), payload, env) == Outcome(Some(e), None)
  {
    var (base, neg) := SplitPayload(payload, XX2_SIZE);
    RollbackIsExact(c, e.state.handshake, XxMsg2, base, if neg.Some? then neg.value else []);
    RefusedReadChangesNothing(c, e.state.handshake, base);
  }

  datatype AckArrival = AckArrival(payload: Bytes, env: Env)

  function HandleAcks(c: Suite, n: Node, src: Addr, existing: Option<Entry>, acks: seq<AckArrival>): Option<Entry> {
    if acks == [] then existing
    else
      var before := HandleAcks(c, n, src, existing, acks[..|acks| - 1]);
      HandleAck(c, n, src, before, acks[|acks| - 1].payload, acks[|acks| - 1].env).entry
  }

  /** Any number of forged acks is absorbed: a later genuine one has exactly the effect it would have
      had with no forgeries before it. */
  lemma {:induction false} ForgedAcksAbsorbed(c: Suite, n: Node, src: Addr, e: Entry, forged: seq<AckArrival>,
                                              genuine: Bytes, env: Env)
    requires e.state.Initiating?
    requires forall i | 0 <= i < |forged| :: Refused(c, e, forged[i].payload)
    ensures HandleAcks(c, n, src, Some(e), forged) == Some(e)
    ensures HandleAck(c, n, src, HandleAcks(c, n, src, Some(e), forged), genuine, env)
         == HandleAck(c, n, src, Some(e), genuine, env)
    decreases |forged|
  {
    if forged != [] {
      ForgedAcksAbsorbed(c, n, src, e, forged[..|forged| - 1], genuine, env);
      var last := forged[|forged| - 1];
      RefusedAckAbsorbed(c, n, src, e, last.payload, last.env);
    }
  }

  // ----- established sessions -----

  datatype Event =
    | SetupIn(payload: Bytes, env: Env)
    | AckIn(payload: Bytes, env: Env)
    | Msg3In(payload: Bytes, env: Env)
    | DataIn(frame: Frame, now: nat)
    | RekeyTimer(env: Env)
    | Dial(key: Bytes, env: Env)

  function Next(c: Suite, n: Node, src: Addr, existing: Option<Entry>, ev: Event): Option<Entry> {
    match ev
    case SetupIn(payload, env) => HandleSetup(c, n, src, existing, payload, env).entry
    case AckIn(payload, env) => HandleAck(c, n, src, existing, payload, env).entry
    case Msg3In(payload, env) => HandleMsg3(c, n, src, existing, payload, env).entry
    case DataIn(frame, now) => HandleData(c, existing, frame, now)
    case RekeyTimer(env) => ArmRekey(c, n, existing, env).entry
    case Dial(key, env) => Initiate(c, n, existing, key, env).entry
  }

  /** A rekey we initiated and a completed one never coexist. */
  predicate Tidy(e: Entry) {
    e.rekey.Some? && e.rekeyInitiator ==> e.pending.None?
  }

  /** `ev` is accepted by the pending session of `e`, which it promotes. */
  predicate Promotes(c: Suite, e: Entry, ev: Event) {
    ev.DataIn? && e.pending.Some? && Accepts(c, e.pending.value, ev.frame)
  }

  /** The pending session changed only in a way an authenticated peer can cause. */
  ghost predicate PendingMove(e: Entry, e2: Entry, ev: Event) {
    || e2.pending == e.pending
    || (ev.DataIn? && e.pending.Some? && e2.pending.None?)
    || (ev.AckIn? && e.rekey.Some? && e.rekeyInitiator && e.pending.None?)
    || (ev.Msg3In? && e2.pending.Some? && XOnly(e2.pending.value.remoteStatic) == XOnly(e.remoteKey))
  }

  ghost predicate Survives(c: Suite, e: Entry, e2: Entry, ev: Event) {
    && e.state.Established? && e2.state.Established? && e2.remoteKey == e.remoteKey && Tidy(e2)
    && (SameKeys(e2.state.session, e.state.session)
        || (Promotes(c, e, ev) && SameKeys(e2.state.session, e.pending.value) && e2.previous == Some(e.state.session)))
    && PendingMove(e, e2, ev)
  }

  lemma SurvivesData(c: Suite, n: Node, src: Addr, e: Entry, f: Frame, now: nat)
    requires e.state.Established? && Tidy(e)
    ensures var ev := DataIn(f, now); var after := Next(c, n, src, Some(e), ev);
      after.Some? && Survives(c, e, after.value, ev)
  {
  }

  lemma SurvivesRest(c: Suite, n: Node, src: Addr, e: Entry, ev: Event)
    requires e.state.Established? && Tidy(e) && !ev.DataIn?
    ensures var after := Next(c, n, src, Some(e), ev);
      after.Some? && Survives(c, e, after.value, ev)
  {
  }

  /** One event: an established entry stays established with the same peer key; its current session
      changes only by promoting a pending session that accepts the event's frame; and its pending
      session is displaced only by promotion or by a message 3 of the same peer. */
  lemma {:induction false} EstablishedStep(c: Suite, n: Node, src: Addr, e: Entry, ev: Event)
    requires e.state.Established? && Tidy(e)
    ensures Next(c, n, src, Some(e), ev).Some? && Survives(c, e, Next(c, n, src, Some(e), ev).value, ev)
  {
    if ev.DataIn? { SurvivesData(c, n, src, e, ev.frame, ev.now); } else { SurvivesRest(c, n, src, e, ev); }
  }

  function Run(c: Suite, n: Node, src: Addr, existing: Option<Entry>, evs: seq<Event>): Option<Entry> {
    if evs == [] then existing else Next(c, n, src, Run(c, n, src, existing, evs[..|evs| - 1]), evs[|evs| - 1])
  }

  /** The states before and after event `i` of a run. */
  ghost predicate SurvivesAt(c: Suite, n: Node, src: Addr, e: Entry, evs: seq<Event>, i: nat)
    requires i < |evs|
  {
    var before, after := Run(c, n, src, Some(e), evs[..i]), Run(c, n, src, Some(e), evs[..i + 1]);
    before.Some? && after.Some? && Survives(c, before.value, after.value, evs[i])
  }

  lemma {:induction false} RunStep(c: Suite, n: Node, src: Addr, existing: Option<Entry>, evs: seq<Event>, i: nat)
    requires i < |evs|
    ensures Run(c, n, src, existing, evs[..i + 1]) == Next(c, n, src, Run(c, n, src, existing, evs[..i]), evs[i])
  {
    assert evs[..i + 1][..i] == evs[..i];
  }

  lemma {:induction false} TidyAlong(c: Suite, n: Node, src: Addr, e: Entry, evs: seq<Event>, i: nat)
    requires e.state.Established? && Tidy(e) && i <= |evs|
    ensures var x := Run(c, n, src, Some(e), evs[..i]);
      x.Some? && x.value.state.Established? && x.value.remoteKey == e.remoteKey && Tidy(x.value)
    ensures i < |evs| ==> SurvivesAt(c, n, src, e, evs, i)
    decreases i
  {
    if i > 0 {
      TidyAlong(c, n, src, e, evs, i - 1);
    }
    if i < |evs| {
      RunStep(c, n, src, Some(e), evs, i);
      EstablishedStep(c, n, src, Run(c, n, src, Some(e), evs[..i]).value, evs[i]);
    }
  }

  /** Some event of the first `k` promoted the then-pending session. */
  ghost predicate PromotedBefore(c: Suite, n: Node, src: Addr, e: Entry, evs: seq<Event>, k: nat)
    requires k <= |evs|
  {
    exists i | 0 <= i < k ::
      Run(c, n, src, Some(e), evs[..i]).Some? && Promotes(c, Run(c, n, src, Some(e), evs[..i]).value, evs[i])
  }

  lemma {:induction false} KeptOrPromoted(c: Suite, n: Node, src: Addr, e: Entry, evs: seq<Event>, k: nat)
    requires e.state.Established? && Tidy(e) && k <= |evs|
    ensures var x := Run(c, n, src, Some(e), evs[..k]);
      x.Some? && x.value.state.Established?
      && (SameKeys(x.value.state.session, e.state.session) || PromotedBefore(c, n, src, e, evs, k))
    decreases k
  {
    TidyAlong(c, n, src, e, evs, k);
    if k > 0 {
      KeptOrPromoted(c, n, src, e, evs, k - 1);
      TidyAlong(c, n, src, e, evs, k - 1);
      assert SurvivesAt(c, n, src, e, evs, k - 1);
    }
  }

  /** Over any sequence of events every step is a surviving one: the entry stays established with its
      remote key, its session changes only by promoting the pending one, and the pending one only as
      `PendingMove` allows. So the session is the one it was unless some frame of the sequence was
      accepted by the then-pending session. */
  lemma {:induction false} EstablishedSurvives(c: Suite, n: Node, src: Addr, e: Entry, evs: seq<Event>)
    requires e.state.Established? && Tidy(e)
    ensures forall i | 0 <= i < |evs| :: SurvivesAt(c, n, src, e, evs, i)
    ensures var last := Run(c, n, src, Some(e), evs);
      && last.Some? && last.value.state.Established? && last.value.remoteKey == e.remoteKey && Tidy(last.value)
      && (SameKeys(last.value.state.session, e.state.session) || PromotedBefore(c, n, src, e, evs, |evs|))
  {
    forall i | 0 <= i < |evs| ensures SurvivesAt(c, n, src, e, evs, i) { TidyAlong(c, n, src, e, evs, i); }
    assert evs[..|evs|] == evs;
    TidyAlong(c, n, src, e, evs, |evs|);
    KeptOrPromoted(c, n, src, e, evs, |evs|);
  }

  // ----- no frame twice -----

  /** The slot that takes a frame keeps its session (the pending one by running it) and has closed the counter. */
  lemma {:induction false} TakenOnce(c: Suite, e: Entry, f: Frame, now: nat)
    requires e.state.Established? && TrialDecrypt(c, e, f).Some?
    ensures var after := HandleData(c, Some(e), f, now);
      && after.Some? && after.value.state.Established?
      && var (was, kept) := match TrialDecrypt(c, e, f).value
           case Current => (e.state.session, Some(after.value.state.session))
           case Pending => (e.pending.value, Some(after.value.state.session))
           case Previous => (e.previous.value, after.value.previous);
         kept.Some? && SameKeys(kept.value, was) && !kept.value.replay.Check(f.counter) && !Accepts(c, kept.value, f)
  {
    match TrialDecrypt(c, e, f).value
    case Current => Replay.ClosedStaysClosed(e.state.session.replay, f.counter, f.counter);
    case Pending => Replay.ClosedStaysClosed(e.pending.value.replay, f.counter, f.counter);
    case Previous => Replay.ClosedStaysClosed(e.previous.value.replay, f.counter, f.counter);
  }

  /** What else a frame changes: one refused by every slot nothing; one of the running session stops the
      retransmission of a message 3 whose session has been cut over to; one of the draining session restarts
      the drain; one of the pending session cuts over. */
  lemma {:induction false} FrameEffects(c: Suite, e: Entry, f: Frame, now: nat)
    requires e.state.Established?
    ensures var after := HandleData(c, Some(e), f, now);
      && after.Some?
      && var e2 := after.value;
      match TrialDecrypt(c, e, f)
      case None => e2 == e
      case Some(Current) => e2 == e.(state := e2.state, rekeyMsg3 := if e.pending.Some? then e.rekeyMsg3 else None)
      case Some(Pending) =>
        e2 == e.(state := e2.state, previous := Some(e.state.session), drainStartedMs := Some(now), pending := None,
                 kBit := !e.kBit, rekeyMsg3 := None)
      case Some(Previous) => e2 == e.(previous := e2.previous, drainStartedMs := Some(now))
  {
  }

  predicate Spent(e: Option<Entry>, s: Session, counter: Words.u64) {
    && e.Some? && e.value.state.Established? && SameKeys(e.value.state.session, s)
    && !e.value.state.session.replay.Check(counter)
  }

  lemma {:induction false} SpentStep(c: Suite, n: Node, src: Addr, e: Entry, ev: Event, s: Session,
                                     counter: Words.u64)
    requires Tidy(e) && Spent(Some(e), s, counter) && !Promotes(c, e, ev)
    ensures Spent(Next(c, n, src, Some(e), ev), s, counter)
  {
    EstablishedStep(c, n, src, e, ev);
    if ev.DataIn? && e.state.session.replay.Check(ev.frame.counter) {
      Replay.ClosedStaysClosed(e.state.session.replay, ev.frame.counter, counter);
    }
  }

  lemma {:induction false} SpentAlong(c: Suite, n: Node, src: Addr, e: Entry, evs: seq<Event>, k: nat, s: Session,
                                      counter: Words.u64)
    requires Tidy(e) && Spent(Some(e), s, counter) && k <= |evs| && !PromotedBefore(c, n, src, e, evs, k)
    ensures Spent(Run(c, n, src, Some(e), evs[..k]), s, counter)
    decreases k
  {
    if k > 0 {
      SpentAlong(c, n, src, e, evs, k - 1, s, counter);
      TidyAlong(c, n, src, e, evs, k - 1);
      RunStep(c, n, src, Some(e), evs, k - 1);
      SpentStep(c, n, src, Run(c, n, src, Some(e), evs[..k - 1]).value, evs[k - 1], s, counter);
    }
  }

  /** A frame the running session has taken is not taken by it again: after any events that leave the session
      running, whatever was received in between, it refuses the frame. */
  lemma {:induction false} NeverTakenTwice(c: Suite, n: Node, src: Addr, e: Entry, f: Frame, now: nat, evs: seq<Event>)
    requires e.state.Established? && Tidy(e) && TrialDecrypt(c, e, f) == Some(Current)
    requires var after := Next(c, n, src, Some(e), DataIn(f, now));
      after.Some? && !PromotedBefore(c, n, src, after.value, evs, |evs|)
    ensures var last := Run(c, n, src, Next(c, n, src, Some(e), DataIn(f, now)), evs);
      && last.Some? && last.value.state.Established? && SameKeys(last.value.state.session, e.state.session)
      && !Accepts(c, last.value.state.session, f)
  {
    EstablishedStep(c, n, src, e, DataIn(f, now));
    TakenOnce(c, e, f, now);
    var after := Next(c, n, src, Some(e), DataIn(f, now)).value;
    SpentAlong(c, n, src, after, evs, |evs|, e.state.session, f.counter);
    assert evs[..|evs|] == evs;
  }

  // ----- who an established session is with -----

  /** The address of a peer is derived from its x-only key. */
  predicate Owns(n: Node, key: Bytes, addr: Addr) {
    n.addrOf(XOnly(key)) == addr
  }

  lemma {:induction false} FinishedWithRemoteStatic(c: Suite, accepted: Party)
    requires FinishInitiation(c, accepted).Some?
    ensures accepted.rs == Some(FinishInitiation(c, accepted).value.1.remoteStatic)
  {
    WritingKeepsStatic(c, accepted, XxMsg3.tokens, []);
  }

  lemma {:induction false} AckBindsKey(c: Suite, n: Node, src: Addr, e: Entry, payload: Bytes, env: Env)
    requires e.state.Initiating?
    ensures var after := HandleAck(c, n, src, Some(e), payload, env).entry;
      after.Some? ==>
        && after.value.remoteKey == e.remoteKey && !after.value.state.AwaitingMsg3?
        && after.value.rekey == e.rekey && after.value.pending == e.pending
        && (after.value.state.Established? ==> XOnly(after.value.state.session.remoteStatic) == XOnly(e.remoteKey))
  {
    var accepted := AcceptAck(c, e, e.state.handshake, payload);
    if accepted.Some? && FinishInitiation(c, accepted.value).Some? {
      FinishedWithRemoteStatic(c, accepted.value);
    }
  }

  lemma Msg3BindsKey(c: Suite, n: Node, src: Addr, e: Entry, payload: Bytes, env: Env)
    requires e.state.AwaitingMsg3?
    ensures var after := HandleMsg3(c, n, src, Some(e), payload, env).entry;
      after.Some? && after != Some(e) ==>
        && after.value.state.Established? && after.value.rekey.None? && after.value.pending.None?
        && Owns(n, after.value.remoteKey, src)
        && after.value.state.session.remoteStatic == after.value.remoteKey
  {
  }

  lemma OthersDoNotEstablish(c: Suite, n: Node, src: Addr, existing: Option<Entry>, ev: Event)
    requires !(existing.Some? && existing.value.state.Established?)
    requires !(existing.Some? && existing.value.state.Initiating? && ev.AckIn?)
    requires !(existing.Some? && existing.value.state.AwaitingMsg3? && ev.Msg3In?)
    ensures var after := Next(c, n, src, existing, ev);
      || after == existing
      || (after.Some? && after.value.state.AwaitingMsg3?)
      || (after.Some? && after.value.state.Initiating? && after.value.rekey.None? && after.value.pending.None?
          && ev.Dial? && after.value.remoteKey == ev.key)
  {
  }

  /** An entry becomes established only by an ack to our own dialling, from the key that was dialled,
      or by a message 3 from the key that owns the claimed source address. */
  lemma {:induction false} EstablishmentBindsKey(c: Suite, n: Node, src: Addr, existing: Option<Entry>, ev: Event)
    requires !(existing.Some? && existing.value.state.Established?)
    requires Next(c, n, src, existing, ev).Some? && Next(c, n, src, existing, ev).value.state.Established?
    ensures existing.Some?
    ensures var e, e2 := existing.value, Next(c, n, src, existing, ev).value;
      && XOnly(e2.state.session.remoteStatic) == XOnly(e2.remoteKey)
      && (if e.state.Initiating? then ev.AckIn? && e2.remoteKey == e.remoteKey
          else ev.Msg3In? && Owns(n, e2.remoteKey, src))
  {
    if existing.Some? && existing.value.state.Initiating? && ev.AckIn? {
      AckBindsKey(c, n, src, existing.value, ev.payload, ev.env);
    } else if existing.Some? && existing.value.state.AwaitingMsg3? && ev.Msg3In? {
      Msg3BindsKey(c, n, src, existing.value, ev.payload, ev.env);
    } else {
      OthersDoNotEstablish(c, n, src, existing, ev);
    }
  }

  /** What a run from nothing keeps: the key dialled or established with owns the address, and until
      a session runs no rekey is armed. */
  predicate Rightful(n: Node, src: Addr, existing: Option<Entry>) {
    existing.Some? ==>
      match existing.value.state
      case Initiating(_) =>
        Owns(n, existing.value.remoteKey, src) && existing.value.rekey.None? && existing.value.pending.None?
      case AwaitingMsg3(_) => true
      case Established(_) => Owns(n, existing.value.remoteKey, src) && Tidy(existing.value)
  }

  lemma {:induction false} RightfulStep(c: Suite, n: Node, src: Addr, existing: Option<Entry>, ev: Event)
    requires Rightful(n, src, existing) && (ev.Dial? ==> Owns(n, ev.key, src))
    ensures Rightful(n, src, Next(c, n, src, existing, ev))
  {
    if existing.Some? && existing.value.state.Established? {
      EstablishedStep(c, n, src, existing.value, ev);
    } else if existing.Some? && existing.value.state.Initiating? && ev.AckIn? {
      AckBindsKey(c, n, src, existing.value, ev.payload, ev.env);
    } else if existing.Some? && existing.value.state.AwaitingMsg3? && ev.Msg3In? {
      Msg3BindsKey(c, n, src, existing.value, ev.payload, ev.env);
    } else {
      OthersDoNotEstablish(c, n, src, existing, ev);
    }
  }

  /** The sessions of an established entry, the one that runs and the one that waits, are with the key
      the entry names. */
  predicate Bound(e: Entry) {
    e.state.Established? ==>
      && XOnly(e.state.session.remoteStatic) == XOnly(e.remoteKey)
      && (e.pending.Some? ==> XOnly(e.pending.value.remoteStatic) == XOnly(e.remoteKey))
  }

  /** `ev` is an ack that completes a rekey we armed with another key; that arm makes no comparison. */
  predicate ForeignRekey(c: Suite, e: Entry, ev: Event) {
    && ev.AckIn? && |ev.payload| >= XX2_SIZE && ev.env.sendOk
    && e.state.Established? && e.rekey.Some? && e.rekeyInitiator
    && var done := CompleteRekey(c, e.rekey.value, ev.payload);
       done.Some? && XOnly(done.value.1.remoteStatic) != XOnly(e.remoteKey)
  }

  /** One event keeps the sessions of an established entry with its key if and only if it is not such an
      ack. */
  lemma {:induction false} BoundStep(c: Suite, n: Node, src: Addr, e: Entry, ev: Event)
    requires e.state.Established? && Tidy(e) && Bound(e)
    ensures var after := Next(c, n, src, Some(e), ev);
      after.Some? && (Bound(after.value) <==> !ForeignRekey(c, e, ev))
  {
    EstablishedStep(c, n, src, e, ev);
  }

  lemma {:induction false} BoundFromStart(c: Suite, n: Node, src: Addr, existing: Option<Entry>, ev: Event)
    requires Rightful(n, src, existing) && !(existing.Some? && existing.value.state.Established?)
    requires Next(c, n, src, existing, ev).Some?
    ensures Bound(Next(c, n, src, existing, ev).value)
  {
    if existing.Some? && existing.value.state.Initiating? && ev.AckIn? {
      AckBindsKey(c, n, src, existing.value, ev.payload, ev.env);
    } else if existing.Some? && existing.value.state.AwaitingMsg3? && ev.Msg3In? {
      Msg3BindsKey(c, n, src, existing.value, ev.payload, ev.env);
    } else {
      OthersDoNotEstablish(c, n, src, existing, ev);
    }
  }

  /** Along the run from no entry, no ack completed a rekey of ours with another key. */
  ghost predicate NoForeignRekey(c: Suite, n: Node, src: Addr, evs: seq<Event>) {
    forall i | 0 <= i < |evs| :: var x := Run(c, n, src, None, evs[..i]);
      x.Some? ==> !ForeignRekey(c, x.value, evs[i])
  }

  lemma {:induction false} NoForeignPrefix(c: Suite, n: Node, src: Addr, evs: seq<Event>, k: nat)
    requires k <= |evs| && NoForeignRekey(c, n, src, evs)
    ensures NoForeignRekey(c, n, src, evs[..k])
  {
    assert forall i | 0 <= i < k :: evs[..k][..i] == evs[..i] && evs[..k][i] == evs[i];
  }

  /** Starting with no entry, under any sequence of inbound messages, rekey timers and dials of keys
      that own the address, an established entry names the key that owns the address. */
  lemma {:induction false} SessionsBelongToTheAddress(c: Suite, n: Node, src: Addr, evs: seq<Event>)
    requires forall i | 0 <= i < |evs| :: evs[i].Dial? ==> Owns(n, evs[i].key, src)
    ensures var last := Run(c, n, src, None, evs);
      && (last.Some? && last.value.state.Established? ==> Owns(n, last.value.remoteKey, src))
      && Rightful(n, src, last)
    decreases |evs|
  {
    if evs != [] {
      SessionsBelongToTheAddress(c, n, src, evs[..|evs| - 1]);
      RightfulStep(c, n, src, Run(c, n, src, None, evs[..|evs| - 1]), evs[|evs| - 1]);
    }
  }

  lemma {:induction false} BoundAlways(c: Suite, n: Node, src: Addr, evs: seq<Event>)
    requires forall i | 0 <= i < |evs| :: evs[i].Dial? ==> Owns(n, evs[i].key, src)
    requires NoForeignRekey(c, n, src, evs)
    ensures var last := Run(c, n, src, None, evs); last.Some? ==> Bound(last.value)
    decreases |evs|
  {
    if evs != [] {
      var k := |evs| - 1;
      var init := evs[..k];
      NoForeignPrefix(c, n, src, evs, k);
      BoundAlways(c, n, src, init);
      SessionsBelongToTheAddress(c, n, src, init);
      var before := Run(c, n, src, None, init);
      if before.Some? && before.value.state.Established? {
        BoundStep(c, n, src, before.value, evs[k]);
      } else if Next(c, n, src, before, evs[k]).Some? {
        BoundFromStart(c, n, src, before, evs[k]);
      }
    }
  }

  /** On such a run, unless an ack completed a rekey of ours with another key, the running session and
      the pending one are themselves with the owner of the address. */
  lemma {:induction false} SessionKeysOwnTheAddress(c: Suite, n: Node, src: Addr, evs: seq<Event>)
    requires forall i | 0 <= i < |evs| :: evs[i].Dial? ==> Owns(n, evs[i].key, src)
    requires NoForeignRekey(c, n, src, evs)
    ensures var last := Run(c, n, src, None, evs);
      last.Some? && last.value.state.Established? ==>
        && Owns(n, last.value.state.session.remoteStatic, src)
        && (last.value.pending.Some? ==> Owns(n, last.value.pending.value.remoteStatic, src))
  {
    SessionsBelongToTheAddress(c, n, src, evs);
    BoundAlways(c, n, src, evs);
  }

  /** Over every such run: at each moment the running and the pending session are with the key the entry
      names, if and only if no ack completed a rekey of ours with another key. */
  lemma {:induction false} BoundExactly(c: Suite, n: Node, src: Addr, evs: seq<Event>)
    requires forall i | 0 <= i < |evs| :: evs[i].Dial? ==> Owns(n, evs[i].key, src)
    ensures (forall i | 0 <= i <= |evs| :: BoundAt(c, n, src, evs, i)) <==> NoForeignRekey(c, n, src, evs)
  {
    if NoForeignRekey(c, n, src, evs) {
      forall i | 0 <= i <= |evs| ensures BoundAt(c, n, src, evs, i) {
        NoForeignPrefix(c, n, src, evs, i);
        BoundAlways(c, n, src, evs[..i]);
      }
    } else {
      var i :| 0 <= i < |evs| && Run(c, n, src, None, evs[..i]).Some?
            && ForeignRekey(c, Run(c, n, src, None, evs[..i]).value, evs[i]);
      if BoundAt(c, n, src, evs, i) { ForeignUnbinds(c, n, src, evs, i); }
    }
  }

  ghost predicate BoundAt(c: Suite, n: Node, src: Addr, evs: seq<Event>, i: nat)
    requires i <= |evs|
  {
    var x := Run(c, n, src, None, evs[..i]);
    x.Some? ==> Bound(x.value)
  }

  lemma {:induction false} ForeignUnbinds(c: Suite, n: Node, src: Addr, evs: seq<Event>, i: nat)
    requires forall j | 0 <= j < |evs| :: evs[j].Dial? ==> Owns(n, evs[j].key, src)
    requires i < |evs| && BoundAt(c, n, src, evs, i)
    requires Run(c, n, src, None, evs[..i]).Some? && ForeignRekey(c, Run(c, n, src, None, evs[..i]).value, evs[i])
    ensures !BoundAt(c, n, src, evs, i + 1)
  {
    SessionsBelongToTheAddress(c, n, src, evs[..i]);
    BoundStep(c, n, src, Run(c, n, src, None, evs[..i]).value, evs[i]);
    RunStep(c, n, src, None, evs, i);
  }

  /** A session is dialled exactly when the address has none running and none dialled, and then from message 1;
      a half-open one gives way to it. */
  lemma {:induction false} DialledIff(c: Suite, n: Node, existing: Option<Entry>, key: Bytes, env: Env)
    ensures var o := Initiate(c, n, existing, key, env);
      && (o.out.Some? <==> env.sendOk && (existing.None? || existing.value.state.AwaitingMsg3?))
      && (o.out.None? ==> o.entry == existing)
      && (o.out.Some? ==>
            var msg1 := c.pub(env.eph);
            var dialling := Initiating(Simultaneous.Dial(c, n, env.eph).0);
            o == Outcome(Some(Entry(key, dialling, None, false, None, None, None, 0, None, false, Some(msg1))),
                         Some(Setup(msg1))))
  {
    assert c.pub(env.eph) + [] == c.pub(env.eph);
  }

  /** The negotiation payload of a session offers version 0 alone and no features. */
  lemma {:induction false} SessionNegotiation()
    ensures Negotiation.Decode(NEGOTIATION) == Negotiation.Ok(Negotiation.Payload(0, 0, 0, 0, []))
  {
    Negotiation.ZeroOffer(NEGOTIATION);
  }

  // ----- that it happens -----

  /** An initiator in step with its responder after message 2 completes with that responder's key. */
  lemma {:induction false} CompletesInStep(c: Suite, i: Party, r: Party)
    requires Lawful(c) && Stage(c, r, i, Responder, Message2Done, Swapped(After2)) && r.sym.cipher.nonce <= 10
    ensures var (wrote, msg3) := Write(c, i, XxMsg3, []);
      msg3.Ok? && IntoSession(c, wrote).Ok? && i.rs == Some(IntoSession(c, wrote).value.remoteStatic)
  {
    Third();
    MessageAgrees(c, i, r, XxMsg3, [], After2);
    WritingKeepsStatic(c, i, XxMsg3.tokens, []);
  }

  /** The initiator that reads the answer to its message 1 completes with the key of who answered. */
  lemma {:induction false} CompletesWithAnswerer(c: Suite, n: Node, m: Node, eI: Bytes, eR: Bytes)
    requires Lawful(c) && n.name == m.name
    ensures var (hs, msg1) := Simultaneous.Dial(c, n, eI);
      && msg1.Ok?
      && var answer := Answer(c, m, msg1.value, eR);
      && answer.Some? && |answer.value.1| == XX2_SIZE
      && var done := CompleteRekey(c, hs, answer.value.1);
      && done.Some? && done.value.1.remoteStatic == c.pub(m.secret)
  {
    Simultaneous.AnswerAgrees(c, n, m, eI, eR);
    var (hs, msg1) := Simultaneous.Dial(c, n, eI);
    var (r2, msg2) := Answer(c, m, msg1.value, eR).value;
    CompletesInStep(c, Read(c, hs, XxMsg2, msg2).0, r2);
  }

  /** A rekey we arm beside a running session, answered by a node with another key, is such an ack. */
  lemma {:induction false} ForeignRekeyHappens(c: Suite, n: Node, m: Node, e: Entry, arm: Env, eR: Bytes, env: Env)
    requires Lawful(c) && n.name == m.name && arm.sendOk && env.sendOk
    requires e.state.Established? && e.rekey.None? && e.pending.None?
    requires XOnly(c.pub(m.secret)) != XOnly(e.remoteKey)
    ensures var armed := ArmRekey(c, n, Some(e), arm);
      && armed.entry.Some? && armed.out.Some? && armed.out.value.Setup?
      && var answer := Answer(c, m, armed.out.value.payload, eR);
      && answer.Some? && ForeignRekey(c, armed.entry.value, AckIn(answer.value.1, env))
  {
    CompletesWithAnswerer(c, n, m, arm.eph, eR);
  }
}
