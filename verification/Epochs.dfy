/** The epoch slots of a peer: the current session, the previous one while it drains, and a completed
    rekey waiting for its cutover, with the session index each of them is received under. */
module Epochs {
  import opened Results
  import opened Words
  import opened Patterns

  type Index = u32

  datatype Slots = Slots(
    current: Option<Session>, ourIndex: Option<Index>, theirIndex: Option<Index>,
    previous: Option<Session>, previousIndex: Option<Index>, drainStarted: Option<nat>,
    pending: Option<Session>, pendingIndex: Option<Index>, pendingTheirs: Option<Index>,
    kBit: bool, rekeyIndex: Option<Index>, rekeyInProgress: bool)

  function WithSession(session: Session, ours: Index, theirs: Index): Slots {
    Slots(Some(session), Some(ours), Some(theirs), None, None, None, None, None, None, false, None, false)
  }

  /** A completed rekey is held until the cutover; the index of an armed rekey is forgotten. */
  function Held(s: Slots, session: Session, ours: Index, theirs: Index): Slots {
    s.(pending := Some(session), pendingIndex := Some(ours), pendingTheirs := Some(theirs),
       rekeyIndex := None, rekeyInProgress := false)
  }

  /** Pending to current, current to previous, K-bit flipped: our own cutover and the peer's alike. */
  function Promoted(s: Slots, now: nat): Slots {
    if s.pending.None? then s
    else s.(previous := s.current, previousIndex := s.ourIndex, drainStarted := Some(now),
            current := s.pending, ourIndex := s.pendingIndex, theirIndex := s.pendingTheirs,
            pending := None, pendingIndex := None, pendingTheirs := None,
            kBit := !s.kBit, rekeyInProgress := false)
  }

  function Drained(s: Slots): Slots {
    s.(previous := None, previousIndex := None, drainStarted := None)
  }

  /** An armed rekey is dropped if there is one, otherwise the pending session is. */
  function Abandoned(s: Slots): Slots {
    if s.rekeyIndex.Some? then s.(rekeyIndex := None, rekeyInProgress := false)
    else s.(rekeyInProgress := false, pending := None, pendingIndex := None, pendingTheirs := None)
  }

  /** A rekey that is installed and cut over to leaves its session running with its two indices; the old
      session drains under the index it was received under; nothing is pending, and only the K-bit flips. */
  lemma InstallThenPromote(s: Slots, session: Session, ours: Index, theirs: Index, now: nat)
    ensures var t := Promoted(Held(s, session, ours, theirs), now);
      && (t.current, t.ourIndex, t.theirIndex) == (Some(session), Some(ours), Some(theirs))
      && (t.previous, t.previousIndex, t.drainStarted) == (s.current, s.ourIndex, Some(now))
      && t.pending.None? && t.pendingIndex.None? && t.pendingTheirs.None? && t.kBit != s.kBit
      && t.rekeyIndex.None? && !t.rekeyInProgress
  {
  }

  /** Abandoning leaves a completed rekey pending exactly when there is one and another is armed. */
  lemma AbandonKeepsPending(s: Slots)
    ensures Abandoned(s).pending.Some? <==> s.pending.Some? && s.rekeyIndex.Some?
  {
  }

  // ----- session indices -----

  function Is(i: Option<Index>, x: Index): nat {
    if i == Some(x) then 1 else 0
  }

  /** How many of the four slots hold index `x`. */
  function Owned(s: Slots, x: Index): nat {
    Is(s.ourIndex, x) + Is(s.previousIndex, x) + Is(s.pendingIndex, x) + Is(s.rekeyIndex, x)
  }

  datatype Op =
    | Arm(ours: Index)
    | Complete(session: Session, theirs: Index)
    | Install(session: Session, ours: Index, theirs: Index)
    | CutOver(now: nat)
    | PeerFlip(now: nat)
    | EndDrain
    | Abandon
    | Replace(session: Session, ours: Index, theirs: Index)

  /** The slots after `op`; completing a rekey moves its armed index to the pending slot, and without
      an armed rekey there is nothing to complete. */
  function Apply(s: Slots, op: Op): Slots {
    match op
    case Arm(ours) => s.(rekeyIndex := Some(ours), rekeyInProgress := true)
    case Complete(session, theirs) => if s.rekeyIndex.None? then s else Held(s, session, s.rekeyIndex.value, theirs)
    case Install(session, ours, theirs) => Held(s, session, ours, theirs)
    case CutOver(now) => Promoted(s, now)
    case PeerFlip(now) => Promoted(s, now)
    case EndDrain => Drained(s)
    case Abandon => Abandoned(s)
    case Replace(session, ours, theirs) =>
      s.(current := Some(session), ourIndex := Some(ours), theirIndex := Some(theirs))
  }

  /** The index `op` hands to the peer. */
  function Issued(op: Op): Option<Index> {
    match op
    case Arm(ours) => Some(ours)
    case Install(_, ours, _) => Some(ours)
    case Replace(_, ours, _) => Some(ours)
    case _ => None
  }

  /** The index `op` returns to its caller for freeing. */
  function Returned(s: Slots, op: Op): Option<Index> {
    match op
    case EndDrain => s.previousIndex
    case Abandon => if s.rekeyIndex.Some? then s.rekeyIndex else s.pendingIndex
    case Replace(_, _, _) => s.ourIndex
    case _ => None
  }

  /** Every index of a slot goes with its session, and the drain clock with the previous session. */
  predicate Paired(s: Slots) {
    && s.current.Some? && s.ourIndex.Some? && s.theirIndex.Some? && (s.rekeyInProgress ==> s.rekeyIndex.Some?)
    && (s.pending.Some? <==> s.pendingIndex.Some?) && (s.pending.Some? <==> s.pendingTheirs.Some?)
    && (s.previous.Some? <==> s.previousIndex.Some?)
    && (s.drainStarted.Some? <==> s.previous.Some?)
  }

  /** Arm only with no rekey armed, install only with no rekey armed or pending, complete only with
      nothing pending, and promote only when not draining. */
  predicate Orderly(s: Slots, op: Op) {
    match op
    case Arm(_) => s.rekeyIndex.None?
    case Complete(_, _) => s.rekeyIndex.None? || s.pending.None?
    case Install(_, _, _) => s.rekeyIndex.None? && s.pending.None?
    case CutOver(_) => s.pending.None? || s.drainStarted.None?
    case PeerFlip(_) => s.pending.None? || s.drainStarted.None?
    case _ => true
  }

  predicate Conserves(s: Slots, op: Op, x: Index) {
    Owned(s, x) + Is(Issued(op), x) == Owned(Apply(s, op), x) + Is(Returned(s, op), x)
  }

  lemma OrderlyConserves(s: Slots, op: Op, x: Index)
    requires Paired(s) && Orderly(s, op)
    ensures Paired(Apply(s, op)) && Conserves(s, op, x)
  {
  }

  /** An index that an operation out of order overwrites. */
  function Overwritten(s: Slots, op: Op): Index
    requires Paired(s) && !Orderly(s, op)
  {
    match op
    case Arm(_) => s.rekeyIndex.value
    case Complete(_, _) => s.pendingIndex.value
    case Install(_, _, _) => if s.rekeyIndex.Some? then s.rekeyIndex.value else s.pendingIndex.value
    case CutOver(_) => s.previousIndex.value
    case PeerFlip(_) => s.previousIndex.value
  }

  lemma OverwrittenIsLost(s: Slots, op: Op)
    requires Paired(s) && !Orderly(s, op)
    ensures Paired(Apply(s, op)) && !Conserves(s, op, Overwritten(s, op))
  {
  }

  /** One operation loses or duplicates no index exactly when it comes in order. */
  lemma ConservesIffOrderly(s: Slots, op: Op)
    requires Paired(s)
    ensures Paired(Apply(s, op))
    ensures (forall x :: Conserves(s, op, x)) <==> Orderly(s, op)
  {
    if Orderly(s, op) {
      forall x: Index ensures Conserves(s, op, x) { OrderlyConserves(s, op, x); }
      OrderlyConserves(s, op, 0);
    } else {
      OverwrittenIsLost(s, op);
    }
  }

  /** What the other operations leave: arming only an index to arm; completing what was armed, pending under that
      index; replacing only the current session and its two indices. */
  lemma OtherOps(s: Slots, session: Session, ours: Index, theirs: Index)
    ensures var armed := Apply(s, Arm(ours));
      && armed.rekeyInProgress && armed == s.(rekeyIndex := Some(ours), rekeyInProgress := true)
      && var done := Apply(armed, Op.Complete(session, theirs));
      && (done.pending, done.pendingIndex, done.pendingTheirs) == (Some(session), Some(ours), Some(theirs))
      && (done.rekeyIndex, done.rekeyInProgress) == (None, false)
      && (done.current, done.ourIndex, done.theirIndex, done.kBit) == (s.current, s.ourIndex, s.theirIndex, s.kBit)
    ensures var replaced := Apply(s, Replace(session, ours, theirs));
      && (replaced.current, replaced.ourIndex, replaced.theirIndex) == (Some(session), Some(ours), Some(theirs))
      && replaced.(current := s.current, ourIndex := s.ourIndex, theirIndex := s.theirIndex) == s
  {
  }

  function RunOps(s: Slots, ops: seq<Op>): Slots {
    if ops == [] then s else Apply(RunOps(s, ops[..|ops| - 1]), ops[|ops| - 1])
  }

  /** How often `x` was handed out, and how often it was returned, along a run. */
  function TimesIssued(ops: seq<Op>, x: Index): nat {
    if ops == [] then 0 else TimesIssued(ops[..|ops| - 1], x) + Is(Issued(ops[|ops| - 1]), x)
  }

  function TimesReturned(s: Slots, ops: seq<Op>, x: Index): nat {
    if ops == [] then 0
    else TimesReturned(s, ops[..|ops| - 1], x) + Is(Returned(RunOps(s, ops[..|ops| - 1]), ops[|ops| - 1]), x)
  }

  ghost predicate OrderlyRun(s: Slots, ops: seq<Op>) {
    forall i | 0 <= i < |ops| :: Orderly(RunOps(s, ops[..i]), ops[i])
  }

  /** The allocator hands out an index only while this peer does not hold it. */
  ghost predicate Unowned(s: Slots, ops: seq<Op>) {
    forall i | 0 <= i < |ops| && Issued(ops[i]).Some? :: Owned(RunOps(s, ops[..i]), Issued(ops[i]).value) == 0
  }

  lemma RunPrefix(s: Slots, ops: seq<Op>, k: nat)
    requires k <= |ops|
    ensures OrderlyRun(s, ops) ==> OrderlyRun(s, ops[..k])
    ensures Unowned(s, ops) ==> Unowned(s, ops[..k])
  {
    assert forall i | 0 <= i < k :: ops[..k][..i] == ops[..i] && ops[..k][i] == ops[i];
  }

  /** Over every orderly run each index is held in slots or has been returned for freeing, exactly as
      often as it was handed out; and a drain is on exactly while the previous slot is occupied. */
  lemma {:induction false} IndexConservation(s: Slots, ops: seq<Op>, x: Index)
    requires Paired(s) && OrderlyRun(s, ops)
    ensures Owned(RunOps(s, ops), x) + TimesReturned(s, ops, x) == Owned(s, x) + TimesIssued(ops, x)
    ensures Paired(RunOps(s, ops))
    decreases |ops|
  {
    if ops != [] {
      var k := |ops| - 1;
      RunPrefix(s, ops, k);
      IndexConservation(s, ops[..k], x);
      OrderlyConserves(RunOps(s, ops[..k]), ops[k], x);
    }
  }

  /** With an allocator that does not hand out an index still held, no index is ever in two slots. */
  lemma {:induction false} OneSlotPerIndex(s: Slots, ops: seq<Op>, x: Index)
    requires Paired(s) && OrderlyRun(s, ops) && Unowned(s, ops) && Owned(s, x) <= 1
    ensures Owned(RunOps(s, ops), x) <= 1
    decreases |ops|
  {
    if ops != [] {
      var k := |ops| - 1;
      RunPrefix(s, ops, k);
      OneSlotPerIndex(s, ops[..k], x);
      IndexConservation(s, ops[..k], x);
      OrderlyConserves(RunOps(s, ops[..k]), ops[k], x);
    }
  }

  // ----- in place -----

  class PeerSendState {
    var noiseSession: Option<Session>
    var ourIndex: Option<Index>
    var theirIndex: Option<Index>
    var previousSession: Option<Session>
    var previousOurIndex: Option<Index>
    var drainStarted: Option<nat>
    var pendingNewSession: Option<Session>
    var pendingOurIndex: Option<Index>
    var pendingTheirIndex: Option<Index>
    var currentKBit: bool
    var rekeyOurIndex: Option<Index>
    var rekeyInProgress: bool

    function View(): Slots
      reads this
    {
      Slots(noiseSession, ourIndex, theirIndex, previousSession, previousOurIndex, drainStarted,
            pendingNewSession, pendingOurIndex, pendingTheirIndex, currentKBit, rekeyOurIndex, rekeyInProgress)
    }

    constructor (session: Session, ours: Index, theirs: Index)
      ensures View() == WithSession(session, ours, theirs) && Paired(View())
    {
      noiseSession, ourIndex, theirIndex := Some(session), Some(ours), Some(theirs);
      previousSession, previousOurIndex, drainStarted := None, None, None;
      pendingNewSession, pendingOurIndex, pendingTheirIndex := None, None, None;
      currentKBit, rekeyOurIndex, rekeyInProgress := false, None, false;
    }

    method ReplaceSession(session: Session, ours: Index, theirs: Index) returns (old_: Option<Index>)
      modifies this
      ensures View() == Apply(old(View()), Replace(session, ours, theirs))
      ensures old_ == Returned(old(View()), Replace(session, ours, theirs))
    {
      old_ := ourIndex;
      noiseSession := Some(session);
      ourIndex := Some(ours);
      theirIndex := Some(theirs);
    }

    method SetRekeyState(ours: Index)
      modifies this
      ensures View() == Apply(old(View()), Arm(ours))
    {
      rekeyOurIndex := Some(ours);
      rekeyInProgress := true;
    }

    method SetPendingSession(session: Session, ours: Index, theirs: Index)
      modifies this
      ensures View() == Held(old(View()), session, ours, theirs)
    {
      pendingNewSession := Some(session);
      pendingOurIndex := Some(ours);
      pendingTheirIndex := Some(theirs);
      rekeyInProgress := false;
      rekeyOurIndex := None;
    }

    method CutoverToNewSession(now: nat) returns (draining: Option<Index>)
      modifies this
      ensures View() == Apply(old(View()), CutOver(now))
      ensures draining == if old(pendingNewSession).Some? then old(ourIndex) else None
    {
      if pendingNewSession.None? { return None; }
      var session, ours, theirs := pendingNewSession, pendingOurIndex, pendingTheirIndex;
      pendingNewSession, pendingOurIndex, pendingTheirIndex := None, None, None;
      previousSession := noiseSession;
      previousOurIndex := ourIndex;
      drainStarted := Some(now);
      noiseSession := session;
      ourIndex := ours;
      theirIndex := theirs;
      currentKBit := !currentKBit;
      rekeyInProgress := false;
      return previousOurIndex;
    }

    method HandlePeerKbitFlip(now: nat) returns (draining: Option<Index>)
      modifies this
      ensures View() == Apply(old(View()), PeerFlip(now))
      ensures draining == if old(pendingNewSession).Some? then old(ourIndex) else None
    {
      if pendingNewSession.None? { return None; }
      var session, ours, theirs := pendingNewSession, pendingOurIndex, pendingTheirIndex;
      pendingNewSession, pendingOurIndex, pendingTheirIndex := None, None, None;
      previousSession := noiseSession;
      previousOurIndex := ourIndex;
      drainStarted := Some(now);
      noiseSession := session;
      ourIndex := ours;
      theirIndex := theirs;
      currentKBit := !currentKBit;
      rekeyInProgress := false;
      return previousOurIndex;
    }

    method IsDraining() returns (b: bool)
      ensures Paired(View()) ==> (b <==> previousSession.Some?)
    {
      return drainStarted.Some?;
    }

    method CompleteDrain() returns (free: Option<Index>)
      modifies this
      ensures View() == Apply(old(View()), EndDrain)
      ensures free == Returned(old(View()), EndDrain)
    {
      previousSession := None;
      drainStarted := None;
      free := previousOurIndex;
      previousOurIndex := None;
    }

    method AbandonRekey() returns (free: Option<Index>)
      modifies this
      ensures View() == Apply(old(View()), Abandon)
      ensures free == Returned(old(View()), Abandon)
    {
      rekeyInProgress := false;
      free := rekeyOurIndex;
      rekeyOurIndex := None;
      if free.None? {
        pendingNewSession := None;
        pendingTheirIndex := None;
        free := pendingOurIndex;
        pendingOurIndex := None;
      }
    }
  }
}
