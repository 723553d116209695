/** The two ends of a link as they rekey: which generation each end runs, and what each of its epoch
    slots therefore holds. */
module Links {
  import opened Results
  import opened Crypto
  import opened Noise
  import opened Patterns
  import opened Sessions
  import opened Epochs
  import Channel
  import Replay

  datatype Side = Left | Right

  function Other(side: Side): Side {
    if side.Left? then Right else Left
  }

  /** The two sessions of one handshake and the index each end receives its frames under. */
  datatype Generation = Generation(left: Session, right: Session, leftIndex: Index, rightIndex: Index)

  /** Both ends, the sessions of each generation (the halves of one handshake), and how many times each
      end has cut over. */
  datatype Link = Link(left: Slots, right: Slots, gens: seq<Generation>, leftGen: nat, rightGen: nat) {

    function End(side: Side): Slots {
      if side.Left? then left else right
    }

    function Gen(side: Side): nat {
      if side.Left? then leftGen else rightGen
    }

    function With(side: Side, s: Slots, gen: nat): Link {
      if side.Left? then this.(left := s, leftGen := gen) else this.(right := s, rightGen := gen)
    }

    /** This end holds the session of generation `g`, or has moved past it. */
    predicate Installed(side: Side, g: nat) {
      g <= Gen(side) || (g == Gen(side) + 1 && End(side).pending.Some?)
    }
  }

  function Half(pair: Generation, side: Side): Session {
    if side.Left? then pair.left else pair.right
  }

  function IndexOf(pair: Generation, side: Side): Index {
    if side.Left? then pair.leftIndex else pair.rightIndex
  }

  predicate GoodPair(pair: Generation) {
    Halves(pair.left, pair.right) && pair.left.send.hasKey && pair.left.recv.hasKey
  }

  function Linked(pair: Generation): Link {
    Link(WithSession(pair.left, pair.leftIndex, pair.rightIndex),
         WithSession(pair.right, pair.rightIndex, pair.leftIndex), [pair], 0, 0)
  }

  // ----- moves -----

  /** What one end does: install a completed rekey, cut over by itself, end a drain, abandon a rekey,
      or receive a frame, whoever sealed it. */
  datatype Act =
    | Hold
    | Switch(now: nat)
    | Forget
    | GiveUp
    | Receive(frame: Frame, now: nat)

  datatype Move = Agree(pair: Generation) | At(side: Side, act: Act)

  /** One session tries a frame: if it is inside the replay window and opens, its counter is marked; it is
      taken if what it opens to has an inner header. */
  function Attempt(c: Suite, s: Session, f: Frame): (Session, bool) {
    if !Accepts(c, s, f) then (s, false)
    else
      var plain := s.recv.DecryptWithCounter(c, f.ciphertext, f.counter, f.header).value;
      (Marked(s, f), Channel.StripInner(plain).Some?)
  }

  function TryCurrent(c: Suite, s: Slots, f: Frame): (Slots, bool) {
    if s.current.None? then (s, false)
    else
      var (x, taken) := Attempt(c, s.current.value, f);
      (s.(current := Some(x)), taken)
  }

  function TryPending(c: Suite, s: Slots, f: Frame): (Slots, bool) {
    if s.pending.None? then (s, false)
    else
      var (x, taken) := Attempt(c, s.pending.value, f);
      (s.(pending := Some(x)), taken)
  }

  function TryPrevious(c: Suite, s: Slots, f: Frame): (Slots, bool) {
    if s.previous.None? then (s, false)
    else
      var (x, taken) := Attempt(c, s.previous.value, f);
      (s.(previous := Some(x)), taken)
  }

  /** Trial decryption on the link: slot after slot until one takes the frame; a slot that opened it to
      less than an inner header has marked it and the next one is tried. */
  function Trial(c: Suite, s: Slots, f: Frame): (Slots, Option<Slot>) {
    var pendingFirst := f.kBit != s.kBit && s.pending.Some?;
    var (s1, first) := if pendingFirst then (s, false) else TryCurrent(c, s, f);
    if first then (s1, Some(Current))
    else
      var (s2, second) := TryPending(c, s1, f);
      if second then (s2, Some(Pending))
      else
        var (s3, third) := if pendingFirst then TryCurrent(c, s2, f) else (s2, false);
        if third then (s3, Some(Current))
        else
          var (s4, last) := TryPrevious(c, s3, f);
          (s4, if last then Some(Previous) else None)
  }

  /** The slots after a frame: a frame taken by the pending session promotes it, one taken by the
      previous session prolongs the drain. */
  function Received(c: Suite, s: Slots, f: Frame, now: nat): Slots {
    var (t, slot) := Trial(c, s, f);
    if slot == Some(Pending) then Promoted(t, now)
    else if slot == Some(Previous) then t.(drainStarted := Some(now))
    else t
  }

  predicate PromotedBy(c: Suite, s: Slots, f: Frame) {
    Trial(c, s, f).1 == Some(Pending)
  }

  /** An end cuts over only with a session pending, and ends a drain only after its peer has moved. */
  predicate MayAct(s: Slots, g: nat, peer: nat, gens: seq<Generation>, act: Act) {
    && s.current.Some?
    && match act
       case Hold => g + 1 < |gens|
       case Switch(_) => s.pending.Some?
       case Forget => peer >= g
       case _ => true
  }

  function Acted(c: Suite, s: Slots, g: nat, gens: seq<Generation>, side: Side, act: Act): (Slots, nat)
    requires s.current.Some? && (act.Hold? ==> g + 1 < |gens|)
  {
    match act
    case Hold =>
      var pair := gens[g + 1];
      (Held(s, Half(pair, side), IndexOf(pair, side), IndexOf(pair, Other(side))), g)
    case Switch(now) => (Promoted(s, now), g + 1)
    case Forget => (Drained(s), g)
    case GiveUp => (Abandoned(s), g)
    case Receive(f, now) => (Received(c, s, f, now), if PromotedBy(c, s, f) then g + 1 else g)
  }

  /** A rekey starts only when the last one is over: both ends run it, or both have given it up. */
  predicate Enabled(d: Link, m: Move) {
    match m
    case Agree(pair) =>
      && GoodPair(pair) && d.leftGen == d.rightGen
      && (d.leftGen + 1 == |d.gens| || (d.leftGen + 2 == |d.gens| && d.left.pending.None? && d.right.pending.None?))
    case At(side, act) => MayAct(d.End(side), d.Gen(side), d.Gen(Other(side)), d.gens, act)
  }

  function Moved(c: Suite, d: Link, m: Move): Link
    requires Enabled(d, m)
  {
    match m
    case Agree(pair) => d.(gens := d.gens[..d.leftGen + 1] + [pair])
    case At(side, act) =>
      var (s, g) := Acted(c, d.End(side), d.Gen(side), d.gens, side, act);
      d.With(side, s, g)
  }

  // ----- the invariant -----

  /** The slot is occupied by a session with the keys of generation `g`, received under that generation's index. */
  predicate HasGen(slot: Option<Session>, index: Option<Index>, gens: seq<Generation>, g: int, side: Side) {
    slot.Some? && 0 <= g < |gens| && SameKeys(slot.value, Half(gens[g], side)) && index == Some(IndexOf(gens[g], side))
  }

  /** What an end at generation `g` holds, when its peer is at generation `peer`. */
  predicate Holds(s: Slots, g: nat, peer: nat, gens: seq<Generation>, side: Side) {
    && g < |gens| <= g + 2
    && HasGen(s.current, s.ourIndex, gens, g, side) && s.theirIndex == Some(IndexOf(gens[g], Other(side)))
    && (s.kBit <==> g % 2 == 1)
    && (s.pending.Some? ==>
          && HasGen(s.pending, s.pendingIndex, gens, g + 1, side)
          && s.pendingTheirs == Some(IndexOf(gens[g + 1], Other(side))))
    && (s.previous.Some? ==> HasGen(s.previous, s.previousIndex, gens, g - 1, side))
    && (peer < g ==> s.previous.Some?)
  }

  lemma AgreeHolds(s: Slots, g: nat, peer: nat, gens: seq<Generation>, side: Side, pair: Generation)
    requires Holds(s, g, peer, gens, side) && (g + 1 == |gens| || s.pending.None?)
    ensures Holds(s, g, peer, gens[..g + 1] + [pair], side)
  {
  }

  lemma PromotedHolds(s: Slots, g: nat, peer: nat, gens: seq<Generation>, side: Side, now: nat)
    requires Holds(s, g, peer, gens, side) && s.pending.Some?
    ensures Holds(Promoted(s, now), g + 1, peer, gens, side)
  {
  }

  lemma TriesHold(c: Suite, s: Slots, g: nat, peer: nat, gens: seq<Generation>, side: Side, f: Frame)
    requires Holds(s, g, peer, gens, side)
    ensures Holds(TryCurrent(c, s, f).0, g, peer, gens, side)
    ensures Holds(TryPending(c, s, f).0, g, peer, gens, side)
    ensures Holds(TryPrevious(c, s, f).0, g, peer, gens, side)
  {
  }

  lemma {:induction false} TrialHolds(c: Suite, s: Slots, g: nat, peer: nat, gens: seq<Generation>, side: Side,
                                      f: Frame)
    requires Holds(s, g, peer, gens, side)
    ensures Holds(Trial(c, s, f).0, g, peer, gens, side)
    ensures Trial(c, s, f).1 == Some(Pending) ==> Trial(c, s, f).0.pending.Some?
  {
    var pendingFirst := f.kBit != s.kBit && s.pending.Some?;
    TriesHold(c, s, g, peer, gens, side, f);
    var s1 := if pendingFirst then s else TryCurrent(c, s, f).0;
    TriesHold(c, s1, g, peer, gens, side, f);
    var s2 := TryPending(c, s1, f).0;
    TriesHold(c, s2, g, peer, gens, side, f);
    var s3 := if pendingFirst then TryCurrent(c, s2, f).0 else s2;
    TriesHold(c, s3, g, peer, gens, side, f);
  }

  lemma {:induction false} ReceivedHolds(c: Suite, s: Slots, g: nat, peer: nat, gens: seq<Generation>, side: Side,
                                         f: Frame, now: nat)
    requires Holds(s, g, peer, gens, side)
    ensures Holds(Received(c, s, f, now), if PromotedBy(c, s, f) then g + 1 else g, peer, gens, side)
  {
    TrialHolds(c, s, g, peer, gens, side, f);
    if PromotedBy(c, s, f) { PromotedHolds(Trial(c, s, f).0, g, peer, gens, side, now); }
  }

  lemma {:induction false} ActedHolds(c: Suite, s: Slots, g: nat, peer: nat, gens: seq<Generation>, side: Side,
                                      act: Act)
    requires Holds(s, g, peer, gens, side) && MayAct(s, g, peer, gens, act)
    ensures var (t, h) := Acted(c, s, g, gens, side, act);
      g <= h <= g + 1 && Holds(t, h, peer, gens, side)
  {
    match act
    case Hold =>
    case Switch(now) => PromotedHolds(s, g, peer, gens, side, now);
    case Forget =>
    case GiveUp =>
    case Receive(f, now) => ReceivedHolds(c, s, g, peer, gens, side, f, now);
  }

  /** A peer that moves ahead asks no more of this end. */
  lemma PeerMoves(s: Slots, g: nat, peer: nat, ahead: nat, gens: seq<Generation>, side: Side)
    requires Holds(s, g, peer, gens, side) && ahead >= peer
    ensures Holds(s, g, ahead, gens, side)
  {
  }

  predicate HoldsEnd(d: Link, side: Side) {
    Holds(d.End(side), d.Gen(side), d.Gen(Other(side)), d.gens, side)
  }

  ghost predicate AllGood(gens: seq<Generation>) {
    forall i | 0 <= i < |gens| :: GoodPair(gens[i])
  }

  ghost predicate Aligned(d: Link) {
    AllGood(d.gens) && HoldsEnd(d, Left) && HoldsEnd(d, Right)
  }

  lemma {:induction false} AgreeStep(d: Link, pair: Generation, c: Suite)
    requires HoldsEnd(d, Left) && HoldsEnd(d, Right) && AllGood(d.gens) && Enabled(d, Agree(pair))
    ensures Aligned(Moved(c, d, Agree(pair)))
  {
    AgreeHolds(d.left, d.leftGen, d.rightGen, d.gens, Left, pair);
    AgreeHolds(d.right, d.rightGen, d.leftGen, d.gens, Right, pair);
  }

  lemma {:induction false} ActStep(c: Suite, d: Link, side: Side, act: Act)
    requires HoldsEnd(d, Left) && HoldsEnd(d, Right) && Enabled(d, At(side, act))
    ensures HoldsEnd(Moved(c, d, At(side, act)), Left) && HoldsEnd(Moved(c, d, At(side, act)), Right)
  {
    var other := Other(side);
    ActedHolds(c, d.End(side), d.Gen(side), d.Gen(other), d.gens, side, act);
    var h := Acted(c, d.End(side), d.Gen(side), d.gens, side, act).1;
    PeerMoves(d.End(other), d.Gen(other), d.Gen(side), h, d.gens, other);
  }

  lemma {:induction false} AlignedStep(c: Suite, d: Link, m: Move)
    requires Aligned(d) && Enabled(d, m)
    ensures Aligned(Moved(c, d, m))
  {
    match m
    case Agree(pair) => AgreeStep(d, pair, c);
    case At(side, act) => ActStep(c, d, side, act);
  }

  lemma LinkedAligned(pair: Generation)
    requires GoodPair(pair)
    ensures Aligned(Linked(pair))
  {
  }

  /** `last` is reached from `d` by enabled moves. */
  ghost predicate Reaches(c: Suite, d: Link, moves: seq<Move>, last: Link)
    decreases |moves|
  {
    if moves == [] then d == last
    else Enabled(d, moves[0]) && Reaches(c, Moved(c, d, moves[0]), moves[1..], last)
  }

  lemma {:induction false} AlignedAlways(c: Suite, d: Link, moves: seq<Move>, last: Link)
    requires Aligned(d) && Reaches(c, d, moves, last)
    ensures Aligned(last)
    decreases |moves|
  {
    if moves != [] {
      AlignedStep(c, d, moves[0]);
      AlignedAlways(c, Moved(c, d, moves[0]), moves[1..], last);
    }
  }

  // ----- what it means for traffic -----

  /** `f` carries `plain` sealed under the current session of `s`, marked with its K-bit. */
  predicate SealedBy(c: Suite, s: Slots, f: Frame, plain: Bytes) {
    && s.current.Some? && f.kBit == s.kBit
    && f.ciphertext == c.seal(s.current.value.send.key, f.counter, f.header, plain)
  }

  lemma HalfOpens(c: Suite, a: Session, b: Session, f: Frame, plain: Bytes)
    requires Lawful(c) && a.send == b.recv && a.send.hasKey
    requires f.ciphertext == c.seal(a.send.key, f.counter, f.header, plain)
    ensures OpensUnder(c, b, f) && b.recv.DecryptWithCounter(c, f.ciphertext, f.counter, f.header) == Ok(plain)
  {
  }

  /** The slot of `s` that holds the partner of a sender's session, when the sender is `ahead`
      generations ahead of it. */
  function SlotFor(s: Slots, ahead: int): Option<Session> {
    if ahead == 0 then s.current else if ahead == 1 then s.pending else s.previous
  }

  /** The index that slot is received under. */
  function IndexFor(s: Slots, ahead: int): Option<Index> {
    if ahead == 0 then s.ourIndex else if ahead == 1 then s.pendingIndex else s.previousIndex
  }

  /** A frame is taken exactly if some slot would take it, and only by a slot that does. */
  lemma TrialTakes(c: Suite, s: Slots, f: Frame)
    ensures var inCurrent := s.current.Some? && Attempt(c, s.current.value, f).1;
      var inPending := s.pending.Some? && Attempt(c, s.pending.value, f).1;
      var inPrevious := s.previous.Some? && Attempt(c, s.previous.value, f).1;
      && (Trial(c, s, f).1 == Some(Current) <==> inCurrent && !(inPending && f.kBit != s.kBit))
      && (Trial(c, s, f).1 == Some(Pending) <==> inPending && !(inCurrent && f.kBit == s.kBit))
      && (Trial(c, s, f).1 == Some(Previous) <==> inPrevious && !inCurrent && !inPending)
      && (Trial(c, s, f).1 == None <==> !inCurrent && !inPending && !inPrevious)
  {
  }

  /** The same session, with the counter of `f` closed. */
  predicate Closed(now: Option<Session>, was: Option<Session>, f: Frame) {
    now.Some? && was.Some? && SameKeys(now.value, was.value) && !now.value.replay.Check(f.counter)
  }

  /** A session takes what it accepts and opens to at least an inner header of five bytes; it closes the counter
      of whatever it accepts, taken or not, and changes for nothing else. */
  lemma {:induction false} AttemptIff(c: Suite, s: Session, f: Frame)
    ensures var (after, taken) := Attempt(c, s, f);
      && (taken <==> Accepts(c, s, f) && |s.recv.DecryptWithCounter(c, f.ciphertext, f.counter, f.header).value| >= 5)
      && (if Accepts(c, s, f) then Closed(Some(after), Some(s), f) else after == s)
  {
    if Accepts(c, s, f) { Replay.ClosedStaysClosed(s.replay, f.counter, f.counter); }
  }

  /** A frame that is taken is taken once: the slot that takes it keeps its session and closes the counter. The
      pending slot does so by cutting over, the previous one restarts the drain. */
  lemma {:induction false} TakenOnce(c: Suite, s: Slots, f: Frame, now: nat)
    ensures var t := Received(c, s, f, now);
      match Trial(c, s, f).1
      case None => t.kBit == s.kBit && t.drainStarted == s.drainStarted
      case Some(Current) => Closed(t.current, s.current, f) && t.kBit == s.kBit && t.drainStarted == s.drainStarted
      case Some(Pending) =>
        && Closed(t.current, s.pending, f) && t.ourIndex == s.pendingIndex
        && t.kBit != s.kBit && t.drainStarted == Some(now)
      case Some(Previous) => Closed(t.previous, s.previous, f) && t.kBit == s.kBit && t.drainStarted == Some(now)
  {
    TrialTakes(c, s, f);
    if s.current.Some? && Attempt(c, s.current.value, f).1 { AttemptIff(c, s.current.value, f); }
    if s.pending.Some? && Attempt(c, s.pending.value, f).1 { AttemptIff(c, s.pending.value, f); }
    if s.previous.Some? && Attempt(c, s.previous.value, f).1 { AttemptIff(c, s.previous.value, f); }
  }

  /** The receiver opens `f` to `plain`, and takes it unless its replay window rules the counter out or
      `plain` has no inner header. */
  predicate Takes(c: Suite, r: Slots, ahead: int, f: Frame, plain: Bytes) {
    var slot := SlotFor(r, ahead);
    && slot.Some?
    && slot.value.recv.DecryptWithCounter(c, f.ciphertext, f.counter, f.header) == Ok(plain)
    && (slot.value.replay.Check(f.counter) && Channel.StripInner(plain).Some? ==> Trial(c, r, f).1.Some?)
  }

  /** One frame between two ends that hold what they should. */
  lemma {:induction false} FrameOpens(c: Suite, s: Slots, g: nat, r: Slots, rg: nat, gens: seq<Generation>,
                                      sender: Side, f: Frame, plain: Bytes)
    requires Lawful(c) && Holds(s, g, rg, gens, sender) && Holds(r, rg, g, gens, Other(sender)) && GoodPair(gens[g])
    requires SealedBy(c, s, f, plain) && (g <= rg || (g == rg + 1 && r.pending.Some?))
    ensures Takes(c, r, g - rg, f, plain) && s.theirIndex.Some? && s.theirIndex == IndexFor(r, g - rg)
  {
    var slot := SlotFor(r, g - rg);
    assert HasGen(slot, IndexFor(r, g - rg), gens, g, Other(sender));
    HalfOpens(c, s.current.value, slot.value, f, plain);
    TrialTakes(c, r, f);
  }

  lemma {:induction false} AlignedGap(d: Link)
    requires Aligned(d)
    ensures -1 <= d.leftGen - d.rightGen <= 1
    ensures d.left.kBit == d.right.kBit <==> d.leftGen == d.rightGen
    ensures d.leftGen < |d.gens| && GoodPair(d.gens[d.leftGen]) && d.rightGen < |d.gens| && GoodPair(d.gens[d.rightGen])
  {
  }

  /** In every reachable state, whatever frames arrived and whichever rekeys were given up: the ends are
      at most one cutover apart, their K-bits agree exactly when they run the same generation, and
      whatever either end seals under its current session opens, to what was sealed, at a peer that has
      installed that generation, and is addressed to the index under which that peer holds it. */
  lemma {:induction false} OverlappingEpochs(c: Suite, pair: Generation, moves: seq<Move>, last: Link, sender: Side,
                                             f: Frame, plain: Bytes)
    requires Lawful(c) && GoodPair(pair) && Reaches(c, Linked(pair), moves, last)
    ensures -1 <= last.leftGen - last.rightGen <= 1
    ensures last.left.kBit == last.right.kBit <==> last.leftGen == last.rightGen
    ensures SealedBy(c, last.End(sender), f, plain) && last.Installed(Other(sender), last.Gen(sender)) ==>
      var (s, r, ahead) := (last.End(sender), last.End(Other(sender)), last.Gen(sender) - last.Gen(Other(sender)));
      Takes(c, r, ahead, f, plain) && s.theirIndex.Some? && s.theirIndex == IndexFor(r, ahead)
  {
    LinkedAligned(pair);
    AlignedAlways(c, Linked(pair), moves, last);
    AlignedGap(last);
    if SealedBy(c, last.End(sender), f, plain) && last.Installed(Other(sender), last.Gen(sender)) {
      var other := Other(sender);
      FrameOpens(c, last.End(sender), last.Gen(sender), last.End(other), last.Gen(other), last.gens, sender, f, plain);
    }
  }
}
