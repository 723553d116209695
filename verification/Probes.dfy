/** The retry book of the BLE probe loop: addresses seen but not yet connected, each with its count of
    consecutive failures and the time before which it is not dialled again. */
module Probes {
  import opened Results
  import opened Words

  type BleAddr = nat

  datatype Probe = Probe(addr: BleAddr, failures: u32, nextAttempt: nat)

  type Book = seq<Probe>

  const U32_MAX: u32 := 0xFFFF_FFFF
  const MAX_PENDING_PROBES := 32
  const MAX_PROBE_BACKOFF_SHIFT := 5

  // ----- the book as a value -----

  /** The first position of `x`, or the length of the book. */
  function Where(b: Book, x: BleAddr): (i: nat)
    ensures i <= |b| && (i < |b| ==> b[i].addr == x)
  {
    if b == [] then 0 else if b[0].addr == x then 0 else 1 + Where(b[1..], x)
  }

  predicate Has(b: Book, x: BleAddr) {
    Where(b, x) < |b|
  }

  function Find(b: Book, x: BleAddr): Option<Probe> {
    if Has(b, x) then Some(b[Where(b, x)]) else None
  }

  function Without(b: Book, i: nat): Book
    requires i < |b|
  {
    b[..i] + b[i + 1..]
  }

  /** More failures, or as many and a later next attempt. */
  predicate Better(p: Probe, q: Probe) {
    p.failures < q.failures || (p.failures == q.failures && p.nextAttempt < q.nextAttempt)
  }

  /** The most-failed entry; of equals, the last. */
  function Worst(b: Book): (w: nat)
    requires b != []
    ensures w < |b|
    ensures forall i | 0 <= i < |b| :: !Better(b[w], b[i]) && (i > w ==> Better(b[i], b[w]))
  {
    if |b| == 1 then 0
    else
      var w := Worst(b[..|b| - 1]);
      if Better(b[|b| - 1], b[w]) then w else |b| - 1
  }

  /** A known address keeps its entry; a new one is due at once and, in a full book, takes the place of
      the most-failed entry. */
  function Observed(b: Book, x: BleAddr, now: nat): Book {
    if Has(b, x) then b
    else (if |b| >= MAX_PENDING_PROBES then Without(b, Worst(b)) else b) + [Probe(x, 0, now)]
  }

  predicate IsDue(b: Book, x: BleAddr, now: nat) {
    Has(b, x) ==> b[Where(b, x)].nextAttempt <= now
  }

  function Marked(b: Book, cooldown: nat, x: BleAddr, now: nat): Book {
    if Has(b, x) then b[Where(b, x) := b[Where(b, x)].(nextAttempt := now + cooldown)] else b
  }

  function SaturatingNext(n: u32): u32 {
    if n == U32_MAX then n else n + 1
  }

  /** Backoff after the given number of consecutive failures. */
  function Backoff(cooldown: nat, failures: nat): nat
    requires failures > 0
  {
    cooldown * Pow2(if failures - 1 < MAX_PROBE_BACKOFF_SHIFT then failures - 1 else MAX_PROBE_BACKOFF_SHIFT)
  }

  function FailedProbe(p: Probe, cooldown: nat, now: nat): Probe {
    var n := SaturatingNext(p.failures);
    Probe(p.addr, n, now + Backoff(cooldown, n))
  }

  function Failed(b: Book, cooldown: nat, x: BleAddr, now: nat): Book {
    if Has(b, x) then b[Where(b, x) := FailedProbe(b[Where(b, x)], cooldown, now)] else b
  }

  function Kept(b: Book, gone: set<BleAddr>): Book {
    if b == [] then []
    else Kept(b[..|b| - 1], gone) + (if b[|b| - 1].addr in gone then [] else [b[|b| - 1]])
  }

  /** The first due entry, or the length of the book. */
  function FirstDue(b: Book, now: nat): (i: nat)
    ensures i <= |b| && (i < |b| ==> b[i].nextAttempt <= now)
    ensures forall j | 0 <= j < i :: b[j].nextAttempt > now
  {
    if b == [] then 0 else if b[0].nextAttempt <= now then 0 else 1 + FirstDue(b[1..], now)
  }

  function Rotated(b: Book, i: nat): Book
    requires i < |b|
  {
    Without(b, i) + [b[i]]
  }

  /** The first due address, moved to the back. */
  function NextDue(b: Book, now: nat): (Book, Option<BleAddr>) {
    var i := FirstDue(b, now);
    if i == |b| then (b, None) else (Rotated(b, i), Some(b[i].addr))
  }

  // ----- where an address is after each change -----

  lemma {:induction false} WhereFirst(b: Book, x: BleAddr, i: nat)
    requires i <= |b| && (forall j | 0 <= j < i :: b[j].addr != x) && (i < |b| ==> b[i].addr == x)
    ensures Where(b, x) == i
  {
    if i > 0 { WhereFirst(b[1..], x, i - 1); }
  }

  lemma {:induction false} WhereEarlier(b: Book, x: BleAddr)
    ensures forall j | 0 <= j < Where(b, x) :: b[j].addr != x
  {
    if b != [] && b[0].addr != x {
      WhereEarlier(b[1..], x);
      assert forall j | 1 <= j < |b| :: b[j] == b[1..][j - 1];
    }
  }

  lemma WhereWithout(b: Book, i: nat, x: BleAddr)
    requires i < |b| && b[i].addr != x && Has(b, x)
    ensures Where(Without(b, i), x) == Where(b, x) - (if i < Where(b, x) then 1 else 0)
    ensures Find(Without(b, i), x) == Find(b, x)
  {
    WhereEarlier(b, x);
    WhereFirst(Without(b, i), x, Where(b, x) - (if i < Where(b, x) then 1 else 0));
  }

  lemma WherePushed(b: Book, e: Probe, x: BleAddr)
    ensures Has(b, x) ==> Where(b + [e], x) == Where(b, x) && Find(b + [e], x) == Find(b, x)
    ensures !Has(b, x) && e.addr == x ==> Where(b + [e], x) == |b| && Find(b + [e], x) == Some(e)
    ensures !Has(b, x) && e.addr != x ==> !Has(b + [e], x)
  {
    WhereEarlier(b, x);
    WhereFirst(b + [e], x, if !Has(b, x) && e.addr != x then |b| + 1 else Where(b, x));
  }

  lemma WhereUpdated(b: Book, y: BleAddr, e: Probe, x: BleAddr)
    requires Has(b, y) && e.addr == y
    ensures var after := b[Where(b, y) := e];
      Where(after, x) == Where(b, x) && (if x == y then Find(after, x) == Some(e) else Find(after, x) == Find(b, x))
  {
    WhereEarlier(b, x);
    WhereFirst(b[Where(b, y) := e], x, Where(b, x));
  }

  lemma {:induction false} WhereKept(b: Book, gone: set<BleAddr>, x: BleAddr)
    ensures Has(b, x) && x !in gone ==> Where(Kept(b, gone), x) <= Where(b, x) && Find(Kept(b, gone), x) == Find(b, x)
    ensures x in gone ==> !Has(Kept(b, gone), x)
    ensures Has(Kept(b, gone), x) ==> Has(b, x)
    ensures |Kept(b, gone)| <= |b|
    decreases |b|
  {
    if b != [] {
      var init, e := b[..|b| - 1], b[|b| - 1];
      WhereKept(init, gone, x);
      assert init + [e] == b;
      WherePushed(init, e, x);
      if e.addr in gone { assert Kept(b, gone) == Kept(init, gone); } else { WherePushed(Kept(init, gone), e, x); }
    }
  }

  lemma WhereRotated(b: Book, i: nat, x: BleAddr)
    requires i < |b| && b[i].addr != x && Has(b, x)
    ensures Where(Rotated(b, i), x) == Where(b, x) - (if i < Where(b, x) then 1 else 0)
    ensures Find(Rotated(b, i), x) == Find(b, x)
  {
    WhereWithout(b, i, x);
    WherePushed(Without(b, i), b[i], x);
  }

  // ----- the book is bounded and lists each address once -----

  predicate Distinct(b: Book) {
    forall i, j | 0 <= i < j < |b| :: b[i].addr != b[j].addr
  }

  predicate Sound(b: Book) {
    Distinct(b) && |b| <= MAX_PENDING_PROBES
  }

  lemma PushedDistinct(b: Book, e: Probe)
    requires Distinct(b) && !Has(b, e.addr)
    ensures Distinct(b + [e])
  {
    WhereEarlier(b, e.addr);
  }

  lemma HasIndex(b: Book, i: nat)
    requires i < |b|
    ensures Has(b, b[i].addr)
  {
    WhereEarlier(b, b[i].addr);
  }

  lemma OnlyWithout(b: Book, i: nat, x: BleAddr)
    requires i < |b| && !Has(b, x)
    ensures !Has(Without(b, i), x)
  {
    WhereEarlier(b, x);
    WhereFirst(Without(b, i), x, |b| - 1);
  }

  lemma {:induction false} OnceWithout(b: Book, i: nat)
    requires Distinct(b) && i < |b|
    ensures Distinct(Without(b, i)) && !Has(Without(b, i), b[i].addr)
  {
    WhereFirst(Without(b, i), b[i].addr, |b| - 1);
  }

  lemma {:induction false} KeptDistinct(b: Book, gone: set<BleAddr>)
    requires Distinct(b)
    ensures Distinct(Kept(b, gone)) && |Kept(b, gone)| <= |b|
    decreases |b|
  {
    if b != [] {
      var init, e := b[..|b| - 1], b[|b| - 1];
      KeptDistinct(init, gone);
      if e.addr !in gone {
        WhereFirst(init, e.addr, |init|);
        WhereKept(init, gone, e.addr);
        PushedDistinct(Kept(init, gone), e);
      }
    }
  }

  // ----- operations -----

  datatype Op =
    | Observe(addr: BleAddr, now: nat)
    | Attempt(addr: BleAddr, now: nat)
    | Failure(addr: BleAddr, now: nat)
    | Resolve(addr: BleAddr)
    | DropConnected(connected: set<BleAddr>)
    | Tick(now: nat)

  function Apply(b: Book, cooldown: nat, op: Op): Book {
    match op
    case Observe(x, now) => Observed(b, x, now)
    case Attempt(x, now) => Marked(b, cooldown, x, now)
    case Failure(x, now) => Failed(b, cooldown, x, now)
    case Resolve(x) => Kept(b, {x})
    case DropConnected(connected) => Kept(b, connected)
    case Tick(now) => NextDue(b, now).0
  }

  lemma SoundStep(b: Book, cooldown: nat, op: Op)
    requires Sound(b)
    ensures Sound(Apply(b, cooldown, op))
  {
    match op
    case Observe(x, now) =>
      if !Has(b, x) {
        if |b| >= MAX_PENDING_PROBES {
          OnceWithout(b, Worst(b));
          OnlyWithout(b, Worst(b), x);
          PushedDistinct(Without(b, Worst(b)), Probe(x, 0, now));
        } else {
          PushedDistinct(b, Probe(x, 0, now));
        }
      }
    case Attempt(_, _) =>
    case Failure(_, _) =>
    case Resolve(x) => KeptDistinct(b, {x});
    case DropConnected(connected) => KeptDistinct(b, connected);
    case Tick(now) =>
      var i := FirstDue(b, now);
      if i < |b| {
        OnceWithout(b, i);
        PushedDistinct(Without(b, i), b[i]);
      }
  }

  function RunOps(b: Book, cooldown: nat, ops: seq<Op>): Book {
    if ops == [] then b else Apply(RunOps(b, cooldown, ops[..|ops| - 1]), cooldown, ops[|ops| - 1])
  }

  /** At most 32 entries, no address twice, after every sequence of operations. */
  lemma {:induction false} BookBounded(cooldown: nat, ops: seq<Op>)
    ensures Sound(RunOps([], cooldown, ops))
    decreases |ops|
  {
    if ops != [] {
      BookBounded(cooldown, ops[..|ops| - 1]);
      SoundStep(RunOps([], cooldown, ops[..|ops| - 1]), cooldown, ops[|ops| - 1]);
    }
  }

  // ----- fairness -----

  /** `op` does not change the entry of `x`; a repeated sighting of `x` does not. */
  predicate Spares(op: Op, x: BleAddr) {
    match op
    case Observe(_, _) => true
    case Attempt(y, _) => y != x
    case Failure(y, _) => y != x
    case Resolve(y) => y != x
    case DropConnected(connected) => x !in connected
    case Tick(_) => true
  }

  lemma {:induction false} ObservedKeepsPlace(b: Book, y: BleAddr, now: nat, x: BleAddr)
    requires Sound(b) && Has(b, x) && Has(Observed(b, y, now), x)
    ensures Where(Observed(b, y, now), x) <= Where(b, x) && Find(Observed(b, y, now), x) == Find(b, x)
  {
    if !Has(b, y) {
      var e := Probe(y, 0, now);
      if |b| >= MAX_PENDING_PROBES {
        var w := Worst(b);
        if b[w].addr == x {
          OnceWithout(b, w);
        } else {
          WhereWithout(b, w, x);
        }
        WherePushed(Without(b, w), e, x);
      } else {
        WherePushed(b, e, x);
      }
    }
  }

  lemma TickMovesForward(b: Book, now: nat, x: BleAddr)
    requires Has(b, x) && NextDue(b, now).1 != Some(x) && Find(b, x).value.nextAttempt <= now
    ensures Where(NextDue(b, now).0, x) + 1 == Where(b, x) && Find(NextDue(b, now).0, x) == Find(b, x)
  {
    WhereRotated(b, FirstDue(b, now), x);
  }

  lemma MarkedKeepsPlace(b: Book, cooldown: nat, y: BleAddr, now: nat, x: BleAddr)
    ensures Where(Marked(b, cooldown, y, now), x) == Where(b, x)
    ensures x != y ==> Find(Marked(b, cooldown, y, now), x) == Find(b, x)
    ensures x == y && Has(b, x) ==>
      Find(Marked(b, cooldown, y, now), x) == Some(Find(b, x).value.(nextAttempt := now + cooldown))
  {
    if Has(b, y) { WhereUpdated(b, y, b[Where(b, y)].(nextAttempt := now + cooldown), x); }
  }

  lemma FailedKeepsPlace(b: Book, cooldown: nat, y: BleAddr, now: nat, x: BleAddr)
    ensures Where(Failed(b, cooldown, y, now), x) == Where(b, x)
    ensures x != y ==> Find(Failed(b, cooldown, y, now), x) == Find(b, x)
    ensures x == y && Has(b, x) ==>
      Find(Failed(b, cooldown, y, now), x) == Some(FailedProbe(Find(b, x).value, cooldown, now))
  {
    if Has(b, y) { WhereUpdated(b, y, FailedProbe(b[Where(b, y)], cooldown, now), x); }
  }

  /** An operation that spares `x` never moves it back, except by returning it as due; and while it is
      due, every tick that does not return it moves it forward. */
  lemma PlaceStep(b: Book, cooldown: nat, op: Op, x: BleAddr)
    requires Sound(b) && Has(b, x) && Spares(op, x) && Has(Apply(b, cooldown, op), x)
    requires op.Tick? ==> NextDue(b, op.now).1 != Some(x) && Find(b, x).value.nextAttempt <= op.now
    ensures Where(Apply(b, cooldown, op), x) + (if op.Tick? then 1 else 0) <= Where(b, x)
    ensures Find(Apply(b, cooldown, op), x) == Find(b, x)
  {
    match op
    case Observe(y, now) => ObservedKeepsPlace(b, y, now, x);
    case Attempt(y, now) => MarkedKeepsPlace(b, cooldown, y, now, x);
    case Failure(y, now) => FailedKeepsPlace(b, cooldown, y, now, x);
    case Resolve(y) => WhereKept(b, {y}, x);
    case DropConnected(connected) => WhereKept(b, connected, x);
    case Tick(now) => TickMovesForward(b, now, x);
  }

  function Ticks(ops: seq<Op>): nat {
    if ops == [] then 0 else Ticks(ops[..|ops| - 1]) + (if ops[|ops| - 1].Tick? then 1 else 0)
  }

  /** Along `ops` the address stays in the book, is spared, and is due at every tick. */
  ghost predicate Waits(b: Book, cooldown: nat, ops: seq<Op>, x: BleAddr) {
    && (forall i | 0 <= i <= |ops| :: Has(RunOps(b, cooldown, ops[..i]), x))
    && (forall i | 0 <= i < |ops| :: Spares(ops[i], x)
          && (ops[i].Tick? ==> Find(RunOps(b, cooldown, ops[..i]), x).value.nextAttempt <= ops[i].now))
  }

  /** Some tick of `ops` returns `x`. */
  ghost predicate Returned(b: Book, cooldown: nat, ops: seq<Op>, x: BleAddr) {
    exists i | 0 <= i < |ops| :: ops[i].Tick? && NextDue(RunOps(b, cooldown, ops[..i]), ops[i].now).1 == Some(x)
  }

  lemma {:induction false} PlaceAndTicks(b: Book, cooldown: nat, ops: seq<Op>, x: BleAddr)
    requires Sound(b) && Waits(b, cooldown, ops, x) && !Returned(b, cooldown, ops, x)
    ensures Sound(RunOps(b, cooldown, ops))
    ensures Where(RunOps(b, cooldown, ops), x) + Ticks(ops) <= Where(b, x)
    decreases |ops|
  {
    if ops == [] {
      assert Has(RunOps(b, cooldown, ops[..0]), x);
    } else {
      var k := |ops| - 1;
      var init := ops[..k];
      assert forall i | 0 <= i <= k :: init[..i] == ops[..i];
      assert forall i | 0 <= i < k :: init[i] == ops[i];
      PlaceAndTicks(b, cooldown, init, x);
      var before := RunOps(b, cooldown, init);
      SoundStep(before, cooldown, ops[k]);
      assert ops[..|ops|] == ops;
      PlaceStep(before, cooldown, ops[k], x);
    }
  }

  /** A due address is returned within as many ticks as its position plus one, so within 32, whatever
      happens to the other addresses in between. */
  lemma {:induction false} RetryFairness(b: Book, cooldown: nat, ops: seq<Op>, x: BleAddr)
    requires Sound(b) && Waits(b, cooldown, ops, x) && Ticks(ops) > Where(b, x)
    ensures Returned(b, cooldown, ops, x)
    ensures Where(b, x) < MAX_PENDING_PROBES
  {
    if !Returned(b, cooldown, ops, x) { PlaceAndTicks(b, cooldown, ops, x); }
    assert Has(RunOps(b, cooldown, ops[..0]), x);
  }

  // ----- the probe loop and its backoff -----

  datatype Source =
    | Sighted(addr: BleAddr)
    | RetryTick(connected: set<BleAddr>, now: nat)

  /** How a dial ends; without a local key, a won tie-break or a free pool slot it ends with nothing recorded. */
  datatype Ending = Inconclusive | Concluded | NoAnswer(at: nat)

  /** One turn of the loop: where the address comes from, the time, whether the pool already has it,
      whether it is known to belong to a connected node, and how dialling it ends. */
  datatype Turn = Turn(source: Source, now: nat, pooled: bool, known: bool, ending: Ending)

  /** The address a turn is about, and the book after picking it. */
  function Picked(b: Book, t: Turn): (Book, Option<BleAddr>) {
    match t.source
    case Sighted(x) => (b, Some(x))
    case RetryTick(connected, now) => NextDue(Kept(b, connected), now)
  }

  /** The turn dials the address it picked. */
  predicate Dials(b: Book, t: Turn) {
    var (picked, addr) := Picked(b, t);
    addr.Some? && !t.pooled && IsDue(Observed(picked, addr.value, t.now), addr.value, t.now) && !t.known
  }

  /** The book after dialling a due address. */
  function Dialled(seen: Book, cooldown: nat, t: Turn, x: BleAddr): Book {
    var dialling := Marked(seen, cooldown, x, t.now);
    match t.ending
    case Inconclusive => dialling
    case Concluded => Kept(dialling, {x})
    case NoAnswer(at) => Failed(dialling, cooldown, x, at)
  }

  /** The rest of a turn, about the address it picked. */
  function Handled(picked: Book, cooldown: nat, t: Turn, x: BleAddr): Book {
    if t.pooled then Kept(picked, {x})
    else
      var seen := Observed(picked, x, t.now);
      if !IsDue(seen, x, t.now) then seen
      else if t.known then Kept(seen, {x})
      else Dialled(seen, cooldown, t, x)
  }

  function AfterTurn(b: Book, cooldown: nat, t: Turn): Book {
    var (picked, addr) := Picked(b, t);
    if addr.None? then picked else Handled(picked, cooldown, t, addr.value)
  }

  /** The turn records a failure of `x`. */
  predicate FailsAt(b: Book, t: Turn, x: BleAddr) {
    Dials(b, t) && Picked(b, t).1 == Some(x) && t.ending.NoAnswer?
  }

  /** Total backoff served by `k` consecutive failures. */
  function Served(cooldown: nat, k: nat): nat {
    if k == 0 then 0 else Served(cooldown, k - 1) + Backoff(cooldown, k)
  }

  lemma Pow2Small()
    ensures Pow2(5) == 32 && Pow2(6) == 64
  {
    assert Pow2(3) == 8;
  }

  lemma Doubling(c: nat, p: nat)
    ensures c * (p - 1) + c * p == c * (2 * p - 1)
  {
  }

  lemma ThirtyTwoMore(c: nat, m: nat)
    ensures c * (63 + 32 * m) + c * 32 == c * (63 + 32 * (m + 1))
  {
  }

  lemma {:induction false} ServedEarly(cooldown: nat, k: nat)
    requires k <= 6
    ensures Served(cooldown, k) == cooldown * (Pow2(k) - 1)
  {
    if k > 0 {
      ServedEarly(cooldown, k - 1);
      Doubling(cooldown, Pow2(k - 1));
    }
  }

  lemma {:induction false} ServedLate(cooldown: nat, more: nat)
    ensures Served(cooldown, 6 + more) == cooldown * (63 + 32 * more)
    decreases more
  {
    Pow2Small();
    if more == 0 {
      ServedEarly(cooldown, 6);
    } else {
      ServedLate(cooldown, more - 1);
      ThirtyTwoMore(cooldown, more - 1);
      assert Backoff(cooldown, 6 + more) == cooldown * 32;
    }
  }

  /** `cooldown * (2^k - 1)` up to six failures, then 32 cooldowns for each further one. */
  lemma {:induction false} ServedClosedForm(cooldown: nat, k: nat)
    ensures Served(cooldown, k) == if k <= 6 then cooldown * (Pow2(k) - 1) else cooldown * (63 + 32 * (k - 6))
  {
    if k <= 6 { ServedEarly(cooldown, k); } else { ServedLate(cooldown, k - 6); }
  }

  /** The book knows of `n` failures of `x`, the first at `first`, and holds the address back for all
      the backoff they earned. */
  predicate Earned(b: Book, cooldown: nat, x: BleAddr, n: nat, first: nat) {
    && Has(b, x) && n > 0
    && Find(b, x).value.failures == (if n < U32_MAX then n else U32_MAX)
    && Find(b, x).value.nextAttempt >= first + Served(cooldown, n)
  }

  lemma FailureEarns(p: Probe, cooldown: nat, at: nat, n: nat, first: nat)
    requires n > 0 && p.failures == (if n < U32_MAX then n else U32_MAX) && at >= first + Served(cooldown, n)
    ensures var q := FailedProbe(p, cooldown, at);
      q.failures == (if n + 1 < U32_MAX then n + 1 else U32_MAX) && q.nextAttempt >= first + Served(cooldown, n + 1)
  {
  }

  /** From `b` to `after` the entry of `x` is untouched or gone. */
  predicate Carries(b: Book, after: Book, x: BleAddr) {
    Has(after, x) ==> Find(after, x) == Find(b, x)
  }

  lemma KeptCarries(b: Book, gone: set<BleAddr>, x: BleAddr)
    ensures Carries(b, Kept(b, gone), x)
  {
    WhereKept(b, gone, x);
  }

  lemma ObservedCarries(b: Book, y: BleAddr, now: nat, x: BleAddr)
    requires Sound(b)
    ensures y != x || Has(b, x) ==> Carries(b, Observed(b, y, now), x)
    ensures y == x && !Has(b, x) ==> Find(Observed(b, y, now), x) == Some(Probe(x, 0, now))
  {
    if Has(b, x) {
      if Has(Observed(b, y, now), x) { ObservedKeepsPlace(b, y, now, x); }
    } else if !Has(b, y) {
      if |b| >= MAX_PENDING_PROBES { OnlyWithout(b, Worst(b), x); }
      WherePushed(if |b| >= MAX_PENDING_PROBES then Without(b, Worst(b)) else b, Probe(y, 0, now), x);
    }
  }

  lemma NextDueCarries(b: Book, now: nat, x: BleAddr)
    requires Distinct(b)
    ensures Carries(b, NextDue(b, now).0, x)
    ensures NextDue(b, now).1 == Some(x) ==> Has(NextDue(b, now).0, x)
  {
    var i := FirstDue(b, now);
    if i < |b| {
      HasIndex(Rotated(b, i), |b| - 1);
      HasIndex(b, i);
      OnceWithout(b, i);
      WherePushed(Without(b, i), b[i], x);
      if b[i].addr == x { WhereFirst(b, x, i); }
      else if Has(b, x) { WhereWithout(b, i, x); }
      else { OnlyWithout(b, i, x); }
    }
  }

  lemma PickedCarries(b: Book, t: Turn, x: BleAddr)
    requires Sound(b)
    ensures Carries(b, Picked(b, t).0, x) && Sound(Picked(b, t).0)
    ensures Picked(b, t).1 == Some(x) && Has(b, x) ==> Has(Picked(b, t).0, x)
  {
    if t.source.RetryTick? {
      KeptCarries(b, t.source.connected, x);
      SoundStep(b, 0, DropConnected(t.source.connected));
      NextDueCarries(Kept(b, t.source.connected), t.source.now, x);
      SoundStep(Kept(b, t.source.connected), 0, Tick(t.source.now));
    }
  }

  /** From `b` to `after` the entry of `x` is untouched and no further back, or gone; it does not appear. */
  predicate Passes(b: Book, after: Book, x: BleAddr) {
    Has(after, x) ==> Has(b, x) && Find(after, x) == Find(b, x) && Where(after, x) <= Where(b, x)
  }

  lemma KeptPasses(b: Book, gone: set<BleAddr>, x: BleAddr)
    ensures Passes(b, Kept(b, gone), x)
  {
    WhereKept(b, gone, x);
  }

  lemma ObservedPasses(b: Book, y: BleAddr, now: nat, x: BleAddr)
    requires Sound(b) && x != y
    ensures Passes(b, Observed(b, y, now), x)
  {
    ObservedCarries(b, y, now, x);
    if Has(b, x) {
      if Has(Observed(b, y, now), x) { ObservedKeepsPlace(b, y, now, x); }
    } else if !Has(b, y) {
      if |b| >= MAX_PENDING_PROBES { OnlyWithout(b, Worst(b), x); }
      WherePushed(if |b| >= MAX_PENDING_PROBES then Without(b, Worst(b)) else b, Probe(y, 0, now), x);
    }
  }

  lemma {:induction false} DialledPasses(seen: Book, cooldown: nat, t: Turn, y: BleAddr, x: BleAddr)
    requires x != y
    ensures Passes(seen, Dialled(seen, cooldown, t, y), x)
  {
    var dialling := Marked(seen, cooldown, y, t.now);
    MarkedKeepsPlace(seen, cooldown, y, t.now, x);
    KeptPasses(dialling, {y}, x);
    if t.ending.NoAnswer? { FailedKeepsPlace(dialling, cooldown, y, t.ending.at, x); }
  }

  lemma {:induction false} HandledPasses(picked: Book, cooldown: nat, t: Turn, y: BleAddr, x: BleAddr)
    requires Sound(picked) && x != y
    ensures Passes(picked, Handled(picked, cooldown, t, y), x)
  {
    var seen := Observed(picked, y, t.now);
    KeptPasses(picked, {y}, x);
    ObservedPasses(picked, y, t.now, x);
    KeptPasses(seen, {y}, x);
    DialledPasses(seen, cooldown, t, y, x);
  }

  /** A turn about another address carries the entry of `x`. */
  lemma OtherTurnCarries(b: Book, cooldown: nat, t: Turn, x: BleAddr)
    requires Sound(b) && Picked(b, t).1 != Some(x)
    ensures Carries(b, AfterTurn(b, cooldown, t), x)
  {
    PickedCarries(b, t, x);
    var (picked, addr) := Picked(b, t);
    if addr.Some? { HandledPasses(picked, cooldown, t, addr.value, x); }
  }

  /** A turn about `x` first sees its entry, or a new one. */
  lemma OwnSeen(b: Book, t: Turn, x: BleAddr)
    requires Sound(b) && Picked(b, t).1 == Some(x)
    ensures var seen := Observed(Picked(b, t).0, x, t.now);
      Has(seen, x) && (if Has(b, x) then Find(seen, x) == Find(b, x) else Find(seen, x).value.failures == 0)
  {
    PickedCarries(b, t, x);
    ObservedCarries(Picked(b, t).0, x, t.now, x);
  }

  /** The entry as a turn that keeps it leaves it: as seen, held for one cooldown by a dial without
      result, or one failure later. */
  function OwnEntry(p: Probe, cooldown: nat, t: Turn, dialled: bool): Probe {
    if !dialled then p
    else if t.ending.NoAnswer? then FailedProbe(p.(nextAttempt := t.now + cooldown), cooldown, t.ending.at)
    else p.(nextAttempt := t.now + cooldown)
  }

  lemma OwnTurn(b: Book, cooldown: nat, t: Turn, x: BleAddr)
    requires Picked(b, t).1 == Some(x) && Has(AfterTurn(b, cooldown, t), x)
    requires Has(Observed(Picked(b, t).0, x, t.now), x)
    ensures var p := Find(Observed(Picked(b, t).0, x, t.now), x).value;
      && Find(AfterTurn(b, cooldown, t), x) == Some(OwnEntry(p, cooldown, t, Dials(b, t)))
      && (Dials(b, t) ==> p.nextAttempt <= t.now)
  {
    var picked := Picked(b, t).0;
    var seen := Observed(picked, x, t.now);
    WhereKept(picked, {x}, x);
    WhereKept(seen, {x}, x);
    var dialling := Marked(seen, cooldown, x, t.now);
    MarkedKeepsPlace(seen, cooldown, x, t.now, x);
    WhereKept(dialling, {x}, x);
    if t.ending.NoAnswer? { FailedKeepsPlace(dialling, cooldown, x, t.ending.at, x); }
  }

  lemma SoundTurn(b: Book, cooldown: nat, t: Turn)
    requires Sound(b)
    ensures Sound(AfterTurn(b, cooldown, t))
  {
    PickedCarries(b, t, 0);
    var (picked, addr) := Picked(b, t);
    if addr.Some? {
      var y := addr.value;
      SoundStep(picked, cooldown, Resolve(y));
      SoundStep(picked, cooldown, Observe(y, t.now));
      var seen := Observed(picked, y, t.now);
      SoundStep(seen, cooldown, Resolve(y));
      SoundStep(seen, cooldown, Attempt(y, t.now));
      var dialling := Marked(seen, cooldown, y, t.now);
      SoundStep(dialling, cooldown, Resolve(y));
      if t.ending.NoAnswer? { SoundStep(dialling, cooldown, Failure(y, t.ending.at)); }
    }
  }

  /** A dial cannot fail before it started. */
  predicate Timely(t: Turn) {
    t.ending.NoAnswer? ==> t.ending.at >= t.now
  }

  lemma EarnedTurn(b: Book, cooldown: nat, t: Turn, x: BleAddr, n: nat, first: nat)
    requires Sound(b) && Timely(t) && Earned(b, cooldown, x, n, first) && Has(AfterTurn(b, cooldown, t), x)
    ensures FailsAt(b, t, x) ==> t.ending.at >= first + Served(cooldown, n)
    ensures Earned(AfterTurn(b, cooldown, t), cooldown, x, if FailsAt(b, t, x) then n + 1 else n, first)
  {
    if Picked(b, t).1 == Some(x) {
      OwnSeen(b, t, x);
      OwnTurn(b, cooldown, t, x);
      if FailsAt(b, t, x) {
        FailureEarns(Find(b, x).value.(nextAttempt := t.now + cooldown), cooldown, t.ending.at, n, first);
      }
    } else {
      OtherTurnCarries(b, cooldown, t, x);
    }
  }

  predicate Unfailed(b: Book, x: BleAddr) {
    Has(b, x) ==> Find(b, x).value.failures == 0
  }

  lemma UnfailedTurn(b: Book, cooldown: nat, t: Turn, x: BleAddr)
    requires Sound(b) && Unfailed(b, x)
    ensures !FailsAt(b, t, x) ==> Unfailed(AfterTurn(b, cooldown, t), x)
    ensures FailsAt(b, t, x) && Has(AfterTurn(b, cooldown, t), x) ==>
      Earned(AfterTurn(b, cooldown, t), cooldown, x, 1, t.ending.at)
  {
    if Has(AfterTurn(b, cooldown, t), x) {
      if Picked(b, t).1 == Some(x) {
        OwnSeen(b, t, x);
        OwnTurn(b, cooldown, t, x);
      } else {
        OtherTurnCarries(b, cooldown, t, x);
      }
      assert Served(cooldown, 1) == Served(cooldown, 0) + Backoff(cooldown, 1);
    }
  }

  function RunTurns(b: Book, cooldown: nat, ts: seq<Turn>): Book {
    if ts == [] then b else AfterTurn(RunTurns(b, cooldown, ts[..|ts| - 1]), cooldown, ts[|ts| - 1])
  }

  /** When the failures of `x` were recorded. */
  function FailureTimes(b: Book, cooldown: nat, ts: seq<Turn>, x: BleAddr): seq<nat> {
    if ts == [] then []
    else
      var k := |ts| - 1;
      FailureTimes(b, cooldown, ts[..k], x)
      + if FailsAt(RunTurns(b, cooldown, ts[..k]), ts[k], x) then [ts[k].ending.at] else []
  }

  /** From its first failure on, `x` stays in the book. */
  ghost predicate Stays(b: Book, cooldown: nat, ts: seq<Turn>, x: BleAddr) {
    forall i | 0 <= i <= |ts| ::
      FailureTimes(b, cooldown, ts[..i], x) != [] ==> Has(RunTurns(b, cooldown, ts[..i]), x)
  }

  /** What holds after failures of `x` at the given times. */
  predicate Spaced(b: Book, cooldown: nat, x: BleAddr, times: seq<nat>) {
    && Sound(b)
    && (if times == [] then Unfailed(b, x) else Earned(b, cooldown, x, |times|, times[0]))
    && forall k | 0 <= k < |times| :: times[k] >= times[0] + Served(cooldown, k)
  }

  lemma SpacedTurn(b: Book, cooldown: nat, t: Turn, x: BleAddr, times: seq<nat>)
    requires Spaced(b, cooldown, x, times) && Timely(t)
    requires times != [] || FailsAt(b, t, x) ==> Has(AfterTurn(b, cooldown, t), x)
    ensures Spaced(AfterTurn(b, cooldown, t), cooldown, x, times + if FailsAt(b, t, x) then [t.ending.at] else [])
  {
    SoundTurn(b, cooldown, t);
    if times == [] { UnfailedTurn(b, cooldown, t, x); } else { EarnedTurn(b, cooldown, t, x, |times|, times[0]); }
  }

  lemma {:induction false} StaysPrefix(b: Book, cooldown: nat, ts: seq<Turn>, x: BleAddr)
    requires ts != [] && Stays(b, cooldown, ts, x)
    ensures Stays(b, cooldown, ts[..|ts| - 1], x)
    ensures FailureTimes(b, cooldown, ts, x) != [] ==> Has(RunTurns(b, cooldown, ts), x)
  {
    var init := ts[..|ts| - 1];
    forall i | 0 <= i <= |init|
      ensures FailureTimes(b, cooldown, init[..i], x) != [] ==> Has(RunTurns(b, cooldown, init[..i]), x)
    {
      assert init[..i] == ts[..i];
    }
    assert ts[..|ts|] == ts;
  }

  lemma {:induction false} BackoffInvariant(b: Book, cooldown: nat, ts: seq<Turn>, x: BleAddr)
    requires Sound(b) && Unfailed(b, x) && Stays(b, cooldown, ts, x)
    requires forall i | 0 <= i < |ts| :: Timely(ts[i])
    ensures Spaced(RunTurns(b, cooldown, ts), cooldown, x, FailureTimes(b, cooldown, ts, x))
    decreases |ts|
  {
    if ts != [] {
      var init, t := ts[..|ts| - 1], ts[|ts| - 1];
      StaysPrefix(b, cooldown, ts, x);
      BackoffInvariant(b, cooldown, init, x);
      SpacedTurn(RunTurns(b, cooldown, init), cooldown, t, x, FailureTimes(b, cooldown, init, x));
    }
  }

  /** However often the address is sighted, its (k+1)-th failure comes at least `cooldown * (2^k - 1)`
      after its first for k up to 6, and `cooldown * (63 + 32 * (k - 6))` after it beyond. */
  lemma BackoffBound(b: Book, cooldown: nat, ts: seq<Turn>, x: BleAddr, k: nat)
    requires Sound(b) && Unfailed(b, x) && Stays(b, cooldown, ts, x)
    requires forall i | 0 <= i < |ts| :: Timely(ts[i])
    requires k < |FailureTimes(b, cooldown, ts, x)|
    ensures var times := FailureTimes(b, cooldown, ts, x);
      times[k] - times[0] >= if k <= 6 then cooldown * (Pow2(k) - 1) else cooldown * (63 + 32 * (k - 6))
  {
    BackoffInvariant(b, cooldown, ts, x);
    ServedClosedForm(cooldown, k);
  }

  // ----- when an address is due again -----

  function Shift(k: nat): nat {
    if k < 5 then k else 5
  }

  /** After a failure with `k` earlier ones the address is due exactly `cooldown * 2^min(k, 5)` later. */
  lemma {:induction false} DueAfterFailure(b: Book, cooldown: nat, x: BleAddr, at: nat, t: nat)
    requires Has(b, x)
    ensures var (k, after) := (Find(b, x).value.failures, Failed(b, cooldown, x, at));
      && Has(after, x) && Find(after, x).value.failures == (if k < U32_MAX then k + 1 else U32_MAX)
      && (IsDue(after, x, t) <==> t >= at + cooldown * Pow2(Shift(k)))
  {
    FailedKeepsPlace(b, cooldown, x, at, x);
  }

  /** A dial holds an address for one cooldown and forgets no failure. */
  lemma {:induction false} DueAfterAttempt(b: Book, cooldown: nat, x: BleAddr, now: nat, t: nat)
    requires Has(b, x)
    ensures var after := Marked(b, cooldown, x, now);
      && Has(after, x) && Find(after, x).value.failures == Find(b, x).value.failures
      && (IsDue(after, x, t) <==> t >= now + cooldown)
  {
    MarkedKeepsPlace(b, cooldown, x, now, x);
  }

  /** A sighting gives a new address an entry that is due at once, in last place. It costs another one its
      entry only if the book is full, and then one that no other has failed more often than, nor as often
      and is due later. */
  lemma {:induction false} SightingEvicts(b: Book, x: BleAddr, now: nat, y: BleAddr)
    requires Sound(b) && !Has(b, x) && y != x
    ensures var after := Observed(b, x, now);
      && IsDue(b, x, now) && Find(after, x) == Some(Probe(x, 0, now)) && Where(after, x) == |after| - 1
      && Carries(b, after, y)
      && (Has(b, y) && !Has(after, y) ==>
            |b| == 32 && forall i | 0 <= i < |b| ::
              b[i].failures < Find(b, y).value.failures
              || (b[i].failures == Find(b, y).value.failures && b[i].nextAttempt <= Find(b, y).value.nextAttempt))
  {
    ObservedCarries(b, x, now, y);
    var rest := if |b| >= MAX_PENDING_PROBES then Without(b, Worst(b)) else b;
    if |b| >= MAX_PENDING_PROBES {
      OnlyWithout(b, Worst(b), x);
      if b[Worst(b)].addr == y {
        WhereFirst(b, y, Worst(b));
      } else if Has(b, y) {
        WhereWithout(b, Worst(b), y);
      }
    }
    WherePushed(rest, Probe(x, 0, now), x);
    WherePushed(rest, Probe(x, 0, now), y);
  }

  /** The turn takes up `x`: the retry tick picks it, or a sighting finds it due. */
  predicate TakesUp(b: Book, t: Turn, x: BleAddr) {
    Picked(b, t).1 == Some(x) && (t.source.RetryTick? || IsDue(b, x, t.now))
  }

  /** A retry tick that does not pick `x`, and moves it forward if it is due. */
  lemma {:induction false} TickPasses(b: Book, now: nat, x: BleAddr)
    requires Sound(b) && NextDue(b, now).1 != Some(x) && Has(NextDue(b, now).0, x)
    ensures Has(b, x) && Find(NextDue(b, now).0, x) == Find(b, x)
    ensures Find(b, x).value.nextAttempt <= now ==> Where(NextDue(b, now).0, x) < Where(b, x)
  {
    NextDueCarries(b, now, x);
    if Find(b, x).value.nextAttempt <= now { TickMovesForward(b, now, x); }
  }

  lemma SoundAfterTick(b: Book, gone: set<BleAddr>, now: nat)
    requires Sound(b)
    ensures Sound(Kept(b, gone)) && Sound(NextDue(b, now).0)
  {
    SoundStep(b, 0, DropConnected(gone));
    SoundStep(b, 0, Tick(now));
  }

  /** The entry of `x` is untouched from `b` to `after`, and further forward. */
  predicate Advances(b: Book, after: Book, x: BleAddr) {
    Has(b, x) && Has(after, x) && Find(after, x) == Find(b, x) && Where(after, x) < Where(b, x)
  }

  lemma AdvanceChain(b: Book, left: Book, picked: Book, after: Book, x: BleAddr)
    requires Passes(b, left, x) && Advances(left, picked, x) && Passes(picked, after, x) && Has(after, x)
    ensures Advances(b, after, x)
  {
  }

  lemma {:induction false} RetryPasses(b: Book, cooldown: nat, t: Turn, connected: set<BleAddr>, now: nat, x: BleAddr)
    requires Sound(b) && Has(AfterTurn(b, cooldown, t), x) && Has(b, x) && Find(b, x).value.nextAttempt <= now
    requires t.source == RetryTick(connected, now) && Picked(b, t).1 != Some(x)
    ensures Advances(b, AfterTurn(b, cooldown, t), x)
  {
    var left := Kept(b, connected);
    var (picked, addr) := NextDue(left, now);
    var after := AfterTurn(b, cooldown, t);
    KeptPasses(b, connected, x);
    SoundAfterTick(b, connected, now);
    SoundAfterTick(left, connected, now);
    assert Passes(picked, after, x) by {
      if addr.Some? { HandledPasses(picked, cooldown, t, addr.value, x); }
    }
    TickPasses(left, now, x);
    AdvanceChain(b, left, picked, after, x);
  }

  /** A turn that does not take up `x` leaves its entry alone and never moves it back; a retry tick at which
      it is due moves it forward. */
  lemma {:induction false} TurnMovesForward(b: Book, cooldown: nat, t: Turn, x: BleAddr)
    requires Sound(b) && Has(b, x) && Has(AfterTurn(b, cooldown, t), x) && !TakesUp(b, t, x)
    ensures Find(AfterTurn(b, cooldown, t), x) == Find(b, x)
    ensures t.source.Sighted? ==> Where(AfterTurn(b, cooldown, t), x) <= Where(b, x)
    ensures t.source.RetryTick? && Find(b, x).value.nextAttempt <= t.source.now ==>
      Where(AfterTurn(b, cooldown, t), x) < Where(b, x)
  {
    match t.source
    case Sighted(y) => if y != x { HandledPasses(b, cooldown, t, y, x); } else { WhereKept(b, {x}, x); }
    case RetryTick(connected, now) =>
      OtherTurnCarries(b, cooldown, t, x);
      if Find(b, x).value.nextAttempt <= now { RetryPasses(b, cooldown, t, connected, now, x); }
  }

  /** A turn about `x` drops its entry exactly if the pool has it, or it is due and either belongs to a connected
      node or its dial comes to a conclusion. */
  lemma {:induction false} DroppedIff(b: Book, cooldown: nat, t: Turn, x: BleAddr)
    requires Sound(b) && Picked(b, t).1 == Some(x)
    ensures Has(AfterTurn(b, cooldown, t), x) <==>
      !t.pooled && (!IsDue(Observed(Picked(b, t).0, x, t.now), x, t.now) || !(t.known || t.ending.Concluded?))
  {
    OwnSeen(b, t, x);
    var picked := Picked(b, t).0;
    var seen := Observed(picked, x, t.now);
    var dialling := Marked(seen, cooldown, x, t.now);
    WhereKept(picked, {x}, x);
    WhereKept(seen, {x}, x);
    WhereKept(dialling, {x}, x);
    MarkedKeepsPlace(seen, cooldown, x, t.now, x);
    if t.ending.NoAnswer? { FailedKeepsPlace(dialling, cooldown, x, t.ending.at, x); }
  }

  /** Along `ts` the address stays in the book. */
  ghost predicate Remains(b: Book, cooldown: nat, ts: seq<Turn>, x: BleAddr) {
    forall i | 0 <= i <= |ts| :: Has(RunTurns(b, cooldown, ts[..i]), x)
  }

  /** Some turn of `ts` takes it up. */
  ghost predicate TakenUp(b: Book, cooldown: nat, ts: seq<Turn>, x: BleAddr) {
    exists i | 0 <= i < |ts| :: TakesUp(RunTurns(b, cooldown, ts[..i]), ts[i], x)
  }

  function RetryTicks(ts: seq<Turn>): nat {
    if ts == [] then 0 else RetryTicks(ts[..|ts| - 1]) + (if ts[|ts| - 1].source.RetryTick? then 1 else 0)
  }

  lemma {:induction false} PrefixRemains(b: Book, cooldown: nat, ts: seq<Turn>, x: BleAddr)
    requires ts != [] && Remains(b, cooldown, ts, x) && !TakenUp(b, cooldown, ts, x)
    ensures var (init, last) := (ts[..|ts| - 1], ts[|ts| - 1]);
      && Remains(b, cooldown, init, x) && !TakenUp(b, cooldown, init, x)
      && Has(RunTurns(b, cooldown, init), x) && Has(RunTurns(b, cooldown, ts), x)
      && !TakesUp(RunTurns(b, cooldown, init), last, x)
  {
    var init := ts[..|ts| - 1];
    assert forall i | 0 <= i <= |init| :: init[..i] == ts[..i];
    assert forall i | 0 <= i < |init| :: init[i] == ts[i];
    assert ts[..|ts|] == ts;
  }

  /** Until it is taken up, an address keeps its entry, whatever turns pass. */
  lemma {:induction false} WaitingKeepsEntry(b: Book, cooldown: nat, ts: seq<Turn>, x: BleAddr)
    requires Sound(b) && Remains(b, cooldown, ts, x) && !TakenUp(b, cooldown, ts, x)
    ensures Sound(RunTurns(b, cooldown, ts)) && Has(b, x)
    ensures Find(RunTurns(b, cooldown, ts), x) == Find(b, x)
    ensures (forall i | 0 <= i < |ts| && ts[i].source.RetryTick? :: ts[i].source.now >= Find(b, x).value.nextAttempt)
         ==> Where(RunTurns(b, cooldown, ts), x) + RetryTicks(ts) <= Where(b, x)
    decreases |ts|
  {
    if ts == [] {
      assert Has(RunTurns(b, cooldown, ts[..0]), x);
    } else {
      var (init, last) := (ts[..|ts| - 1], ts[|ts| - 1]);
      PrefixRemains(b, cooldown, ts, x);
      WaitingKeepsEntry(b, cooldown, init, x);
      var before := RunTurns(b, cooldown, init);
      SoundTurn(before, cooldown, last);
      TurnMovesForward(before, cooldown, last, x);
    }
  }

  /** The turn that fails `x` for the (k+1)-th time leaves it an entry due `cooldown * 2^min(k, 5)` later. */
  lemma {:induction false} FailedTurn(b: Book, cooldown: nat, t: Turn, x: BleAddr)
    requires Sound(b) && FailsAt(b, t, x)
    ensures var k := if Has(b, x) then Find(b, x).value.failures else 0;
      && Has(AfterTurn(b, cooldown, t), x)
      && Find(AfterTurn(b, cooldown, t), x).value
           == Probe(x, if k < U32_MAX then k + 1 else U32_MAX, t.ending.at + cooldown * Pow2(Shift(k)))
  {
    OwnSeen(b, t, x);
    var seen := Observed(Picked(b, t).0, x, t.now);
    var dialling := Marked(seen, cooldown, x, t.now);
    MarkedKeepsPlace(seen, cooldown, x, t.now, x);
    FailedKeepsPlace(dialling, cooldown, x, t.ending.at, x);
  }

  /** Over every run of the loop: a failed address that stays in the book is held back for exactly its
      backoff, in whatever order the others come; and of the retry ticks after that, one of the first 32
      takes it up, unless a sighting has. */
  lemma {:induction false} RetriedAfterBackoff(b: Book, cooldown: nat, t: Turn, ts: seq<Turn>, x: BleAddr, now: nat)
    requires Sound(b) && FailsAt(b, t, x) && Remains(AfterTurn(b, cooldown, t), cooldown, ts, x)
    ensures var k := if Has(b, x) then Find(b, x).value.failures else 0;
      var due := t.ending.at + cooldown * Pow2(Shift(k));
      var failed := AfterTurn(b, cooldown, t);
      && (!TakenUp(failed, cooldown, ts, x) ==> (IsDue(RunTurns(failed, cooldown, ts), x, now) <==> now >= due))
      && ((forall i | 0 <= i < |ts| && ts[i].source.RetryTick? :: ts[i].source.now >= due) && RetryTicks(ts) >= 32
          ==> TakenUp(failed, cooldown, ts, x))
  {
    var failed := AfterTurn(b, cooldown, t);
    SoundTurn(b, cooldown, t);
    FailedTurn(b, cooldown, t, x);
    if !TakenUp(failed, cooldown, ts, x) { WaitingKeepsEntry(failed, cooldown, ts, x); }
  }

  // ----- the book in place -----

  class PendingProbes {
    var entries: Book
    const cooldown: nat

    constructor (cooldown: nat)
      ensures this.cooldown == cooldown && entries == [] && Sound(entries)
    {
      this.cooldown := cooldown;
      entries := [];
    }

    method Position(x: BleAddr) returns (i: Option<nat>)
      ensures i == if Has(entries, x) then Some(Where(entries, x)) else None
    {
      var j := 0;
      while j < |entries| && entries[j].addr != x
        invariant j <= |entries| && forall l | 0 <= l < j :: entries[l].addr != x
      {
        j := j + 1;
      }
      WhereFirst(entries, x, j);
      return if j < |entries| then Some(j) else None;
    }

    method MostFailed() returns (worst: nat)
      requires entries != []
      ensures worst == Worst(entries)
    {
      worst := 0;
      var i := 1;
      while i < |entries|
        invariant 1 <= i <= |entries| && worst == Worst(entries[..i])
      {
        assert entries[..i + 1][..i] == entries[..i];
        if !Better(entries[i], entries[worst]) { worst := i; }
        i := i + 1;
      }
      assert entries[..i] == entries;
    }

    method Observe(x: BleAddr, now: nat)
      modifies this
      ensures entries == Observed(old(entries), x, now)
    {
      var at := Position(x);
      if at.Some? { return; }
      if |entries| >= MAX_PENDING_PROBES {
        var worst := MostFailed();
        entries := entries[..worst] + entries[worst + 1..];
      }
      entries := entries + [Probe(x, 0, now)];
    }

    method MayDial(x: BleAddr, now: nat) returns (due: bool)
      ensures due == IsDue(entries, x, now)
    {
      var at := Position(x);
      return at.Some? ==> entries[at.value].nextAttempt <= now;
    }

    method MarkAttempt(x: BleAddr, now: nat)
      modifies this
      ensures entries == Marked(old(entries), cooldown, x, now)
    {
      var at := Position(x);
      if at.Some? {
        entries := entries[at.value := entries[at.value].(nextAttempt := now + cooldown)];
      }
    }

    method RecordFailure(x: BleAddr, now: nat) returns (failures: u32)
      modifies this
      ensures entries == Failed(old(entries), cooldown, x, now)
      ensures failures == if Has(old(entries), x) then entries[Where(old(entries), x)].failures else 0
    {
      var at := Position(x);
      if at.None? { return 0; }
      var e := entries[at.value];
      failures := if e.failures == U32_MAX then e.failures else e.failures + 1;
      var shift := if failures - 1 < MAX_PROBE_BACKOFF_SHIFT then failures - 1 else MAX_PROBE_BACKOFF_SHIFT;
      entries := entries[at.value := Probe(e.addr, failures, now + cooldown * Pow2(shift))];
    }

    method Retain(gone: set<BleAddr>)
      modifies this
      ensures entries == Kept(old(entries), gone)
    {
      var all, kept, i := entries, [], 0;
      while i < |all|
        invariant i <= |all| && kept == Kept(all[..i], gone)
      {
        assert all[..i + 1][..i] == all[..i];
        if all[i].addr !in gone { kept := kept + [all[i]]; }
        i := i + 1;
      }
      assert all[..i] == all;
      entries := kept;
    }

    method TakeNextDue(now: nat) returns (addr: Option<BleAddr>)
      modifies this
      ensures (entries, addr) == NextDue(old(entries), now)
    {
      var i := 0;
      while i < |entries| && entries[i].nextAttempt > now
        invariant i <= |entries| && forall l | 0 <= l < i :: entries[l].nextAttempt > now
      {
        i := i + 1;
      }
      if i == |entries| { return None; }
      var entry := entries[i];
      entries := entries[..i] + entries[i + 1..];
      entries := entries + [entry];
      return Some(entry.addr);
    }

    /** One turn of the scan and probe loop over the book. */
    method ProbeTurn(t: Turn)
      modifies this
      ensures entries == AfterTurn(old(entries), cooldown, t)
    {
      var addr: Option<BleAddr>;
      match t.source {
        case Sighted(x) => addr := Some(x);
        case RetryTick(connected, now) =>
          Retain(connected);
          addr := TakeNextDue(now);
      }
      if addr.None? { return; }
      if t.pooled { Retain({addr.value}); return; }
      Observe(addr.value, t.now);
      var due := MayDial(addr.value, t.now);
      if !due { return; }
      if t.known { Retain({addr.value}); return; }
      MarkAttempt(addr.value, t.now);
      match t.ending {
        case Inconclusive =>
        case Concluded => Retain({addr.value});
        case NoAnswer(at) => var _ := RecordFailure(addr.value, at);
      }
    }
  }
}
