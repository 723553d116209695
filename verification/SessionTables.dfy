/** The session table of a node: the handlers run in place, and the bounds they keep. */
module SessionTables {
  import opened Results
  import opened Crypto
  import opened Noise
  import opened Patterns
  import opened Handshakes
  import opened Sessions

  type Table = map<Addr, Entry>

  function Lookup(t: Table, addr: Addr): Option<Entry> {
    if addr in t then Some(t[addr]) else None
  }

  function Store(t: Table, addr: Addr, e: Option<Entry>): Table {
    if e.Some? then t[addr := e.value] else t - {addr}
  }

  // ----- admission -----

  const HALF_OPEN_SHARE_DIVISOR := 2

  /** The addresses among `within` whose handshake waits for message 3. */
  function HalfOpenAmong(t: Table, within: set<Addr>): set<Addr> {
    set a | a in within && a in t && t[a].state.AwaitingMsg3?
  }

  function HalfOpen(t: Table): set<Addr> {
    HalfOpenAmong(t, t.Keys)
  }

  function HalfOpenShare(max: nat): nat {
    if max / HALF_OPEN_SHARE_DIVISOR < 1 then 1 else max / HALF_OPEN_SHARE_DIVISOR
  }

  predicate Admits(t: Table, addr: Addr, max: nat) {
    max == 0 || addr in t
    || (|t| < max && (|t| < HalfOpenShare(max) || |HalfOpen(t)| < HalfOpenShare(max)))
  }

  /** A new address is admitted exactly while there is room and fewer than half of it, but at least one, is
      half-open; looking at the half-open count only above that share changes nothing. */
  lemma {:induction false} AdmitsIff(t: Table, addr: Addr, max: nat)
    ensures Admits(t, addr, max) <==>
      max == 0 || addr in t || (|t| < max && |HalfOpen(t)| < if max < 4 then 1 else max / 2)
  {
    HalfOpenFits(t);
  }

  // ----- handlers on the table -----

  datatype Reply = Reply(table: Table, out: Option<Wire>)

  function Apply(t: Table, addr: Addr, o: Outcome): Reply {
    Reply(Store(t, addr, o.entry), o.out)
  }

  function OnSetup(c: Suite, n: Node, max: nat, t: Table, src: Addr, payload: Bytes, env: Env): Reply {
    if |payload| != XX1_SIZE || !Admits(t, src, max) then Reply(t, None)
    else Apply(t, src, HandleSetup(c, n, src, Lookup(t, src), payload, env))
  }

  function OnAck(c: Suite, n: Node, t: Table, src: Addr, payload: Bytes, env: Env): Reply {
    Apply(t, src, HandleAck(c, n, src, Lookup(t, src), payload, env))
  }

  function OnMsg3(c: Suite, n: Node, t: Table, src: Addr, payload: Bytes, env: Env): Reply {
    Apply(t, src, HandleMsg3(c, n, src, Lookup(t, src), payload, env))
  }

  function OnData(c: Suite, t: Table, src: Addr, f: Frame, now: nat): Table {
    Store(t, src, HandleData(c, Lookup(t, src), f, now))
  }

  /** Outbound traffic to a destination with no session dials it, if the table admits it. */
  function OnDial(c: Suite, n: Node, max: nat, t: Table, dest: Addr, key: Bytes, env: Env): Reply {
    if !Admits(t, dest, max) then Reply(t, None) else Apply(t, dest, Initiate(c, n, Lookup(t, dest), key, env))
  }

  // ----- bounds -----

  datatype Input =
    | InSetup(src: Addr, payload: Bytes, env: Env)
    | InAck(src: Addr, payload: Bytes, env: Env)
    | InMsg3(src: Addr, payload: Bytes, env: Env)
    | InData(src: Addr, frame: Frame, now: nat)
    | Dialled(dest: Addr, key: Bytes, env: Env)

  function Advance(c: Suite, n: Node, max: nat, t: Table, i: Input): Table {
    match i
    case InSetup(src, payload, env) => OnSetup(c, n, max, t, src, payload, env).table
    case InAck(src, payload, env) => OnAck(c, n, t, src, payload, env).table
    case InMsg3(src, payload, env) => OnMsg3(c, n, t, src, payload, env).table
    case InData(src, frame, now) => OnData(c, t, src, frame, now)
    case Dialled(dest, key, env) => OnDial(c, n, max, t, dest, key, env).table
  }

  function AdvanceAll(c: Suite, n: Node, max: nat, t: Table, inputs: seq<Input>): Table {
    if inputs == [] then t
    else Advance(c, n, max, AdvanceAll(c, n, max, t, inputs[..|inputs| - 1]), inputs[|inputs| - 1])
  }

  lemma {:induction false} StoreSize(t: Table, addr: Addr, e: Option<Entry>)
    ensures |Store(t, addr, e)| <= |t| + (if addr in t || e.None? then 0 else 1)
  {
    var s := Store(t, addr, e);
    if e.Some? {
      assert s.Keys == t.Keys + {addr};
      if addr in t { assert s.Keys == t.Keys; }
    } else {
      assert s.Keys == t.Keys - {addr};
      assert s.Keys <= t.Keys;
      SubsetSize(s.Keys, t.Keys);
    }
  }

  lemma {:induction false} SubsetSize(a: set<Addr>, b: set<Addr>)
    requires a <= b
    ensures |a| <= |b|
    decreases |a|
  {
    if a != {} {
      var x :| x in a;
      SubsetSize(a - {x}, b - {x});
    }
  }

  /** No handler but an admitted setup or dial creates an entry. */
  lemma {:induction false} AdvanceKeepsBound(c: Suite, n: Node, max: nat, t: Table, i: Input)
    requires max > 0 && |t| <= max
    ensures |Advance(c, n, max, t, i)| <= max
  {
    match i
    case InSetup(src, payload, env) => StoreSize(t, src, HandleSetup(c, n, src, Lookup(t, src), payload, env).entry);
    case InAck(src, payload, env) => StoreSize(t, src, HandleAck(c, n, src, Lookup(t, src), payload, env).entry);
    case InMsg3(src, payload, env) => StoreSize(t, src, HandleMsg3(c, n, src, Lookup(t, src), payload, env).entry);
    case InData(src, frame, now) => StoreSize(t, src, HandleData(c, Lookup(t, src), frame, now));
    case Dialled(dest, key, env) => StoreSize(t, dest, Initiate(c, n, Lookup(t, dest), key, env).entry);
  }

  /** Over every run the table never exceeds its cap. */
  lemma {:induction false} TableBounded(c: Suite, n: Node, max: nat, t: Table, inputs: seq<Input>)
    requires max > 0 && |t| <= max
    ensures |AdvanceAll(c, n, max, t, inputs)| <= max
    decreases |inputs|
  {
    if inputs != [] {
      TableBounded(c, n, max, t, inputs[..|inputs| - 1]);
      AdvanceKeepsBound(c, n, max, AdvanceAll(c, n, max, t, inputs[..|inputs| - 1]), inputs[|inputs| - 1]);
    }
  }

  lemma StoreHalfOpen(t: Table, addr: Addr, e: Option<Entry>)
    ensures |HalfOpen(Store(t, addr, e))|
         <= |HalfOpen(t)| + (if e.Some? && e.value.state.AwaitingMsg3? && addr !in HalfOpen(t) then 1 else 0)
  {
    var s := Store(t, addr, e);
    if e.Some? && e.value.state.AwaitingMsg3? {
      assert HalfOpen(s) == HalfOpen(t) + {addr};
      if addr in HalfOpen(t) { assert HalfOpen(s) == HalfOpen(t); }
    } else {
      assert HalfOpen(s) == HalfOpen(t) - {addr};
      SubsetSize(HalfOpen(s), HalfOpen(t));
    }
  }

  lemma HalfOpenFits(t: Table)
    ensures |HalfOpen(t)| <= |t|
  {
    SubsetSize(HalfOpen(t), t.Keys);
  }

  predicate Waiting(e: Option<Entry>) {
    e.Some? && e.value.state.AwaitingMsg3?
  }

  /** Only a setup makes an entry wait for message 3. */
  lemma OnlySetupsWait(c: Suite, n: Node, src: Addr, e: Option<Entry>, payload: Bytes, env: Env, f: Frame, key: Bytes)
    ensures Waiting(HandleAck(c, n, src, e, payload, env).entry) ==> Waiting(e)
    ensures Waiting(HandleMsg3(c, n, src, e, payload, env).entry) ==> Waiting(e)
    ensures Waiting(HandleData(c, e, f, env.now)) ==> Waiting(e)
    ensures Waiting(Initiate(c, n, e, key, env).entry) ==> Waiting(e)
  {
  }

  /** A setup makes a known entry wait only if we were dialling it and lose the tie-break. */
  lemma SetupGivesWay(c: Suite, n: Node, src: Addr, e: Option<Entry>, payload: Bytes, env: Env)
    requires e.Some? && !Waiting(e) && Waiting(HandleSetup(c, n, src, e, payload, env).entry)
    ensures e.value.state.Initiating? && src <= n.addr
  {
  }

  /** The half-open count grows only by a setup, by one, and then either the address was fresh and the
      share is respected, or we were dialling that address ourselves and gave way to it. */
  lemma {:induction false} HalfOpenGrowth(c: Suite, n: Node, max: nat, t: Table, i: Input)
    requires max > 0 && |HalfOpen(Advance(c, n, max, t, i))| > |HalfOpen(t)|
    ensures i.InSetup? && |HalfOpen(Advance(c, n, max, t, i))| == |HalfOpen(t)| + 1
    ensures if i.src in t then t[i.src].state.Initiating? && i.src <= n.addr
            else |HalfOpen(Advance(c, n, max, t, i))| <= HalfOpenShare(max)
  {
    if i.InSetup? {
      SetupGrowth(c, n, max, t, i.src, i.payload, i.env);
    } else {
      NoOtherGrowth(c, n, max, t, i);
    }
  }

  /** A setup for an address we dial ourselves, to which we give way. */
  predicate GivesWay(c: Suite, n: Node, t: Table, i: Input) {
    && i.InSetup? && |i.payload| == XX1_SIZE && i.env.rateOk && i.env.sendOk
    && i.src in t && t[i.src].state.Initiating? && i.src <= n.addr
    && AnswerWithNegotiation(c, n, i.payload, i.env.eph).Some?
  }

  lemma GivesWayExactly(c: Suite, n: Node, src: Addr, e: Entry, payload: Bytes, env: Env)
    requires !e.state.AwaitingMsg3?
    ensures Waiting(HandleSetup(c, n, src, Some(e), payload, env).entry) <==>
      && |payload| == XX1_SIZE && env.rateOk && env.sendOk && e.state.Initiating? && src <= n.addr
      && AnswerWithNegotiation(c, n, payload, env.eph).Some?
  {
  }

  lemma {:induction false} GivingWayGrows(c: Suite, n: Node, max: nat, t: Table, i: Input)
    requires GivesWay(c, n, t, i)
    ensures |HalfOpen(Advance(c, n, max, t, i))| == |HalfOpen(t)| + 1
  {
    GivesWayExactly(c, n, i.src, t[i.src], i.payload, i.env);
    var now := Advance(c, n, max, t, i);
    assert HalfOpen(now) == HalfOpen(t) + {i.src} && i.src !in HalfOpen(t);
  }

  lemma {:induction false} KnownGrowthGivesWay(c: Suite, n: Node, max: nat, t: Table, i: Input)
    requires max > 0 && |HalfOpen(Advance(c, n, max, t, i))| > |HalfOpen(t)| && i.InSetup? && i.src in t
    ensures GivesWay(c, n, t, i)
  {
    HalfOpenGrowth(c, n, max, t, i);
    var after := HandleSetup(c, n, i.src, Lookup(t, i.src), i.payload, i.env).entry;
    GivesWayExactly(c, n, i.src, t[i.src], i.payload, i.env);
    StoreHalfOpen(t, i.src, after);
  }

  /** A table within its half-open share stays within it, whatever comes in, if and only if it is not a
      setup to which we give way while the share is used up. */
  lemma {:induction false} ShareKeptIff(c: Suite, n: Node, max: nat, t: Table, i: Input)
    requires max > 0 && |HalfOpen(t)| <= HalfOpenShare(max)
    ensures |HalfOpen(Advance(c, n, max, t, i))| <= HalfOpenShare(max)
       <==> !(|HalfOpen(t)| == HalfOpenShare(max) && GivesWay(c, n, t, i))
  {
    if GivesWay(c, n, t, i) {
      GivingWayGrows(c, n, max, t, i);
    } else if |HalfOpen(Advance(c, n, max, t, i))| > |HalfOpen(t)| {
      HalfOpenGrowth(c, n, max, t, i);
      if i.src in t { KnownGrowthGivesWay(c, n, max, t, i); }
    }
  }

  lemma {:induction false} CanWriteSecond()
    ensures CanSendAll(XX2, Responder, Keyring(false, true, false, true, true, true, false)) && Count(XX2) <= 5
  {
  }

  lemma {:induction false} ReadsFirst(c: Suite, p: Party, payload: Bytes)
    requires p.role.Responder? && p.progress.Initial? && |payload| == XX1_SIZE
    ensures Read(c, p, XxMsg1, payload)
         == if c.valid(payload)
            then (p.(re := Some(payload), sym := p.sym.MixHash(c, payload), progress := Message1Done), Ok(()))
            else (p, Err(InvalidPublicKey))
  {
    assert payload[..PUBKEY_SIZE] == payload && payload[PUBKEY_SIZE..] == [];
  }

  /** Of a lawful suite, a setup can be answered exactly when it is a valid public key. */
  lemma {:induction false} AnswerableIffValid(c: Suite, n: Node, payload: Bytes, eph: Bytes)
    requires Lawful(c) && |payload| == XX1_SIZE
    ensures AnswerWithNegotiation(c, n, payload, eph).Some? <==> c.valid(payload)
  {
    var start := NewXx(c, n.name, Responder, n.secret).(localEpoch := Some(n.epoch));
    ReadsFirst(c, start, payload);
    if c.valid(payload) {
      var read := Read(c, start, XxMsg1, payload).0;
      CanWriteSecond();
      WritesOk(c, read, XX2, eph);
    }
  }

  lemma {:induction false} FreshSetupWaits(c: Suite, n: Node, max: nat, t: Table, src: Addr, payload: Bytes, env: Env)
    requires Lawful(c) && c.valid(payload) && |payload| == XX1_SIZE && env.rateOk && env.sendOk
    requires src !in t && Admits(t, src, max)
    ensures var now := Advance(c, n, max, t, InSetup(src, payload, env));
      now.Keys == t.Keys + {src} && now[src].state.AwaitingMsg3? && forall a | a in t :: now[a] == t[a]
  {
    AnswerableIffValid(c, n, payload, env.eph);
    var after := HandleSetup(c, n, src, None, payload, env).entry;
    assert Waiting(after) && Advance(c, n, max, t, InSetup(src, payload, env)) == t[src := after.value];
  }

  lemma {:induction false} DialWaits(c: Suite, n: Node, max: nat, t: Table, dest: Addr, key: Bytes, env: Env)
    requires env.sendOk && dest !in t && Admits(t, dest, max)
    ensures var now := Advance(c, n, max, t, Dialled(dest, key, env));
      now.Keys == t.Keys + {dest} && now[dest].state.Initiating? && forall a | a in t :: now[a] == t[a]
  {
  }

  lemma {:induction false} OneWaits(t: Table, b: Addr)
    requires b in t && t[b].state.AwaitingMsg3? && forall x | x in t && x != b :: !t[x].state.AwaitingMsg3?
    ensures |HalfOpen(t)| == 1
  {
    assert HalfOpen(t) == {b};
  }

  lemma {:induction false} BesideADial(c: Suite, n: Node, t: Table, a: Addr, b: Addr, msg1: Bytes, env: Env)
    requires Lawful(c) && c.valid(msg1) && a != b && env.rateOk && env.sendOk
    requires t.Keys == {a} && t[a].state.Initiating?
    ensures var now := Advance(c, n, 2, t, InSetup(b, msg1, env));
      a in now && now[a].state.Initiating? && |HalfOpen(now)| == 1
  {
    assert HalfOpen(t) == {} && |t| == |t.Keys|;
    FreshSetupWaits(c, n, 2, t, b, msg1, env);
    OneWaits(Advance(c, n, 2, t, InSetup(b, msg1, env)), b);
  }

  /** Dialled `a`, answered `b`. */
  lemma {:induction false} OneDialledOneWaits(c: Suite, n: Node, a: Addr, b: Addr, key: Bytes, msg1: Bytes, env: Env)
    requires Lawful(c) && c.valid(msg1) && a != b && env.rateOk && env.sendOk
    ensures var t := Advance(c, n, 2, Advance(c, n, 2, map[], Dialled(a, key, env)), InSetup(b, msg1, env));
      a in t && t[a].state.Initiating? && |HalfOpen(t)| == 1
  {
    DialWaits(c, n, 2, map[], a, key, env);
    var t1 := Advance(c, n, 2, map[], Dialled(a, key, env));
    assert t1.Keys == {a};
    BesideADial(c, n, t1, a, b, msg1, env);
  }

  lemma {:induction false} AdvanceOne(c: Suite, n: Node, max: nat, t: Table, xs: seq<Input>, x: Input)
    ensures AdvanceAll(c, n, max, t, xs + [x]) == Advance(c, n, max, AdvanceAll(c, n, max, t, xs), x)
  {
    assert (xs + [x])[..|xs|] == xs;
  }

  lemma {:induction false} ThreeInputs(c: Suite, n: Node, max: nat, t: Table, x1: Input, x2: Input, x3: Input)
    ensures AdvanceAll(c, n, max, t, [x1, x2, x3])
         == Advance(c, n, max, Advance(c, n, max, Advance(c, n, max, t, x1), x2), x3)
  {
    assert [x1, x2, x3] == [] + [x1] + [x2] + [x3];
    AdvanceOne(c, n, max, t, [], x1);
    AdvanceOne(c, n, max, t, [] + [x1], x2);
    AdvanceOne(c, n, max, t, [] + [x1] + [x2], x3);
  }

  /** A run that breaks the share: with room for two, one of them half-open, we dial `a`, answer a fresh
      `b`, and then give way to `a`. */
  lemma {:induction false} ShareBroken(c: Suite, n: Node, a: Addr, b: Addr, key: Bytes, msg1: Bytes, env: Env)
    requires Lawful(c) && c.valid(msg1) && a <= n.addr && a != b && env.rateOk && env.sendOk
    ensures var inputs := [Dialled(a, key, env), InSetup(b, msg1, env), InSetup(a, msg1, env)];
      |HalfOpen(AdvanceAll(c, n, 2, map[], inputs))| > HalfOpenShare(2)
  {
    var x1, x2, x3 := Dialled(a, key, env), InSetup(b, msg1, env), InSetup(a, msg1, env);
    ThreeInputs(c, n, 2, map[], x1, x2, x3);
    OneDialledOneWaits(c, n, a, b, key, msg1, env);
    AnswerableIffValid(c, n, msg1, env.eph);
    GivingWayGrows(c, n, 2, Advance(c, n, 2, Advance(c, n, 2, map[], x1), x2), x3);
  }

  /** Storing one entry raises the half-open count by at most one, and by one only if the entry waits
      and its predecessor did not. */
  lemma {:induction false} StoredGrowth(t: Table, src: Addr, max: nat, after: Option<Entry>, gaveWay: bool)
    requires max > 0 && Admits(t, src, max)
    requires src in t && Waiting(after) && !Waiting(Lookup(t, src)) ==> gaveWay
    ensures var now := Store(t, src, after);
      |HalfOpen(now)| > |HalfOpen(t)| ==>
        |HalfOpen(now)| == |HalfOpen(t)| + 1 && if src in t then gaveWay else |HalfOpen(now)| <= HalfOpenShare(max)
  {
    HalfOpenFits(t);
    StoreHalfOpen(t, src, after);
  }

  lemma {:induction false} SetupGrowth(c: Suite, n: Node, max: nat, t: Table, src: Addr, payload: Bytes, env: Env)
    requires max > 0
    ensures var now := OnSetup(c, n, max, t, src, payload, env).table;
      |HalfOpen(now)| > |HalfOpen(t)| ==>
        && |HalfOpen(now)| == |HalfOpen(t)| + 1
        && if src in t then t[src].state.Initiating? && src <= n.addr else |HalfOpen(now)| <= HalfOpenShare(max)
  {
    var e := Lookup(t, src);
    var after := HandleSetup(c, n, src, e, payload, env).entry;
    if e.Some? && !Waiting(e) && Waiting(after) { SetupGivesWay(c, n, src, e, payload, env); }
    if Admits(t, src, max) {
      StoredGrowth(t, src, max, after, src in t && t[src].state.Initiating? && src <= n.addr);
    }
  }

  lemma NoOtherGrowth(c: Suite, n: Node, max: nat, t: Table, i: Input)
    requires !i.InSetup?
    ensures |HalfOpen(Advance(c, n, max, t, i))| <= |HalfOpen(t)|
  {
    var addr := if i.Dialled? then i.dest else i.src;
    var e := Lookup(t, addr);
    var payload := if i.InAck? || i.InMsg3? then i.payload else [];
    var env := if i.InData? then Env([], true, true, i.now) else i.env;
    var f, key := if i.InData? then i.frame else Frame(false, 0, [], []), if i.Dialled? then i.key else [];
    OnlySetupsWait(c, n, addr, e, payload, env, f, key);
    var after := match i
      case InAck(_, _, _) => HandleAck(c, n, addr, e, payload, env).entry
      case InMsg3(_, _, _) => HandleMsg3(c, n, addr, e, payload, env).entry
      case InData(_, _, _) => HandleData(c, e, f, env.now)
      case _ => Initiate(c, n, e, key, env).entry;
    StoreHalfOpen(t, addr, after);
  }

  // ----- the table in place -----

  class SessionTable {
    const suite: Suite
    const node: Node
    const maxSessions: nat
    var sessions: Table

    constructor (suite: Suite, node: Node, maxSessions: nat)
      ensures this.suite == suite && this.node == node && this.maxSessions == maxSessions && sessions == map[]
    {
      this.suite, this.node, this.maxSessions := suite, node, maxSessions;
      sessions := map[];
    }

    method CountHalfOpen() returns (count: nat)
      ensures count == |HalfOpen(sessions)|
    {
      count := 0;
      var rest := sessions.Keys;
      ghost var seen: set<Addr> := {};
      while rest != {}
        invariant seen + rest == sessions.Keys && seen !! rest && count == |HalfOpenAmong(sessions, seen)|
        decreases rest
      {
        var a :| a in rest;
        ghost var counted := HalfOpenAmong(sessions, seen);
        if sessions[a].state.AwaitingMsg3? {
          count := count + 1;
          assert HalfOpenAmong(sessions, seen + {a}) == counted + {a};
        } else {
          assert HalfOpenAmong(sessions, seen + {a}) == counted;
        }
        rest := rest - {a};
        seen := seen + {a};
      }
      assert seen == sessions.Keys;
    }

    method AdmitNewSession(addr: Addr) returns (ok: bool)
      ensures ok == Admits(sessions, addr, maxSessions)
    {
      if maxSessions == 0 || addr in sessions { return true; }
      if |sessions| >= maxSessions { return false; }
      var share := if maxSessions / HALF_OPEN_SHARE_DIVISOR < 1 then 1 else maxSessions / HALF_OPEN_SHARE_DIVISOR;
      if |sessions| >= share {
        var halfOpen := CountHalfOpen();
        if halfOpen >= share { return false; }
      }
      return true;
    }

    method HandleSessionSetup(src: Addr, payload: Bytes, env: Env) returns (out: Option<Wire>)
      modifies this
      ensures Reply(sessions, out) == OnSetup(suite, node, maxSessions, old(sessions), src, payload, env)
    {
      if |payload| != XX1_SIZE { return None; }
      var admitted := AdmitNewSession(src);
      if !admitted { return None; }
      StoreSame(sessions, src);
      if !env.rateOk { return None; }
      if src in sessions {
        var existing := sessions[src];
        if existing.state.Initiating? {
          if WinsInitiation(node.addr, src) { return None; }
        } else if existing.state.AwaitingMsg3? {
          if existing.handshakePayload.Some? && env.sendOk { return Some(Ack(existing.handshakePayload.value)); }
          return None;
        } else {
          out := ArmResponderRekey(src, existing, payload, env);
          return;
        }
      }
      var answer := AnswerWithNegotiation(suite, node, payload, env.eph);
      if answer.None? || !env.sendOk { return None; }
      var (handshake, ack) := answer.value;
      var entry := NewEntry(suite.pub(node.secret), AwaitingMsg3(handshake), Some(ack));
      sessions := sessions[src := entry];
      return Some(Ack(ack));
    }

    /** A setup naming an established peer. */
    method ArmResponderRekey(src: Addr, existing: Entry, payload: Bytes, env: Env) returns (out: Option<Wire>)
      requires src in sessions && sessions[src] == existing && existing.state.Established?
      modifies this
      ensures Reply(sessions, out) == Apply(old(sessions), src, RekeySetup(suite, node, src, existing, payload, env))
    {
      StoreSame(sessions, src);
      var rekeyInProgress := existing.rekey.Some?;
      var pendingOutranks := existing.pending.Some? && !PendingStale(existing, env.now, node.idleTimeoutMs);
      if rekeyInProgress {
        if WinsInitiation(node.addr, src) { return None; }
        sessions := sessions[src := AbandonHandshake(sessions[src])];
      } else if pendingOutranks {
        return None;
      }
      var answer := Answer(suite, node, payload, env.eph);
      if answer.None? || !env.sendOk { return None; }
      sessions := sessions[src := SetRekey(sessions[src], answer.value.0, false)];
      return Some(Ack(answer.value.1));
    }

    method HandleSessionAck(src: Addr, payload: Bytes, env: Env) returns (out: Option<Wire>)
      modifies this
      ensures Reply(sessions, out) == OnAck(suite, node, old(sessions), src, payload, env)
    {
      StoreSame(sessions, src);
      if |payload| < XX2_SIZE { return None; }
      if src !in sessions { return None; }
      var entry := sessions[src];
      sessions := sessions - {src};
      if entry.state.Established? && entry.rekey.Some? && entry.rekeyInitiator {
        var handshake := entry.rekey.value;
        entry := entry.(rekey := None);
        var done := CompleteRekey(suite, handshake, payload);
        if done.None? || !env.sendOk {
          sessions := sessions[src := AbandonRekey(entry)];
          return None;
        }
        var (msg3, session) := done.value;
        entry := SetPending(entry, session, env.now).(rekeyMsg3 := Some(msg3));
        sessions := sessions[src := entry];
        return Some(Msg3(msg3));
      }
      if !entry.state.Initiating? {
        sessions := sessions[src := entry];
        return None;
      }
      out := FinishAck(src, entry, payload, env);
    }

    /** The initiating arm: the entry has been taken out of the table. */
    method FinishAck(src: Addr, taken: Entry, payload: Bytes, env: Env) returns (out: Option<Wire>)
      requires src !in sessions && taken.state.Initiating?
      modifies this
      ensures Reply(sessions, out)
           == Apply(old(sessions), src, InitiatorAck(suite, taken, taken.state.handshake, payload, env))
    {
      StoreSame(sessions, src);
      var entry, handshake := taken, taken.state.handshake;
      var (base, neg) := SplitPayload(payload, XX2_SIZE);
      var (read, rollback) := TryReadMessage2(suite, handshake, base);
      handshake := read;
      if rollback.Err? {
        entry := entry.(state := Initiating(handshake));
        sessions := sessions[src := entry];
        return None;
      }
      var (after, opens) := ReadNegotiation(suite, handshake, neg);
      handshake := after;
      if !opens || (handshake.rs.Some? && XOnly(handshake.rs.value) != XOnly(entry.remoteKey)) {
        handshake := Restore(handshake, rollback.value);
        entry := entry.(state := Initiating(handshake));
        sessions := sessions[src := entry];
        return None;
      }
      var done := FinishInitiation(suite, handshake);
      if done.None? || !env.sendOk { return None; }
      var (msg3, session) := done.value;
      entry := entry.(state := Established(session), handshakePayload := None);
      sessions := sessions[src := entry];
      return Some(Msg3(msg3));
    }

    method HandleSessionMsg3(src: Addr, payload: Bytes, env: Env) returns (out: Option<Wire>)
      modifies this
      ensures Reply(sessions, out) == OnMsg3(suite, node, old(sessions), src, payload, env)
    {
      out := None;
      StoreSame(sessions, src);
      if |payload| < XX3_SIZE { return; }
      if src !in sessions { return; }
      var entry := sessions[src];
      sessions := sessions - {src};
      if entry.state.Established? && entry.rekey.Some? && !entry.rekeyInitiator {
        FinishRekeyMsg3(src, entry, payload, env);
      } else if !entry.state.AwaitingMsg3? {
        sessions := sessions[src := entry];
      } else {
        FinishMsg3(src, entry.state.handshake, payload);
      }
    }

    /** The responder of a rekey; the entry has been taken out of the table. */
    method FinishRekeyMsg3(src: Addr, taken: Entry, payload: Bytes, env: Env)
      requires src !in sessions && taken.rekey.Some?
      modifies this
      ensures Reply(sessions, None)
           == Apply(old(sessions), src, RekeyMsg3(suite, taken, taken.rekey.value, payload, env))
    {
      var entry, handshake := taken.(rekey := None), taken.rekey.value;
      var done := FinishResponse(suite, handshake, payload);
      if done.None? || XOnly(done.value.remoteStatic) != XOnly(entry.remoteKey) {
        sessions := sessions[src := AbandonHandshake(entry)];
        return;
      }
      sessions := sessions[src := SetPending(entry, done.value, env.now)];
    }

    /** The first message 3; the entry has been taken out of the table. */
    method FinishMsg3(src: Addr, handshake: Party, payload: Bytes)
      requires src !in sessions
      modifies this
      ensures Reply(sessions, None) == Apply(old(sessions), src, ResponderMsg3(suite, node, src, handshake, payload))
    {
      StoreSame(sessions, src);
      var done := FinishResponse(suite, handshake, payload);
      if done.None? || node.addrOf(XOnly(done.value.remoteStatic)) != src { return; }
      sessions := sessions[src := NewEntry(done.value.remoteStatic, Established(done.value), None)];
    }

    method HandleEncryptedSessionMsg(src: Addr, frame: Frame, now: nat)
      modifies this
      ensures sessions == OnData(suite, old(sessions), src, frame, now)
    {
      StoreSame(sessions, src);
      if src !in sessions || !sessions[src].state.Established? { return; }
      var entry := sessions[src];
      sessions := sessions - {src};
      var slot := TrialDecrypt(suite, entry, frame);
      match slot {
        case None =>
        case Some(Current) =>
          entry := entry.(state := Established(Marked(entry.state.session, frame)));
          if entry.pending.None? { entry := entry.(rekeyMsg3 := None); }
        case Some(Pending) =>
          entry := entry.(pending := Some(Marked(entry.pending.value, frame)));
          entry := entry.(rekeyMsg3 := None);
          entry := Promote(entry, now);
        case Some(Previous) =>
          entry := entry.(previous := Some(Marked(entry.previous.value, frame)), drainStartedMs := Some(now));
      }
      sessions := sessions[src := entry];
    }

    /** `initiate_session`, behind the admission check its callers make. */
    method InitiateSession(dest: Addr, key: Bytes, env: Env) returns (out: Option<Wire>)
      modifies this
      ensures Reply(sessions, out) == OnDial(suite, node, maxSessions, old(sessions), dest, key, env)
    {
      var admitted := AdmitNewSession(dest);
      if !admitted { return None; }
      StoreSame(sessions, dest);
      if dest in sessions && !sessions[dest].state.AwaitingMsg3? { return None; }
      var start := NewXx(suite, node.name, Initiator, node.secret).(localEpoch := Some(node.epoch));
      var (handshake, msg1) := Write(suite, start, XxMsg1, env.eph);
      if msg1.Err? || !env.sendOk { return None; }
      sessions := sessions[dest := NewEntry(key, Initiating(handshake), Some(msg1.value))];
      return Some(Setup(msg1.value));
    }
  }

  lemma {:induction false} StoreSame(t: Table, addr: Addr)
    ensures Store(t, addr, Lookup(t, addr)) == t
  {
    if addr !in t { assert t - {addr} == t; }
  }
}
