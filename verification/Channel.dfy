/** A sealing sender and a receiver behind a replay window, with an unreliable network between them. */
module Channel {
  import opened Results
  import opened Words
  import opened Crypto
  import opened LittleEndian
  import opened Noise
  import opened Replay

  /** A frame on the wire: explicit counter, authenticated header, ciphertext. */
  datatype Packet = Packet(counter: u64, header: Bytes, ciphertext: Bytes)

  datatype Outgoing = Outgoing(plain: Bytes, header: Bytes)

  // ----- the sender -----

  /** The packets sent for `msgs`; a message that is refused sends nothing and uses no counter. */
  function SendAll(c: Suite, s: CipherState, msgs: seq<Outgoing>): (CipherState, seq<(Packet, Bytes)>) {
    if msgs == [] then (s, [])
    else
      var (before, sent) := SendAll(c, s, msgs[..|msgs| - 1]);
      var m := msgs[|msgs| - 1];
      var (after, sealed) := before.EncryptWithAad(c, m.plain, m.header);
      if sealed.Err? then (after, sent)
      else (after, sent + [(Packet(before.nonce, m.header, sealed.value), m.plain)])
  }

  /** Packet `i` carries counter `first + i`, below `u64::MAX`, and seals its message under it. */
  ghost predicate Sealed(c: Suite, key: Bytes, first: nat, sent: seq<(Packet, Bytes)>) {
    forall i | 0 <= i < |sent| ::
      && sent[i].0.counter == first + i < U64_MAX
      && sent[i].0.ciphertext == c.seal(key, sent[i].0.counter, sent[i].0.header, sent[i].1)
  }

  /** Counters are strictly increasing, without gaps, and never `u64::MAX`. */
  lemma {:induction false} CountersIncrease(c: Suite, s: CipherState, msgs: seq<Outgoing>)
    requires s.hasKey
    ensures var (after, sent) := SendAll(c, s, msgs);
      && after.key == s.key && after.hasKey && after.nonce == s.nonce + |sent| && Sealed(c, s.key, s.nonce, sent)
      && forall i, j | 0 <= i < j < |sent| :: sent[i].0.counter < sent[j].0.counter
    decreases |msgs|
  {
    if msgs != [] { CountersIncrease(c, s, msgs[..|msgs| - 1]); }
  }

  // ----- the receiver -----

  /** Check the window, open, and only then mark the counter. */
  function Receive(c: Suite, r: CipherState, w: Window, p: Packet): (Window, Option<Bytes>) {
    if !w.Check(p.counter) then (w, None)
    else
      var plain := r.DecryptWithCounter(c, p.ciphertext, p.counter, p.header);
      if plain.Err? then (w, None) else (w.Accept(p.counter), Some(plain.value))
  }

  /** The window after `arrivals`, what each of them delivered, and the counters delivered, in order. */
  datatype Received = Received(window: Window, delivered: seq<Option<Bytes>>, history: seq<u64>)

  function ReceiveAll(c: Suite, r: CipherState, arrivals: seq<Packet>): (x: Received)
    ensures |x.delivered| == |arrivals|
  {
    if arrivals == [] then Received(FRESH, [], [])
    else
      var before := ReceiveAll(c, r, arrivals[..|arrivals| - 1]);
      var p := arrivals[|arrivals| - 1];
      var (w, plain) := Receive(c, r, before.window, p);
      Received(w, before.delivered + [plain], if plain.Some? then before.history + [p.counter] else before.history)
  }

  lemma {:induction false} GuardedExtends(history: seq<u64>, counter: u64)
    requires Guarded(history) && Run(history).Some? && Run(history).value.Check(counter)
    ensures Guarded(history + [counter])
    ensures Run(history + [counter]) == Some(Run(history).value.Accept(counter))
  {
    var longer := history + [counter];
    assert longer[..|history|] == history;
    forall i | 0 <= i < |longer|
      ensures Run(longer[..i]).Some? && Run(longer[..i]).value.Check(longer[i])
    {
      if i < |history| { assert longer[..i] == history[..i]; }
    }
  }

  /** The window is the one the delivered counters leave, and each of them was checked. */
  lemma {:induction false} WindowTracksDelivered(c: Suite, r: CipherState, arrivals: seq<Packet>)
    ensures var x := ReceiveAll(c, r, arrivals);
      Guarded(x.history) && Run(x.history) == Some(x.window)
    decreases |arrivals|
  {
    if arrivals != [] {
      var init, p := arrivals[..|arrivals| - 1], arrivals[|arrivals| - 1];
      WindowTracksDelivered(c, r, init);
      var before := ReceiveAll(c, r, init);
      if Receive(c, r, before.window, p).1.Some? { GuardedExtends(before.history, p.counter); }
    }
  }

  /** Exactly the counters of delivering arrivals are in the history. */
  lemma {:induction false} HistoryIsDelivered(c: Suite, r: CipherState, arrivals: seq<Packet>, counter: u64)
    ensures var x := ReceiveAll(c, r, arrivals);
      counter in x.history <==> exists i | 0 <= i < |arrivals| :: x.delivered[i].Some? && arrivals[i].counter == counter
    decreases |arrivals|
  {
    if arrivals != [] {
      var k := |arrivals| - 1;
      var init := arrivals[..k];
      HistoryIsDelivered(c, r, init, counter);
      var before, x := ReceiveAll(c, r, init), ReceiveAll(c, r, arrivals);
      if counter in before.history {
        var i :| 0 <= i < k && before.delivered[i].Some? && init[i].counter == counter;
        assert x.delivered[i].Some? && arrivals[i].counter == counter;
      } else if counter in x.history {
        assert x.delivered[k].Some? && arrivals[k].counter == counter;
      }
      if i :| 0 <= i < |arrivals| && x.delivered[i].Some? && arrivals[i].counter == counter {
        if i < k { assert before.delivered[i].Some? && init[i].counter == counter; }
      }
    }
  }

  /** What arrived first was delivered no differently for what came later. */
  lemma {:induction false} DeliveredPrefix(c: Suite, r: CipherState, arrivals: seq<Packet>, k: nat)
    requires k <= |arrivals|
    ensures ReceiveAll(c, r, arrivals[..k]).delivered == ReceiveAll(c, r, arrivals).delivered[..k]
    decreases |arrivals|
  {
    if k < |arrivals| {
      var init := arrivals[..|arrivals| - 1];
      DeliveredPrefix(c, r, init, k);
      assert init[..k] == arrivals[..k];
    } else {
      assert arrivals[..k] == arrivals;
    }
  }

  /** An arrival that delivers was not delivered before. */
  lemma {:induction false} DeliversUnseen(c: Suite, r: CipherState, earlier: seq<Packet>, p: Packet)
    requires ReceiveAll(c, r, earlier + [p]).delivered[|earlier|].Some?
    ensures p.counter !in ReceiveAll(c, r, earlier).history
  {
    assert (earlier + [p])[..|earlier|] == earlier;
    var before := ReceiveAll(c, r, earlier);
    assert before.window.Check(p.counter);
    WindowTracksDelivered(c, r, earlier);
    AdmittedIsUnseen(before.history, p.counter);
  }

  /** Whatever arrives, in whatever order and however often, no counter is delivered twice; so each
      sealed packet is delivered at most once. */
  lemma DeliveredAtMostOnce(c: Suite, r: CipherState, arrivals: seq<Packet>, i: nat, j: nat)
    requires i < j < |arrivals|
    requires ReceiveAll(c, r, arrivals).delivered[i].Some? && ReceiveAll(c, r, arrivals).delivered[j].Some?
    ensures arrivals[i].counter != arrivals[j].counter
  {
    var earlier := arrivals[..j];
    DeliveredPrefix(c, r, arrivals, j);
    DeliveredPrefix(c, r, arrivals, j + 1);
    assert arrivals[..j + 1] == earlier + [arrivals[j]];
    DeliversUnseen(c, r, earlier, arrivals[j]);
    assert ReceiveAll(c, r, earlier).delivered[i].Some? && earlier[i].counter == arrivals[i].counter;
    HistoryIsDelivered(c, r, earlier, arrivals[i].counter);
  }

  /** An arrival is a packet that was sent, or one that does not open. */
  ghost predicate Honest(c: Suite, r: CipherState, sent: seq<(Packet, Bytes)>, p: Packet) {
    || (exists i | 0 <= i < |sent| :: sent[i].0 == p)
    || r.DecryptWithCounter(c, p.ciphertext, p.counter, p.header).Err?
  }

  lemma SealedPacketOpens(c: Suite, r: CipherState, first: nat, sent: seq<(Packet, Bytes)>, i: nat)
    requires Lawful(c) && r.hasKey && Sealed(c, r.key, first, sent) && i < |sent|
    ensures r.DecryptWithCounter(c, sent[i].0.ciphertext, sent[i].0.counter, sent[i].0.header) == Ok(sent[i].1)
  {
  }

  /** Packet `i` arrives last, for the first time. */
  ghost predicate FirstArrival(arrivals: seq<Packet>, p: Packet) {
    arrivals != [] && arrivals[|arrivals| - 1] == p && p !in arrivals[..|arrivals| - 1]
  }

  lemma {:induction false} UnseenCounter(c: Suite, r: CipherState, first: nat, sent: seq<(Packet, Bytes)>,
                                         arrivals: seq<Packet>, i: nat)
    requires Sealed(c, r.key, first, sent) && i < |sent| && sent[i].0 !in arrivals
    requires forall k | 0 <= k < |arrivals| :: Honest(c, r, sent, arrivals[k])
    ensures sent[i].0.counter !in ReceiveAll(c, r, arrivals).history
    decreases |arrivals|
  {
    if arrivals != [] {
      var init, p := arrivals[..|arrivals| - 1], arrivals[|arrivals| - 1];
      UnseenCounter(c, r, first, sent, init, i);
      assert Honest(c, r, sent, p) && p in arrivals;
    }
  }

  /** Under any loss, reordering, duplication and injection of packets that do not open, a sealed packet
      is delivered on its first arrival whenever it is less than 2048 behind the highest delivered. */
  lemma {:induction false} DeliveredOnFirstArrival(c: Suite, r: CipherState, first: nat,
                           sent: seq<(Packet, Bytes)>, arrivals: seq<Packet>, i: nat)
    requires Lawful(c) && r.hasKey && Sealed(c, r.key, first, sent) && i < |sent| && FirstArrival(arrivals, sent[i].0)
    requires forall k | 0 <= k < |arrivals| :: Honest(c, r, sent, arrivals[k])
    requires ReceiveAll(c, r, arrivals[..|arrivals| - 1]).window.highest < sent[i].0.counter + WINDOW_SIZE
    ensures ReceiveAll(c, r, arrivals).delivered[|arrivals| - 1] == Some(sent[i].1)
  {
    var init, p := arrivals[..|arrivals| - 1], sent[i].0;
    var before := ReceiveAll(c, r, init);
    assert forall k | 0 <= k < |init| :: init[k] == arrivals[k];
    UnseenCounter(c, r, first, sent, init, i);
    WindowTracksDelivered(c, r, init);
    CheckMeansUnseen(before.history, p.counter);
    SealedPacketOpens(c, r, first, sent, i);
  }

  lemma {:induction false} LastDelivers(c: Suite, r: CipherState, earlier: seq<Packet>, p: Packet)
    ensures ReceiveAll(c, r, earlier + [p]).delivered[|earlier|] == Receive(c, r, ReceiveAll(c, r, earlier).window, p).1
  {
    assert (earlier + [p])[..|earlier|] == earlier;
  }

  lemma {:induction false} DeliversOwnMessage(c: Suite, r: CipherState, first: nat, sent: seq<(Packet, Bytes)>,
                                              arrivals: seq<Packet>, k: nat, i: nat)
    requires Lawful(c) && r.hasKey && Sealed(c, r.key, first, sent) && i < |sent|
    requires k < |arrivals| && arrivals[k] == sent[i].0
    ensures var d := ReceiveAll(c, r, arrivals).delivered[k];
      d.Some? ==> d.value == sent[i].1
  {
    DeliveredPrefix(c, r, arrivals, k + 1);
    assert arrivals[..k + 1] == arrivals[..k] + [arrivals[k]];
    LastDelivers(c, r, arrivals[..k], arrivals[k]);
    SealedPacketOpens(c, r, first, sent, i);
  }

  lemma {:induction false} DeliveredWhenFirst(c: Suite, r: CipherState, first: nat, sent: seq<(Packet, Bytes)>,
                                              arrivals: seq<Packet>, k: nat, i: nat)
    requires Lawful(c) && r.hasKey && Sealed(c, r.key, first, sent) && i < |sent|
    requires k < |arrivals| && arrivals[k] == sent[i].0 && sent[i].0 !in arrivals[..k]
    requires forall l | 0 <= l < |arrivals| :: Honest(c, r, sent, arrivals[l])
    requires ReceiveAll(c, r, arrivals[..k]).window.highest < sent[i].0.counter + WINDOW_SIZE
    ensures ReceiveAll(c, r, arrivals).delivered[k].Some?
  {
    var upTo := arrivals[..k + 1];
    assert upTo[..k] == arrivals[..k];
    assert forall l | 0 <= l <= k :: upTo[l] == arrivals[l];
    DeliveredOnFirstArrival(c, r, first, sent, upTo, i);
    DeliveredPrefix(c, r, arrivals, k + 1);
  }

  lemma {:induction false} NeverTwiceDelivered(c: Suite, r: CipherState, arrivals: seq<Packet>, k: nat)
    requires k < |arrivals|
    ensures var delivered := ReceiveAll(c, r, arrivals).delivered;
      forall l | 0 <= l < k && arrivals[l] == arrivals[k] :: delivered[l].None? || delivered[k].None?
  {
    var delivered := ReceiveAll(c, r, arrivals).delivered;
    forall l | 0 <= l < k && arrivals[l] == arrivals[k]
      ensures delivered[l].None? || delivered[k].None?
    {
      if delivered[l].Some? && delivered[k].Some? { DeliveredAtMostOnce(c, r, arrivals, l, k); }
    }
  }

  /** Sender and receiver together: of everything sealed under one key, each packet is delivered at most
      once, as the message it was sealed from, and on its first arrival if it is not too late. */
  lemma {:induction false} SenderAndWindowCompose(c: Suite, s: CipherState, r: CipherState, msgs: seq<Outgoing>,
                                                  arrivals: seq<Packet>, k: nat, i: nat)
    requires Lawful(c) && s.hasKey && r.hasKey && r.key == s.key
    requires i < |SendAll(c, s, msgs).1| && k < |arrivals| && arrivals[k] == SendAll(c, s, msgs).1[i].0
    requires forall l | 0 <= l < |arrivals| :: Honest(c, r, SendAll(c, s, msgs).1, arrivals[l])
    ensures var (packet, plain) := SendAll(c, s, msgs).1[i];
      var delivered := ReceiveAll(c, r, arrivals).delivered;
      && (delivered[k].Some? ==> delivered[k].value == plain)
      && (forall l | 0 <= l < k && arrivals[l] == packet :: delivered[l].None? || delivered[k].None?)
      && (packet !in arrivals[..k] && ReceiveAll(c, r, arrivals[..k]).window.highest < packet.counter + WINDOW_SIZE ==>
            delivered[k].Some?)
  {
    CountersIncrease(c, s, msgs);
    var sent := SendAll(c, s, msgs).1;
    DeliversOwnMessage(c, r, s.nonce, sent, arrivals, k, i);
    NeverTwiceDelivered(c, r, arrivals, k);
    if sent[i].0 !in arrivals[..k] && ReceiveAll(c, r, arrivals[..k]).window.highest < sent[i].0.counter + WINDOW_SIZE {
      DeliveredWhenFirst(c, r, s.nonce, sent, arrivals, k, i);
    }
  }

  // ----- the message inside -----

  const INNER_HEADER_SIZE := 5

  datatype Inner = Inner(timestamp: u32, msgType: byte, payload: Bytes)

  function PrependInner(m: Inner): Bytes {
    ToLe(m.timestamp, U32_SIZE) + ([m.msgType] + m.payload)
  }

  function StripInner(plain: Bytes): Option<Inner> {
    if |plain| < INNER_HEADER_SIZE then None else Some(Inner(U32Of(plain[..4]), plain[4], plain[5..]))
  }

  /** The inner header comes off as it was put on, and is missing exactly from what is too short to be
      such a message. */
  lemma {:induction false} InnerRoundTrip(m: Inner, plain: Bytes)
    ensures StripInner(PrependInner(m)) == Some(m)
    ensures StripInner(plain).Some? <==> |plain| >= INNER_HEADER_SIZE
    ensures StripInner(plain).Some? ==> PrependInner(StripInner(plain).value) == plain
  {
    var data := PrependInner(m);
    Rooms();
    FromToLe(m.timestamp, U32_SIZE);
    assert data[..4] == ToLe(m.timestamp, U32_SIZE) && data[4] == m.msgType && data[5..] == m.payload;
    if |plain| >= INNER_HEADER_SIZE {
      ToFromLe(plain[..4]);
      assert plain == plain[..4] + ([plain[4]] + plain[5..]);
    }
  }

  /** Bytes 0 to 3 are the timestamp, least significant byte first, byte 4 is the type. */
  lemma {:induction false} InnerLayout(m: Inner)
    ensures PrependInner(m) == FourBytes(m.timestamp) + [m.msgType] + m.payload
  {
    BytesOf(m.timestamp);
  }

  // ----- in place -----

  /** The receiving end of an established session: check the window, open, mark, and only then look at
      the inner header, whose absence loses the message but not the mark. */
  method DecryptEstablished(c: Suite, key: Bytes, p: Packet, replay: ReplayWindow) returns (inner: Option<Inner>)
    requires replay.Valid()
    modifies replay, replay.bitmap
    ensures var (window, plain) := Receive(c, Keyed(key), old(replay.View()), p);
      replay.View() == window && inner == if plain.Some? then StripInner(plain.value) else None
  {
    var fits := replay.Check(p.counter);
    if !fits { return None; }
    if |p.ciphertext| < TAG_SIZE { return None; }
    var plain := c.open(key, p.counter, p.header, p.ciphertext);
    if plain.None? { return None; }
    replay.Accept(p.counter);
    if |plain.value| < INNER_HEADER_SIZE { return None; }
    return Some(Inner(U32Of(plain.value[..4]), plain.value[4], plain.value[5..]));
  }

  class Cipher {
    var key: Bytes
    var nonce: u64
    var hasKey: bool

    function View(): CipherState
      reads this
    {
      CipherState(key, nonce, hasKey)
    }

    constructor Empty()
      ensures View() == UNKEYED
    {
      key, nonce, hasKey := [], 0, false;
    }

    method InitializeKey(key: Bytes)
      modifies this
      ensures View() == Keyed(key)
    {
      this.key := key;
      nonce := 0;
      hasKey := true;
    }

    method AdvanceNonce() returns (r: Noise.Result<u64>)
      modifies this
      ensures (View(), r) == old(View()).AdvanceNonce()
      ensures r.Ok? ==> r.value == old(nonce) < nonce && r.value != U64_MAX
    {
      if nonce == U64_MAX { return Err(NonceOverflow); }
      var n := nonce;
      nonce := nonce + 1;
      return Ok(n);
    }

    method EncryptWithAad(c: Suite, plaintext: Bytes, aad: Bytes) returns (r: Noise.Result<Bytes>)
      modifies this
      ensures (View(), r) == old(View()).EncryptWithAad(c, plaintext, aad)
    {
      if !hasKey { return Ok(plaintext); }
      if |plaintext| > MAX_MESSAGE_SIZE - TAG_SIZE { return Err(MessageTooLarge); }
      var counter := AdvanceNonce();
      if counter.Err? { return Err(counter.error); }
      return Ok(c.seal(key, counter.value, aad, plaintext));
    }

    method Decrypt(c: Suite, ciphertext: Bytes) returns (r: Noise.Result<Bytes>)
      modifies this
      ensures (View(), r) == old(View()).Decrypt(c, ciphertext)
    {
      if !hasKey { return Ok(ciphertext); }
      if |ciphertext| < TAG_SIZE { return Err(MessageTooShort); }
      var counter := AdvanceNonce();
      if counter.Err? { return Err(counter.error); }
      var plain := c.open(key, counter.value, [], ciphertext);
      return if plain.Some? then Ok(plain.value) else Err(DecryptionFailed);
    }
  }
}
