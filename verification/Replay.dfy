/** The sliding replay window: a 2048-bit bitmap held in 64-bit words.

    `Window` is the abstract value (the highest counter and the set of marked
    offsets below it); `ReplayWindow` is the bitmap that represents it; `Tracks`
    ties both to the set of counters accepted so far. */
module Replay {
  import opened Results
  import opened Words

  const WINDOW_SIZE := 2048
  const WORDS := 32

  /** Offset `o` is marked when counter `highest - o` has been seen. */
  datatype Window = Window(highest: u64, marks: set<nat>) {

    predicate Check(counter: u64) {
      counter != U64_MAX &&
      (counter > highest || (highest - counter < WINDOW_SIZE && highest - counter !in marks))
    }

    /** Inside the window or above it: what `accept` demands of its caller. */
    predicate Covers(counter: u64) {
      highest < counter + WINDOW_SIZE
    }

    function Accept(counter: u64): Window
      requires Covers(counter)
    {
      if counter > highest then Window(counter, ShiftMarks(marks, counter - highest) + {0})
      else this.(marks := marks + {highest - counter})
    }
  }

  const FRESH := Window(0, {})

  /** The marks after the window moves up by `shift`; what leaves the window is forgotten. */
  function ShiftMarks(marks: set<nat>, shift: nat): set<nat> {
    set o | o in marks && o + shift < WINDOW_SIZE :: o + shift
  }

  // ----- the bitmap -----

  predicate Marked(words: seq<u64>, p: nat)
    requires |words| == WORDS && p < WINDOW_SIZE
  {
    Bit(words[p / 64], p % 64)
  }

  ghost function MarksOf(words: seq<u64>): set<nat>
    requires |words| == WORDS
  {
    set p: nat | p < WINDOW_SIZE && Marked(words, p)
  }

  /** Word `j` after moving every word up by `wordShift`. */
  function WordAt(words: seq<u64>, wordShift: nat, j: int): u64 {
    if 0 <= j - wordShift < |words| then words[j - wordShift] else 0
  }

  /** `now` is `was` shifted left by `shift` bits, all 2048 bits taken together. */
  ghost predicate ShiftedBy(was: seq<u64>, now: seq<u64>, shift: nat)
    requires |was| == WORDS && |now| == WORDS
  {
    forall p: nat | p < WINDOW_SIZE :: Marked(now, p) == (shift <= p && Marked(was, p - shift))
  }

  lemma WordShift(was: seq<u64>, now: seq<u64>, shift: nat)
    requires |was| == WORDS && |now| == WORDS && shift % 64 == 0
    requires forall j | 0 <= j < WORDS :: now[j] == WordAt(was, shift / 64, j)
    ensures ShiftedBy(was, now, shift)
  {
    forall p: nat | p < WINDOW_SIZE
      ensures Marked(now, p) == (shift <= p && Marked(was, p - shift))
    {
      if shift <= p {
        assert (p - shift) / 64 == p / 64 - shift / 64 && (p - shift) % 64 == p % 64;
      } else {
        BitOfZero(p % 64);
      }
    }
  }

  lemma CarryShift(was: seq<u64>, now: seq<u64>, shift: nat)
    requires |was| == WORDS && |now| == WORDS && shift % 64 != 0
    requires forall j | 0 <= j < WORDS ::
      now[j] == Or64(Shl64(WordAt(was, shift / 64, j), shift % 64),
                     Shr64(WordAt(was, shift / 64, j - 1), 64 - shift % 64))
    ensures ShiftedBy(was, now, shift)
  {
    forall p: nat | p < WINDOW_SIZE
      ensures Marked(now, p) == (shift <= p && Marked(was, p - shift))
    {
      CarryShiftAt(was, now[p / 64], shift, p);
    }
  }

  lemma CarryShiftAt(was: seq<u64>, word: u64, shift: nat, p: nat)
    requires |was| == WORDS && shift % 64 != 0 && p < WINDOW_SIZE
    requires word == Or64(Shl64(WordAt(was, shift / 64, p / 64), shift % 64),
                        Shr64(WordAt(was, shift / 64, p / 64 - 1), 64 - shift % 64))
    ensures Bit(word, p % 64) == (shift <= p && Marked(was, p - shift))
  {
    var j, k, s := p / 64, p % 64, shift % 64;
    var hi, lo := WordAt(was, shift / 64, j), WordAt(was, shift / 64, j - 1);
    CarryBit(hi, lo, s, k);
    if shift > p {
      if s <= k { BitOfZero(k - s); } else { BitOfZero(64 - s + k); }
    } else if s <= k {
      assert (p - shift) / 64 == j - shift / 64 && (p - shift) % 64 == k - s;
    } else {
      assert (p - shift) / 64 == j - 1 - shift / 64 && (p - shift) % 64 == 64 - s + k;
    }
  }

  lemma ShiftedMarks(was: seq<u64>, now: seq<u64>, shift: nat)
    requires |was| == WORDS && |now| == WORDS && ShiftedBy(was, now, shift)
    ensures MarksOf(now) == ShiftMarks(MarksOf(was), shift)
  {
    forall p: nat | p in MarksOf(now)
      ensures p in ShiftMarks(MarksOf(was), shift)
    {
      assert p - shift in MarksOf(was);
    }
  }

  lemma MarkedWord(was: seq<u64>, now: seq<u64>, p: nat)
    requires |was| == WORDS && |now| == WORDS && p < WINDOW_SIZE
    requires now == was[p / 64 := Or64(was[p / 64], Shl64(1, p % 64))]
    ensures MarksOf(now) == MarksOf(was) + {p}
  {
    forall q: nat | q < WINDOW_SIZE
      ensures Marked(now, q) == (q == p || Marked(was, q))
    {
      if q / 64 == p / 64 { MaskSet(was[p / 64], p % 64, q % 64); }
    }
  }

  class ReplayWindow {
    var highest: u64
    const bitmap: array<u64>

    ghost predicate Valid() {
      bitmap.Length == WORDS
    }

    ghost function View(): Window
      requires Valid()
      reads this, bitmap
    {
      Window(highest, MarksOf(bitmap[..]))
    }

    constructor ()
      ensures Valid() && fresh(bitmap) && View() == FRESH
    {
      highest := 0;
      bitmap := new u64[WORDS](_ => 0);
      new;
      NothingMarked(bitmap[..]);
    }

    static lemma NothingMarked(words: seq<u64>)
      requires |words| == WORDS && forall j | 0 <= j < WORDS :: words[j] == 0
      ensures MarksOf(words) == {}
    {
      forall p: nat | p < WINDOW_SIZE ensures !Marked(words, p) { BitOfZero(p % 64); }
    }

    method Check(counter: u64) returns (ok: bool)
      requires Valid()
      ensures ok == View().Check(counter)
    {
      if counter == U64_MAX { return false; }
      if counter > highest { return true; }
      var diff := highest - counter;
      if diff >= WINDOW_SIZE { return false; }
      var wordIdx, bitIdx := diff / 64, diff % 64;
      MaskTest(bitmap[wordIdx], bitIdx);
      ok := And(bitmap[wordIdx], Shl64(1, bitIdx)) == 0;
      assert Marked(bitmap[..], diff) == Bit(bitmap[wordIdx], bitIdx);
    }

    method Accept(counter: u64)
      requires Valid() && View().Covers(counter)
      modifies this, bitmap
      ensures View() == old(View()).Accept(counter)
    {
      if counter > highest {
        var shift := counter - highest;
        if shift >= WINDOW_SIZE {
          Clear();
        } else {
          ShiftBitmap(shift);
        }
        highest := counter;
        ghost var shifted := bitmap[..];
        bitmap[0] := Or64(bitmap[0], 1);
        assert Shl64(1, 0) == 1;
        MarkedWord(shifted, bitmap[..], 0);
      } else {
        var diff := highest - counter;
        var wordIdx, bitIdx := diff / 64, diff % 64;
        ghost var was := bitmap[..];
        bitmap[wordIdx] := Or64(bitmap[wordIdx], Shl64(1, bitIdx));
        MarkedWord(was, bitmap[..], diff);
      }
    }

    method Reset()
      requires Valid()
      modifies this, bitmap
      ensures View() == FRESH
    {
      highest := 0;
      Clear();
    }

    method Clear()
      requires Valid()
      modifies bitmap
      ensures MarksOf(bitmap[..]) == {}
    {
      for i := 0 to WORDS
        invariant forall j | 0 <= j < i :: bitmap[j] == 0
      {
        bitmap[i] := 0;
      }
      NothingMarked(bitmap[..]);
    }

    /** The in-place word move followed by the carry pass is one 2048-bit left shift. */
    method ShiftBitmap(shift: nat)
      requires Valid()
      modifies bitmap
      ensures MarksOf(bitmap[..]) == ShiftMarks(old(MarksOf(bitmap[..])), shift)
    {
      if shift >= WINDOW_SIZE {
        Clear();
        return;
      }
      var wordShift, bitShift := shift / 64, shift % 64;
      ghost var was := bitmap[..];
      MoveWords(wordShift);
      if bitShift > 0 {
        CarryBits(bitShift);
        CarryShift(was, bitmap[..], shift);
      } else {
        WordShift(was, bitmap[..], shift);
      }
      ShiftedMarks(was, bitmap[..], shift);
    }

    /** Every word moves up by `wordShift`; the words below are cleared. */
    method MoveWords(wordShift: nat)
      requires Valid() && wordShift < WORDS
      modifies bitmap
      ensures forall j | 0 <= j < WORDS :: bitmap[j] == WordAt(old(bitmap[..]), wordShift, j)
    {
      if wordShift > 0 {
        LiftWords(wordShift);
        for i := 0 to wordShift
          invariant forall j | 0 <= j < i :: bitmap[j] == 0
          invariant forall j | wordShift <= j < WORDS :: bitmap[j] == old(bitmap[..])[j - wordShift]
        {
          bitmap[i] := 0;
        }
      }
    }

    method LiftWords(wordShift: nat)
      requires Valid() && 0 < wordShift < WORDS
      modifies bitmap
      ensures forall j | wordShift <= j < WORDS :: bitmap[j] == old(bitmap[..])[j - wordShift]
    {
      ghost var was := bitmap[..];
      for i := WORDS downto wordShift
        invariant forall j | i <= j < WORDS :: bitmap[j] == was[j - wordShift]
        invariant forall j | 0 <= j < i :: bitmap[j] == was[j]
      {
        bitmap[i] := bitmap[i - wordShift];
      }
    }

    method CarryBits(bitShift: nat)
      requires Valid() && 0 < bitShift < 64
      modifies bitmap
      ensures forall j | 0 <= j < WORDS ::
        bitmap[j] == Or64(Shl64(old(bitmap[j]), bitShift),
                          Shr64(if j == 0 then 0 else old(bitmap[j - 1]), 64 - bitShift))
    {
      var carry: u64 := 0;
      ShrZero(64 - bitShift);
      for i := 0 to WORDS
        invariant carry == Shr64(if i == 0 then 0 else old(bitmap[i - 1]), 64 - bitShift)
        invariant forall j | i <= j < WORDS :: bitmap[j] == old(bitmap[j])
        invariant forall j | 0 <= j < i ::
          bitmap[j] == Or64(Shl64(old(bitmap[j]), bitShift),
                            Shr64(if j == 0 then 0 else old(bitmap[j - 1]), 64 - bitShift))
      {
        var newCarry := Shr64(bitmap[i], 64 - bitShift);
        bitmap[i] := Or64(Shl64(bitmap[i], bitShift), carry);
        carry := newCarry;
      }
    }
  }

  // ----- the window against the set of counters seen -----

  /** The window after accepting `history` in order; `None` if some accept was out of the window's reach. */
  function Run(history: seq<u64>): (w: Option<Window>) {
    if history == [] then Some(FRESH)
    else
      var before := Run(history[..|history| - 1]);
      var last := history[|history| - 1];
      if before.Some? && before.value.Covers(last) then Some(before.value.Accept(last)) else None
  }

  /** Every counter was accepted only after `check` admitted it. */
  ghost predicate Guarded(history: seq<u64>) {
    forall i | 0 <= i < |history| :: Run(history[..i]).Some? && Run(history[..i]).value.Check(history[i])
  }

  ghost predicate Tracks(w: Window, seen: seq<u64>) {
    && (forall c | c in seen :: c <= w.highest)
    && (if seen == [] then w.highest == 0 else w.highest in seen)
    && (forall o: nat :: o in w.marks <==> o < WINDOW_SIZE && o <= w.highest && w.highest - o in seen)
  }

  lemma AcceptTracks(w: Window, seen: seq<u64>, counter: u64)
    requires Tracks(w, seen) && w.Covers(counter)
    ensures Tracks(w.Accept(counter), seen + [counter])
  {
    var v := w.Accept(counter);
    var now := seen + [counter];
    forall o: nat
      ensures o in v.marks <==> o < WINDOW_SIZE && o <= v.highest && v.highest - o in now
    {
      if counter > w.highest {
        var shift := counter - w.highest;
        if shift <= o {
          assert o in ShiftMarks(w.marks, shift) <==> o - shift in w.marks && o < WINDOW_SIZE;
          assert v.highest - o == w.highest - (o - shift);
        }
      }
    }
  }

  lemma {:induction false} RunTracks(history: seq<u64>)
    requires Run(history).Some?
    ensures Tracks(Run(history).value, history)
  {
    if history != [] {
      var n := |history| - 1;
      RunTracks(history[..n]);
      AcceptTracks(Run(history[..n]).value, history[..n], history[n]);
      assert history[..n] + [history[n]] == history;
    }
  }

  /** After any run, `check` admits exactly the unseen counters in or above the window. */
  lemma CheckMeansUnseen(history: seq<u64>, counter: u64)
    requires Run(history).Some?
    ensures var w := Run(history).value;
      w.Check(counter) <==>
        counter != 0xFFFF_FFFF_FFFF_FFFF &&
        (counter > w.highest || (w.highest - counter < 2048 && counter !in history))
  {
    RunTracks(history);
    var w := Run(history).value;
    if counter <= w.highest {
      var o: nat := w.highest - counter;
      assert o in w.marks <==> o < WINDOW_SIZE && counter in history;
    }
  }

  /** Accepting a counter closes it, and opens none that was closed. */
  lemma ClosedStaysClosed(w: Window, counter: u64, other: u64)
    requires w.Check(counter)
    ensures !w.Accept(counter).Check(counter)
    ensures !w.Check(other) ==> !w.Accept(counter).Check(other)
  {
    if counter > w.highest && other <= w.highest && w.highest - other in w.marks {
      var shift := counter - w.highest;
      assert w.highest - other + shift < WINDOW_SIZE ==> w.highest - other + shift in ShiftMarks(w.marks, shift);
    }
  }

  lemma {:induction false} AdmittedIsUnseen(seen: seq<u64>, counter: u64)
    requires Run(seen).Some? && Run(seen).value.Check(counter)
    ensures counter !in seen
  {
    CheckMeansUnseen(seen, counter);
    RunTracks(seen);
  }

  /** No counter is ever accepted twice, and none is `u64::MAX`. */
  lemma NeverTwice(history: seq<u64>)
    requires Guarded(history)
    ensures forall i, j | 0 <= i < j < |history| :: history[i] != history[j]
    ensures U64_MAX !in history
  {
    forall i, j | 0 <= i < j < |history|
      ensures history[i] != history[j]
    {
      var seen := history[..j];
      assert seen[i] == history[i];
      AdmittedIsUnseen(seen, history[j]);
    }
  }
}
