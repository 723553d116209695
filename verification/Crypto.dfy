/** The cryptographic primitives, as parameters of the model.

    A `Suite` is any choice of hash, key derivation, Diffie-Hellman and AEAD functions; `Lawful`
    lists the only facts about them that the proofs use. Public keys are compressed points: a
    parity byte followed by the 32-byte x coordinate. */
module Crypto {
  import opened Results
  import opened Words

  type Bytes = seq<byte>
  type Epoch = b: Bytes | |b| == EPOCH_SIZE witness [0, 0, 0, 0, 0, 0, 0, 0]

  const PUBKEY_SIZE := 33
  const EPOCH_SIZE := 8
  const TAG_SIZE := 16
  const MAX_MESSAGE_SIZE := 65535

  datatype Suite = Suite(
    hash: Bytes -> Bytes,
    kdf: (Bytes, Bytes) -> (Bytes, Bytes),
    pub: Bytes -> Bytes,
    valid: Bytes -> bool,
    dh: (Bytes, Bytes) -> Bytes,
    seal: (Bytes, u64, Bytes, Bytes) -> Bytes,
    open: (Bytes, u64, Bytes, Bytes) -> Option<Bytes>)

  /** The x coordinate of a compressed public key. */
  function XOnly(p: Bytes): Bytes {
    if p == [] then [] else p[1..]
  }

  ghost predicate Lawful(c: Suite) {
    && (forall s :: c.valid(c.pub(s)))
    && (forall p :: c.valid(p) ==> |p| == PUBKEY_SIZE)
    && (forall a, b :: c.dh(a, c.pub(b)) == c.dh(b, c.pub(a)))
    && (forall a, p, q :: c.valid(p) && c.valid(q) && XOnly(p) == XOnly(q) ==> c.dh(a, p) == c.dh(a, q))
    && (forall k, n, ad, p :: |c.seal(k, n, ad, p)| == |p| + TAG_SIZE)
    && (forall k, n, ad, p :: c.open(k, n, ad, c.seal(k, n, ad, p)) == Some(p))
    && OpensToSize(c)
  }

  /** Opening takes off the tag and nothing else. */
  ghost predicate OpensToSize(c: Suite) {
    forall k, n, ad, t :: c.open(k, n, ad, t).Some? ==> |t| == |c.open(k, n, ad, t).value| + TAG_SIZE
  }

  /** The laws are consistent: a (useless) suite obeys them. */
  lemma LawfulSuiteExists() returns (c: Suite)
    ensures Lawful(c)
  {
    var key: Bytes := seq(PUBKEY_SIZE, _ => 0);
    var tag: Bytes := seq(TAG_SIZE, _ => 0);
    c := Suite(
      _ => [], (_, _) => ([], []), _ => key, p => |p| == PUBKEY_SIZE, (_, _) => [],
      (_, _, _, p) => p + tag,
      (_, _, _, t) => if |t| >= TAG_SIZE then Some(t[..|t| - TAG_SIZE]) else None);
    forall k: Bytes, n: u64, ad: Bytes, p: Bytes
      ensures c.open(k, n, ad, c.seal(k, n, ad, p)) == Some(p)
    {
      assert (p + tag)[..|p|] == p;
    }
  }
}
