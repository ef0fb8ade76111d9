/** Symbolic cryptography.  Hashing, key derivation and authenticated encryption
    are free constructors; Diffie-Hellman is commutative.  A ciphertext on the
    wire is a run of octets, each of which belongs to exactly one encryption. */
module Crypto {
  import opened Basics

  /** A byte whose value is known, or byte `i` of the ciphertext `ct`. */
  datatype Octet = Lit(v: byte) | Ct(ct: Term, i: nat)

  /** The public half of an identity.  Two Ed25519 keys of opposite sign map to the
      same X25519 key, so `sk` names the key pair and `sign` the Ed25519 point. */
  datatype PublicIdentity = PublicIdentity(sk: nat, sign: bool) {
    function NoiseStatic(): Term { Pub(sk) }
  }

  datatype Term =
    | ProtocolName                          // "Noise_XX_25519_ChaChaPoly_SHA256", exactly 32 bytes
    | Data(bytes: seq<Octet>)
    | Pub(sk: nat)                          // X25519 public key of the secret sk
    | LowOrder                              // a low order point
    | Ed(id: PublicIdentity)                // Ed25519 public key bytes
    | Cat(head: Term, tail: Term)           // concatenation at a fixed offset
    | Shared(a: nat, b: nat)                // DH of two key pairs, a <= b
    | SharedRaw(sk: nat, point: Term)       // DH with bytes that are nobody's public key
    | Hash(left: Term, right: Term)
    | Kdf(ck: Term, ikm: Term, i: nat)      // output i of HKDF(ck, ikm)
    | Aead(k: Term, n: nat, ad: Term, pt: Term)

  const EMPTY := Data([])

  function Lits(s: seq<byte>): (r: seq<Octet>)
    ensures |r| == |s| && forall i :: 0 <= i < |s| ==> r[i] == Lit(s[i])
  {
    seq(|s|, i requires 0 <= i < |s| => Lit(s[i]))
  }

  lemma LitsInjective(a: seq<byte>, b: seq<byte>)
    requires Lits(a) == Lits(b)
    ensures a == b
  {
    forall i | 0 <= i < |a| ensures a[i] == b[i] {
      assert Lits(a)[i] == Lits(b)[i];
    }
  }

  /** X25519, rejecting low order points. */
  function Dh(secret: nat, public: Term): Result<Term> {
    match public
    case LowOrder => Err(AuthFailed)
    case Pub(b) => Ok(if secret <= b then Shared(secret, b) else Shared(b, secret))
    case _ => Ok(SharedRaw(secret, public))
  }

  function EncryptN(k: Term, n: nat, ad: Term, pt: Term): Term {
    Aead(k, n, ad, pt)
  }

  /** Decryption succeeds only on the matching encryption. */
  function DecryptN(k: Term, n: nat, ad: Term, ct: Term): (r: Result<Term>)
    ensures forall pt :: r == Ok(pt) <==> ct == EncryptN(k, n, ad, pt)
  {
    if ct.Aead? && ct.k == k && ct.n == n && ct.ad == ad then Ok(ct.pt) else Err(AuthFailed)
  }

  /** The Noise HKDF with two outputs. */
  function Hkdf2(ck: Term, ikm: Term): (Term, Term) {
    (Kdf(ck, ikm, 1), Kdf(ck, ikm, 2))
  }
}
