/**
 Session keys (crypto/ecdh.go, network/handshake.go). The shared secret of two ephemeral keys is the
 unordered pair of them, and a derived key stands for exactly the secret and the HKDF info string it was
 derived from (section 2.3 of RFC 5869).
 */
module KeyDerivation {
  import opened Common

  type Bytes = seq<byte>

  const BAR: byte := 124
  const REKEY_TAG: Bytes := [114, 101, 107, 101, 121, 124]
  const NONCE_BYTES := 32

  /** An ephemeral key pair, named by a number; whoever has either public key knows the number. */
  type Ephemeral = nat

  datatype Key = Key(secret: set<Ephemeral>, info: Bytes)

  /** The order `sort.Strings` uses. */
  predicate Less(a: Bytes, b: Bytes) {
    if b == [] then false
    else if a == [] then true
    else a[0] < b[0] || (a[0] == b[0] && Less(a[1..], b[1..]))
  }

  predicate Blank(id: Bytes) {
    forall c :: c in id ==> c == 32 || 9 <= c <= 13
  }

  function SessionInfo(idA: Bytes, idB: Bytes, context: Bytes): Bytes {
    var (first, second) := if Less(idB, idA) then (idB, idA) else (idA, idB);
    var info := first + [BAR] + second;
    if context == [] then info else info + [BAR] + context
  }

  function DeriveSessionKeyWithContext(secret: set<Ephemeral>, idA: Bytes, idB: Bytes, context: Bytes)
    : Result<Key, string>
  {
    if secret == {} then Err("shared secret is required")
    else if Blank(idA) || Blank(idB) then Err("both device IDs are required")
    else Ok(Key(secret, SessionInfo(idA, idB, context)))
  }

  /** `strconv.FormatUint(n, 10)`. */
  function Decimal(n: nat): (s: Bytes)
    ensures s != []
  {
    if n < 10 then [(48 + n) as byte] else Decimal(n / 10) + [(48 + n % 10) as byte]
  }

  function RekeyContext(epoch: nat): Bytes {
    REKEY_TAG + Decimal(epoch)
  }

  function DeriveSessionKey(own: Ephemeral, peer: Ephemeral, local: Bytes, remote: Bytes, nonce: Bytes)
    : Result<Key, string>
  {
    if |nonce| != NONCE_BYTES then Err("invalid challenge nonce length")
    else DeriveSessionKeyWithContext({own, peer}, local, remote, nonce)
  }

  function DeriveRekeySessionKey(own: Ephemeral, peer: Ephemeral, local: Bytes, remote: Bytes, epoch: nat)
    : Result<Key, string>
  {
    DeriveSessionKeyWithContext({own, peer}, local, remote, RekeyContext(epoch))
  }

  lemma {:induction false} LessIsStrictOrder(a: Bytes, b: Bytes)
    ensures !(Less(a, b) && Less(b, a))
    ensures a == b || Less(a, b) || Less(b, a)
  {
    if a != [] && b != [] {
      LessIsStrictOrder(a[1..], b[1..]);
      if a[0] == b[0] && a[1..] == b[1..] {
        assert a == [a[0]] + a[1..] && b == [b[0]] + b[1..];
      }
    }
  }

  /** Strings are ordered by the first byte in which they differ, and a string stands before what extends it. */
  lemma {:induction false} LessExactly(a: Bytes, b: Bytes)
    ensures Less(a, b) <==> exists k ::
      0 <= k <= |a| && k < |b| && a[..k] == b[..k] && (k < |a| ==> a[k] < b[k])
  {
    forall k | 0 < k <= |a| && k < |b| && a[..k] == b[..k] ensures a[0] == b[0] {
      assert a[..k][0] == b[..k][0];
    }
    if a != [] && b != [] && a[0] == b[0] {
      LessExactly(a[1..], b[1..]);
      var s, t := a[1..], b[1..];
      if k :| 0 <= k <= |s| && k < |t| && s[..k] == t[..k] && (k < |s| ==> s[k] < t[k]) {
        assert a[..k + 1] == [a[0]] + s[..k] && b[..k + 1] == [b[0]] + t[..k];
      }
      if k :| 0 <= k <= |a| && k < |b| && a[..k] == b[..k] && (k < |a| ==> a[k] < b[k]) {
        assert a[..k][1..] == s[..k - 1] && b[..k][1..] == t[..k - 1];
      }
    } else if Less(a, b) {
      assert a[..0] == b[..0];
    }
  }

  /** The lower id stands first, then the higher one, then the context if there is one, with a bar between. */
  lemma InfoExactly(a: Bytes, b: Bytes, context: Bytes)
    requires Less(a, b)
    ensures SessionInfo(a, b, context) == SessionInfo(b, a, context) ==
      a + [124] + b + if context == [] then [] else [124] + context
  {
    LessIsStrictOrder(a, b);
  }

  /** A key can be derived exactly with two ids that are not blank, and at the handshake a nonce of 32 bytes. */
  lemma DerivesExactly(own: Ephemeral, peer: Ephemeral, local: Bytes, remote: Bytes, nonce: Bytes, epoch: nat)
    ensures var ids := (exists c :: c in local && c != 32 && !(9 <= c <= 13))
                       && (exists c :: c in remote && c != 32 && !(9 <= c <= 13));
      && (DeriveSessionKey(own, peer, local, remote, nonce).Ok? <==> ids && |nonce| == 32)
      && (DeriveRekeySessionKey(own, peer, local, remote, epoch).Ok? <==> ids)
  {
  }

  /** Both ends build the same info string, whichever of them is asked. */
  lemma SessionInfoIsSymmetric(a: Bytes, b: Bytes, context: Bytes)
    ensures SessionInfo(a, b, context) == SessionInfo(b, a, context)
  {
    LessIsStrictOrder(a, b);
  }

  lemma ContextIsSuffix(a: Bytes, b: Bytes, context: Bytes)
    ensures var info := |a| + 1 + |b|;
      if context == [] then
        |SessionInfo(a, b, context)| == info
      else
        |SessionInfo(a, b, context)| == info + 1 + |context| && SessionInfo(a, b, context)[info + 1..] == context
  {
  }

  /** For one pair of ids, different contexts give different info strings. */
  lemma SessionInfoSeparatesContexts(a: Bytes, b: Bytes, c: Bytes, d: Bytes)
    ensures SessionInfo(a, b, c) == SessionInfo(a, b, d) <==> c == d
  {
    ContextIsSuffix(a, b, c);
    ContextIsSuffix(a, b, d);
  }

  lemma {:induction false} DecimalIsInjective(m: nat, n: nat)
    requires Decimal(m) == Decimal(n)
    ensures m == n
  {
    var s, t := Decimal(m), Decimal(n);
    assert s[|s| - 1] == (48 + m % 10) as byte && t[|t| - 1] == (48 + n % 10) as byte;
    if m >= 10 && n >= 10 {
      assert s[..|s| - 1] == Decimal(m / 10) && t[..|t| - 1] == Decimal(n / 10);
      DecimalIsInjective(m / 10, n / 10);
    }
  }

  /** The number that a string of decimal digits stands for. */
  function Value(digits: Bytes): int {
    if digits == [] then 0 else 10 * Value(digits[..|digits| - 1]) + digits[|digits| - 1] as int - 48
  }

  /** The digits of a number stand for it, and no zero leads them but that of the number 0. */
  lemma {:induction false} DecimalReadsBack(n: nat)
    ensures Value(Decimal(n)) == n && (Decimal(n)[0] == 48 <==> n == 0)
    ensures forall c :: c in Decimal(n) ==> 48 <= c <= 57
  {
    var s := Decimal(n);
    if n >= 10 {
      DecimalReadsBack(n / 10);
      assert s[..|s| - 1] == Decimal(n / 10);
    } else {
      assert s[..0] == [];
    }
  }

  function Pow10(k: nat): nat {
    if k == 0 then 1 else 10 * Pow10(k - 1)
  }

  lemma {:induction false} DecimalLength(n: nat, k: nat)
    requires k > 0 && n < Pow10(k)
    ensures |Decimal(n)| <= k
  {
    if n >= 10 {
      assert Pow10(1) == 10 * Pow10(0);
      DecimalLength(n / 10, k - 1);
    }
  }

  lemma Uint64Digits(n: nat)
    requires n < 0x1_0000_0000_0000_0000
    ensures |Decimal(n)| <= 20
  {
    assert Pow10(5) == 100_000 by { assert Pow10(3) == 1000; }
    assert Pow10(10) == 10_000_000_000 by { assert Pow10(8) == 100_000_000 by { assert Pow10(6) == 1_000_000; } }
    assert Pow10(15) == 1_000_000_000_000_000 by {
      assert Pow10(13) == 10_000_000_000_000 by { assert Pow10(11) == 100_000_000_000; }
    }
    assert Pow10(20) == 100_000_000_000_000_000_000 by {
      assert Pow10(18) == 1_000_000_000_000_000_000 by { assert Pow10(16) == 10_000_000_000_000_000; }
    }
    DecimalLength(n, 20);
  }

  /**
   Between two devices no two contexts ever meet: not the handshake's 32-byte nonce and a rekey epoch,
   and not two epochs.
   */
  lemma RekeyContextsAreSeparate(a: Bytes, b: Bytes, nonce: Bytes, m: nat, n: nat)
    requires |nonce| == NONCE_BYTES && m < 0x1_0000_0000_0000_0000 && n < 0x1_0000_0000_0000_0000
    ensures SessionInfo(a, b, nonce) != SessionInfo(a, b, RekeyContext(m))
    ensures SessionInfo(a, b, RekeyContext(m)) == SessionInfo(a, b, RekeyContext(n)) <==> m == n
  {
    Uint64Digits(m);
    SessionInfoSeparatesContexts(a, b, nonce, RekeyContext(m));
    SessionInfoSeparatesContexts(a, b, RekeyContext(m), RekeyContext(n));
    if RekeyContext(m) == RekeyContext(n) {
      assert RekeyContext(m)[|REKEY_TAG|..] == Decimal(m) && RekeyContext(n)[|REKEY_TAG|..] == Decimal(n);
      DecimalIsInjective(m, n);
    }
  }

  /**
   Each side derives from its own private key and the other's public key, and both get the same key or the same
   error.
   */
  lemma BothEndsDeriveTheSame(x: Ephemeral, y: Ephemeral, a: Bytes, b: Bytes, nonce: Bytes, epoch: nat)
    ensures DeriveSessionKey(x, y, a, b, nonce) == DeriveSessionKey(y, x, b, a, nonce)
    ensures DeriveRekeySessionKey(x, y, a, b, epoch) == DeriveRekeySessionKey(y, x, b, a, epoch)
  {
    assert {x, y} == {y, x};
    SessionInfoIsSymmetric(a, b, nonce);
    SessionInfoIsSymmetric(a, b, RekeyContext(epoch));
  }

  /** Keys of different epochs, and of the handshake, differ whatever the ephemeral keys were. */
  lemma KeysOfEpochsDiffer(x: Ephemeral, y: Ephemeral, u: Ephemeral, v: Ephemeral, a: Bytes, b: Bytes, nonce: Bytes,
                           m: nat, n: nat)
    requires |nonce| == NONCE_BYTES && m != n
    requires m < 0x1_0000_0000_0000_0000 && n < 0x1_0000_0000_0000_0000 && !Blank(a) && !Blank(b)
    ensures DeriveRekeySessionKey(x, y, a, b, m) != DeriveRekeySessionKey(u, v, a, b, n)
    ensures DeriveSessionKey(x, y, a, b, nonce) != DeriveRekeySessionKey(u, v, a, b, n)
  {
    RekeyContextsAreSeparate(a, b, nonce, m, n);
    RekeyContextsAreSeparate(a, b, nonce, n, m);
  }
}
