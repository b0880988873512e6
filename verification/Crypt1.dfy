/**
  The crypt1 envelope of encrypted subscription links: IV, AES-CBC ciphertext with PKCS 7
  padding, and a MAC over both (cli/internal/crypt1; section 6.2 of NIST SP 800-38A,
  section 6.3 of RFC 5652).  The block cipher, the hash and the MAC are parameters.
 */
module Crypt1 {
  import opened Wrappers
  import opened Bytes
  import opened Bits

  type Block = b: seq<Byte> | |b| == 16 witness seq(16, _ => 0)

  datatype Primitives = Primitives(
    hash: seq<Byte> -> seq<Byte>,
    mac: (seq<Byte>, seq<Byte>) -> seq<Byte>,
    enc: (seq<Byte>, Block) -> Block,
    dec: (seq<Byte>, Block) -> Block)

  /** For every key the cipher is a permutation of the blocks, and tags have 32 bytes. */
  ghost predicate Standard(p: Primitives) {
    && (forall key, b :: p.dec(key, p.enc(key, b)) == b)
    && (forall key, b :: p.enc(key, p.dec(key, b)) == b)
    && (forall key, m :: |p.mac(key, m)| == 32)
  }

  // ---------------------------------------------------------------------
  // Exclusive or

  function XorBit(a: nat, b: nat): (r: nat)
    ensures r <= 1
  {
    if a % 2 == b % 2 then 0 else 1
  }

  function XorBits(a: nat, b: nat, bits: nat): (r: nat) {
    if bits == 0 then 0 else 2 * XorBits(a / 2, b / 2, bits - 1) + XorBit(a, b)
  }

  lemma {:induction false} XorBitsBack(a: nat, b: nat, bits: nat)
    requires a < Pow2(bits)
    ensures XorBits(a, b, bits) < Pow2(bits)
    ensures XorBits(XorBits(a, b, bits), b, bits) == a
  {
    if bits > 0 {
      var high, low := XorBits(a / 2, b / 2, bits - 1), XorBit(a, b);
      XorBitsBack(a / 2, b / 2, bits - 1);
      Halves(high, low);
      assert XorBit(2 * high + low, b) == a % 2;
    }
  }

  lemma Halves(high: nat, low: nat)
    requires low <= 1
    ensures (2 * high + low) / 2 == high && (2 * high + low) % 2 == low
  {
  }

  /** Bit by bit the two differ. */
  lemma {:induction false} XorBitsAt(a: nat, b: nat, bits: nat, i: nat)
    requires i < bits
    ensures Bit(XorBits(a, b, bits), i) <==> Bit(a, i) != Bit(b, i)
    decreases bits
  {
    Halves(XorBits(a / 2, b / 2, bits - 1), XorBit(a, b));
    if i > 0 {
      XorBitsAt(a / 2, b / 2, bits - 1, i - 1);
    }
  }

  lemma XorAt(a: Byte, b: Byte, i: nat)
    requires i < 8
    ensures Bit(Xor(a, b) as int, i) <==> Bit(a as int, i) != Bit(b as int, i)
  {
    XorBitsAt(a as int, b as int, 8, i);
  }

  function Xor(a: Byte, b: Byte): (r: Byte) {
    XorBitsBack(a as int, b as int, 8);
    assert Pow2(8) == 256;
    XorBits(a as int, b as int, 8) as Byte
  }

  lemma XorBack(a: Byte, b: Byte)
    ensures Xor(Xor(a, b), b) == a
  {
    XorBitsBack(a as int, b as int, 8);
  }

  function XorBlock(a: Block, b: Block): (r: Block) {
    seq(16, i requires 0 <= i < 16 => Xor(a[i], b[i]))
  }

  lemma XorBlockBack(a: Block, b: Block)
    ensures XorBlock(XorBlock(a, b), b) == a
  {
    forall i | 0 <= i < 16 ensures XorBlock(XorBlock(a, b), b)[i] == a[i] {
      XorBack(a[i], b[i]);
    }
  }

  // ---------------------------------------------------------------------
  // Block chaining

  function CbcEncrypt(p: Primitives, key: seq<Byte>, iv: Block, plain: seq<Byte>): (ct: seq<Byte>)
    requires |plain| % 16 == 0
    ensures |ct| == |plain|
    decreases |plain|
  {
    if plain == [] then []
    else
      var c := p.enc(key, XorBlock(plain[..16], iv));
      c + CbcEncrypt(p, key, c, plain[16..])
  }

  function CbcDecrypt(p: Primitives, key: seq<Byte>, iv: Block, ct: seq<Byte>): (plain: seq<Byte>)
    requires |ct| % 16 == 0
    ensures |plain| == |ct|
    decreases |ct|
  {
    if ct == [] then []
    else XorBlock(p.dec(key, ct[..16]), iv) + CbcDecrypt(p, key, ct[..16], ct[16..])
  }

  lemma {:induction false} DecryptEncrypt(p: Primitives, key: seq<Byte>, iv: Block, plain: seq<Byte>)
    requires Standard(p) && |plain| % 16 == 0
    ensures CbcDecrypt(p, key, iv, CbcEncrypt(p, key, iv, plain)) == plain
    decreases |plain|
  {
    if plain != [] {
      var c := p.enc(key, XorBlock(plain[..16], iv));
      var ct := CbcEncrypt(p, key, iv, plain);
      assert ct[..16] == c && ct[16..] == CbcEncrypt(p, key, c, plain[16..]);
      DecryptEncrypt(p, key, c, plain[16..]);
      XorBlockBack(plain[..16], iv);
      assert plain == plain[..16] + plain[16..];
    }
  }

  lemma {:induction false} EncryptDecrypt(p: Primitives, key: seq<Byte>, iv: Block, ct: seq<Byte>)
    requires Standard(p) && |ct| % 16 == 0
    ensures CbcEncrypt(p, key, iv, CbcDecrypt(p, key, iv, ct)) == ct
    decreases |ct|
  {
    if ct != [] {
      var first := p.dec(key, ct[..16]);
      var plain := CbcDecrypt(p, key, iv, ct);
      assert plain[..16] == XorBlock(first, iv) && plain[16..] == CbcDecrypt(p, key, ct[..16], ct[16..]);
      EncryptDecrypt(p, key, ct[..16], ct[16..]);
      XorBlockBack(first, iv);
      assert ct == ct[..16] + ct[16..];
    }
  }

  /** The i-th block of sixteen bytes. */
  function BlockAt(s: seq<Byte>, i: nat): (b: Block)
    requires 16 * i + 16 <= |s|
  {
    s[16 * i..16 * i + 16]
  }

  /** The chaining itself: each ciphertext block is the cipher of its plaintext block and the
      ciphertext block before it, the first of the IV. */
  lemma {:induction false} CbcBlocks(p: Primitives, key: seq<Byte>, iv: Block, plain: seq<Byte>, i: nat)
    requires |plain| % 16 == 0 && 16 * i + 16 <= |plain|
    ensures var ct := CbcEncrypt(p, key, iv, plain);
            BlockAt(ct, i) == p.enc(key, XorBlock(BlockAt(plain, i), if i == 0 then iv else BlockAt(ct, i - 1)))
    decreases i
  {
    var c := p.enc(key, XorBlock(plain[..16], iv));
    var rest := CbcEncrypt(p, key, c, plain[16..]);
    var ct := CbcEncrypt(p, key, iv, plain);
    assert ct == c + rest;
    if i == 0 {
      assert BlockAt(ct, 0) == c && BlockAt(plain, 0) == plain[..16];
    } else {
      CbcBlocks(p, key, c, plain[16..], i - 1);
      assert BlockAt(plain, i) == BlockAt(plain[16..], i - 1);
      assert BlockAt(ct, i) == BlockAt(rest, i - 1);
      if i == 1 {
        assert BlockAt(ct, 0) == c;
      } else {
        assert BlockAt(ct, i - 1) == BlockAt(rest, i - 2);
      }
    }
  }

  // ---------------------------------------------------------------------
  // Padding

  function PadLength(n: nat): (pad: nat)
    ensures 1 <= pad <= 16 && (n + pad) % 16 == 0
  {
    16 - n % 16
  }

  ghost function Padded(plain: seq<Byte>): (r: seq<Byte>)
    ensures |r| % 16 == 0 && |r| >= 16 && plain <= r
  {
    var pad := PadLength(|plain|);
    plain + seq(pad, _ => pad as Byte)
  }

  method Pad(plain: seq<Byte>) returns (r: seq<Byte>)
    ensures r == Padded(plain)
  {
    var pad := PadLength(|plain|);
    r := plain;
    for i := 0 to pad
      invariant r == plain + seq(i, _ => pad as Byte)
    {
      r := r + [pad as Byte];
    }
  }

  /** What follows the plaintext is n bytes of value n, n from 1 to 16. */
  ghost predicate EndsInPad(b: seq<Byte>, plain: seq<Byte>) {
    plain <= b && 1 <= |b| - |plain| <= 16 && forall i :: |plain| <= i < |b| ==> b[i] as int == |b| - |plain|
  }

  lemma PaddedIs(plain: seq<Byte>, b: seq<Byte>)
    requires |b| % 16 == 0
    ensures b == Padded(plain) <==> EndsInPad(b, plain)
  {
    if EndsInPad(b, plain) {
      var n := |b| - |plain|;
      assert n == PadLength(|plain|);
      assert b == plain + b[|plain|..];
      assert b[|plain|..] == seq(n, _ => n as Byte);
    }
  }

  method Unpad(b: seq<Byte>) returns (r: Option<seq<Byte>>)
    ensures r.Some? ==> EndsInPad(b, r.value)
    ensures r.None? ==> forall plain :: !EndsInPad(b, plain)
  {
    if |b| == 0 {
      return None;
    }
    var n := b[|b| - 1] as int;
    if n == 0 || n > 16 || n > |b| {
      return None;
    }
    var i := |b| - n;
    while i < |b|
      invariant |b| - n <= i <= |b|
      invariant forall j :: |b| - n <= j < i ==> b[j] as int == n
    {
      if b[i] as int != n {
        return None;
      }
      i := i + 1;
    }
    r := Some(b[..|b| - n]);
  }

  lemma PaddedInjective(a: seq<Byte>, b: seq<Byte>)
    requires Padded(a) == Padded(b)
    ensures a == b
  {
    var r := Padded(a);
    assert r[|r| - 1] as int == |r| - |a|;
    assert r[|r| - 1] as int == |r| - |b|;
    assert a == r[..|a|] && b == r[..|b|];
  }

  // ---------------------------------------------------------------------
  // The envelope

  function Ascii(s: string): (b: seq<Byte>) {
    seq(|s|, i requires 0 <= i < |s| => (s[i] as int % 256) as Byte)
  }

  function EncKey(p: Primitives, master: seq<Byte>): (key: seq<Byte>) {
    p.hash(Ascii("olcrtc-crypt-v1-enc") + master)
  }

  function MacKey(p: Primitives, master: seq<Byte>): (key: seq<Byte>) {
    p.hash(Ascii("olcrtc-crypt-v1-mac") + master)
  }

  /** The two keys are hashes of the master key behind the labels "olcrtc-crypt-v1-enc" and
      "olcrtc-crypt-v1-mac", which differ in their last three bytes. */
  lemma KeysAre(p: Primitives, master: seq<Byte>)
    ensures var prefix := [111, 108, 99, 114, 116, 99, 45, 99, 114, 121, 112, 116, 45, 118, 49, 45];
            && EncKey(p, master) == p.hash(prefix + [101, 110, 99] + master)
            && MacKey(p, master) == p.hash(prefix + [109, 97, 99] + master)
  {
    var prefix: seq<Byte> := [111, 108, 99, 114, 116, 99, 45, 99, 114, 121, 112, 116, 45, 118, 49, 45];
    assert Ascii("olcrtc-crypt-v1-enc") == prefix + [101, 110, 99];
    assert Ascii("olcrtc-crypt-v1-mac") == prefix + [109, 97, 99];
  }

  ghost function Ciphertext(p: Primitives, master: seq<Byte>, iv: Block, plain: seq<Byte>): (ct: seq<Byte>)
    ensures |ct| == |Padded(plain)|
  {
    CbcEncrypt(p, EncKey(p, master), iv, Padded(plain))
  }

  /** The raw blob of a plaintext under an IV. */
  ghost function Sealed(p: Primitives, master: seq<Byte>, iv: Block, plain: seq<Byte>): (raw: seq<Byte>) {
    var ct := Ciphertext(p, master, iv, plain);
    iv + ct + p.mac(MacKey(p, master), iv + ct)
  }

  method Encrypt(p: Primitives, master: seq<Byte>, iv: Block, plain: seq<Byte>) returns (raw: seq<Byte>)
    requires Standard(p)
    ensures raw == Sealed(p, master, iv, plain)
  {
    var padded := Pad(plain);
    var ct := CbcEncrypt(p, EncKey(p, master), iv, padded);
    raw := iv + ct + p.mac(MacKey(p, master), iv + ct);
  }

  /** Accepts exactly the blobs encryption makes, and gives back what was encrypted. */
  method Decrypt(p: Primitives, master: seq<Byte>, raw: seq<Byte>) returns (r: Option<seq<Byte>>)
    requires Standard(p)
    ensures r.Some? ==> |raw| >= 64 && raw == Sealed(p, master, raw[..16], r.value)
    ensures r.None? ==> forall iv: Block, plain :: raw != Sealed(p, master, iv, plain)
  {
    forall iv: Block, plain | raw == Sealed(p, master, iv, plain) ensures SealedParts(p, master, raw, iv, plain) {
      PartsOfSealed(p, master, raw, iv, plain);
    }
    if |raw| < 64 {
      return None;
    }
    var iv, ct, tag := raw[..16], raw[16..|raw| - 32], raw[|raw| - 32..];
    if |ct| % 16 != 0 {
      return None;
    }
    if p.mac(MacKey(p, master), iv + ct) != tag {
      return None;
    }
    var plain := CbcDecrypt(p, EncKey(p, master), iv, ct);
    r := Unpad(plain);
    EncryptDecrypt(p, EncKey(p, master), iv, ct);
    if r.Some? {
      PaddedIs(r.value, plain);
      assert raw == iv + ct + tag;
    } else {
      forall other ensures plain != Padded(other) {
        PaddedIs(other, plain);
      }
    }
  }

  /** The parts Decrypt takes a sealed blob into. */
  ghost predicate SealedParts(p: Primitives, master: seq<Byte>, raw: seq<Byte>, iv: Block, plain: seq<Byte>) {
    && |raw| >= 64 && (|raw| - 48) % 16 == 0
    && raw[..16] == iv && raw[16..|raw| - 32] == Ciphertext(p, master, iv, plain)
    && raw[|raw| - 32..] == p.mac(MacKey(p, master), iv + raw[16..|raw| - 32])
    && CbcDecrypt(p, EncKey(p, master), iv, raw[16..|raw| - 32]) == Padded(plain)
  }

  lemma PartsOfSealed(p: Primitives, master: seq<Byte>, raw: seq<Byte>, iv: Block, plain: seq<Byte>)
    requires Standard(p) && raw == Sealed(p, master, iv, plain)
    ensures SealedParts(p, master, raw, iv, plain)
  {
    var ct := Ciphertext(p, master, iv, plain);
    var tag := p.mac(MacKey(p, master), iv + ct);
    assert |tag| == 32;
    assert raw[16..|raw| - 32] == ct;
    assert raw[|raw| - 32..] == tag;
    DecryptEncrypt(p, EncKey(p, master), iv, Padded(plain));
  }

  /** A blob is the encryption of one plaintext under one IV at most. */
  lemma SealedInjective(p: Primitives, master: seq<Byte>, iv: Block, plain: seq<Byte>, iv': Block, plain': seq<Byte>)
    requires Standard(p) && Sealed(p, master, iv, plain) == Sealed(p, master, iv', plain')
    ensures iv == iv' && plain == plain'
  {
    var raw := Sealed(p, master, iv, plain);
    PartsOfSealed(p, master, raw, iv, plain);
    PartsOfSealed(p, master, raw, iv', plain');
    PaddedInjective(plain, plain');
  }

  /** Decrypting an encryption gives the plaintext back. */
  method RoundTrip(p: Primitives, master: seq<Byte>, iv: Block, plain: seq<Byte>) returns (back: Option<seq<Byte>>)
    requires Standard(p)
    ensures back == Some(plain)
  {
    var raw := Encrypt(p, master, iv, plain);
    back := Decrypt(p, master, raw);
    SealedInjective(p, master, iv, plain, raw[..16], back.value);
  }
}
