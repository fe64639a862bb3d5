/** The order keys sort in, and the layer a key's hash puts it on. */
module Keys {
  import opened Data

  /** Byte-wise order, as Rust compares strings. */
  predicate Lt(a: Key, b: Key) {
    && b != []
    && (a == [] || a[0] < b[0] || (a[0] == b[0] && Lt(a[1..], b[1..])))
  }

  /** A key is below another where the first byte they differ in is, and where
      it is the other cut short. */
  lemma {:induction false} FirstDifference(a: Key, b: Key, n: nat)
    requires n <= |a| && n <= |b| && a[..n] == b[..n] && (n < |a| && n < |b| ==> a[n] != b[n])
    ensures Lt(a, b) <==> n < |b| && (n < |a| ==> a[n] < b[n])
  {
    if n > 0 {
      assert a[0] == a[..n][0] == b[..n][0] == b[0];
      assert a[1..][..n - 1] == a[..n][1..] && b[1..][..n - 1] == b[..n][1..];
      FirstDifference(a[1..], b[1..], n - 1);
    }
  }

  lemma {:induction false} LtIrreflexive(a: Key)
    ensures !Lt(a, a)
  {
    if a != [] { LtIrreflexive(a[1..]); }
  }

  lemma {:induction false} LtTransitive(a: Key, b: Key, c: Key)
    requires Lt(a, b) && Lt(b, c)
    ensures Lt(a, c)
  {
    if a != [] && a[0] == b[0] == c[0] { LtTransitive(a[1..], b[1..], c[1..]); }
  }

  lemma {:induction false} LtTotal(a: Key, b: Key)
    ensures Lt(a, b) || a == b || Lt(b, a)
  {
    if a != [] && b != [] && a[0] == b[0] {
      LtTotal(a[1..], b[1..]);
      assert a == [a[0]] + a[1..] && b == [b[0]] + b[1..];
    }
  }

  lemma LtAsymmetric(a: Key, b: Key)
    requires Lt(a, b)
    ensures !Lt(b, a) && a != b
  {
    LtIrreflexive(a);
    if Lt(b, a) { LtTransitive(a, b, a); }
  }

  type Digest = d: seq<byte> | |d| == 32 witness seq(32, _ => 0)

  /** SHA-256, left arbitrary: nothing below depends on which function it is. */
  const Sha256: seq<byte> -> Digest

  /** The zero bits a byte opens with. */
  function LeadingZeroBits(b: byte): (n: nat)
    ensures n <= 8 && (n == 8 <==> b == 0)
  {
    if b >= 128 then 0 else if b >= 64 then 1 else if b >= 32 then 2
    else if b >= 16 then 3 else if b >= 8 then 4 else if b >= 4 then 5
    else if b >= 2 then 6 else if b >= 1 then 7 else 8
  }

  /** The zero bits a digest opens with. */
  function ZeroBits(d: seq<byte>): (n: nat)
    ensures n <= 8 * |d|
  {
    if d == [] then 0
    else if d[0] != 0 then LeadingZeroBits(d[0])
    else 8 + ZeroBits(d[1..])
  }

  function Pow2(n: nat): (p: nat)
    ensures p > 0
  {
    if n == 0 then 1 else 2 * Pow2(n - 1)
  }

  /** One bit of some bytes, the highest of the first byte first. */
  function Bit(d: seq<byte>, i: nat): nat
    requires i < 8 * |d|
  {
    d[i / 8] as nat / Pow2(7 - i % 8) % 2
  }

  /** Bits from the first on that are all 0, as many as there are: the next one,
      if any is left, is 1. */
  lemma ByteOpensWith(b: byte, j: nat)
    requires j < 8
    ensures j < LeadingZeroBits(b) ==> b as nat / Pow2(7 - j) % 2 == 0
    ensures j == LeadingZeroBits(b) ==> b as nat / Pow2(7 - j) % 2 == 1
  {
    assert Pow2(2) == 4 && Pow2(3) == 8 && Pow2(4) == 16 && Pow2(5) == 32 && Pow2(6) == 64 && Pow2(7) == 128;
  }

  lemma {:induction false} OpensWith(d: seq<byte>, i: nat)
    requires i < 8 * |d|
    ensures i < ZeroBits(d) ==> Bit(d, i) == 0
    ensures i == ZeroBits(d) ==> Bit(d, i) == 1
  {
    hide LeadingZeroBits, Pow2;
    if i < 8 {
      ByteOpensWith(d[0], i);
    } else if d[0] == 0 {
      OpensWith(d[1..], i - 8);
      assert i / 8 == (i - 8) / 8 + 1 && i % 8 == (i - 8) % 8;
    }
  }

  /** Pairs of bits that are 0, as many as a digest opens with. */
  ghost predicate OpensWithPairs(d: Digest, zeros: nat) {
    && zeros <= 128
    && (forall i :: 0 <= i < 2 * zeros ==> Bit(d, i) == 0)
    && (zeros < 128 ==> Bit(d, 2 * zeros) == 1 || Bit(d, 2 * zeros + 1) == 1)
  }

  const MAX_LAYER := 128

  /** The layer of a key: half the zero bits its digest opens with, rounded
      down. */
  function LayerOf(key: Key): (n: nat)
    ensures n <= MAX_LAYER
  {
    ZeroBits(Sha256(key)) / 2
  }

  lemma LayerIsPairs(key: Key)
    ensures OpensWithPairs(Sha256(key), LayerOf(key))
  {
    hide ZeroBits, Bit;
    var d, n := Sha256(key), ZeroBits(Sha256(key));
    forall i | 0 <= i < 2 * LayerOf(key) ensures Bit(d, i) == 0 { OpensWith(d, i); }
    if n < 8 * |d| { OpensWith(d, n); }
  }

  /** The loop that counts them byte by byte, although it halves each byte on
      its own, counts the pairs of zero bits the digest opens with. */
  method LeadingZeros(key: Key) returns (zeros: nat)
    ensures zeros == LayerOf(key)
    ensures zeros <= 128 && forall i :: 0 <= i < 2 * zeros ==> Bit(Sha256(key), i) == 0
    ensures zeros < 128 ==> Bit(Sha256(key), 2 * zeros) == 1 || Bit(Sha256(key), 2 * zeros + 1) == 1
  {
    LayerIsPairs(key);
    hide Bit;
    var digest := Sha256(key);
    zeros := 0;
    var i := 0;
    while i < |digest|
      invariant 0 <= i <= |digest|
      invariant zeros == 4 * i
      invariant ZeroBits(digest) == 8 * i + ZeroBits(digest[i..])
    {
      zeros := zeros + LeadingZeroBits(digest[i]) / 2;
      if digest[i] != 0 { break; }
      assert digest[i..][1..] == digest[i + 1..];
      i := i + 1;
    }
  }

  // ---- Which keys a tree takes ----

  const SLASH: byte := 47
  const MAX_KEY_LEN := 1024

  predicate IsKeyByte(b: byte) {
    || 48 <= b <= 57 || 65 <= b <= 90 || 97 <= b <= 122
    || b in {95, 126, 45, 58, 46}
  }

  function Slashes(key: Key): nat {
    if key == [] then 0 else (if key[0] == SLASH then 1 else 0) + Slashes(key[1..])
  }

  /** Where a record key of a collection lands in a tree. */
  function KeyOf(collection: Key, rkey: Key): Key {
    collection + [SLASH] + rkey
  }

  /** Two non-empty parts either side of a single slash, in the allowed bytes,
      at no more than `MAX_KEY_LEN`. */
  predicate ValidKey(key: Key) {
    && 0 < |key| <= MAX_KEY_LEN
    && Slashes(key) == 1 && key[0] != SLASH && key[|key| - 1] != SLASH
    && (forall i :: 0 <= i < |key| ==> key[i] == SLASH || IsKeyByte(key[i]))
  }

  /** The characters either part may be of. */
  lemma KeyBytes(b: byte)
    ensures var c := b as int as char;
            IsKeyByte(b) <==>
              || '0' <= c <= '9' || 'A' <= c <= 'Z' || 'a' <= c <= 'z'
              || c in {'_', '~', '-', ':', '.'}
  {
    assert '0' as int == 48 && '9' as int == 57 && 'A' as int == 65 && 'Z' as int == 90;
    assert 'a' as int == 97 && 'z' as int == 122;
    assert '_' as int == 95 && '~' as int == 126 && '-' as int == 45 && ':' as int == 58 && '.' as int == 46;
  }

  lemma {:induction false} NoSlash(part: Key)
    ensures Slashes(part) == 0 <==> SLASH !in part
  {
    if part != [] { NoSlash(part[1..]); }
  }

  lemma {:induction false} SlashesAdd(a: Key, b: Key)
    ensures Slashes(a + b) == Slashes(a) + Slashes(b)
  {
    if a == [] {
      assert a + b == b;
    } else {
      assert (a + b)[1..] == a[1..] + b;
      SlashesAdd(a[1..], b);
    }
  }

  lemma {:induction false} SlashAt(key: Key) returns (i: nat)
    requires Slashes(key) > 0
    ensures i < |key| && key[i] == SLASH
  {
    if key[0] == SLASH { i := 0; } else {
      i := SlashAt(key[1..]);
      i := i + 1;
    }
  }

  /** A part a key is made of. */
  ghost predicate KeyPart(part: Key) {
    part != [] && forall i :: 0 <= i < |part| ==> IsKeyByte(part[i])
  }

  /** The keys a tree takes are those made of a collection and a record key,
      1024 bytes long at most between them and the slash. */
  lemma ValidIsPair(key: Key)
    ensures ValidKey(key) <==> |key| <= 1024 && exists a, b :: KeyPart(a) && KeyPart(b) && key == a + [47] + b
  {
    hide IsKeyByte;
    if ValidKey(key) {
      var i := SlashAt(key);
      var a, b := key[..i], key[i + 1..];
      PartsOf(key, i);
      assert KeyPart(a) && KeyPart(b) && key == a + [47] + b;
    }
    if |key| <= 1024 && exists a, b :: KeyPart(a) && KeyPart(b) && key == a + [47] + b {
      var a, b :| KeyPart(a) && KeyPart(b) && key == a + [47] + b;
      PairIsValid(a, b);
    }
  }

  lemma PartsOf(key: Key, i: nat)
    requires ValidKey(key) && i < |key| && key[i] == SLASH
    ensures key == key[..i] + [47] + key[i + 1..] && KeyPart(key[..i]) && KeyPart(key[i + 1..])
  {
    hide IsKeyByte;
    var a, b := key[..i], key[i + 1..];
    assert key == a + ([SLASH] + b);
    SlashesAdd(a, [SLASH] + b);
    SlashesAdd([SLASH], b);
    assert Slashes([SLASH]) == 1;
    hide Slashes;
    NoSlash(a);
    NoSlash(b);
    forall j | 0 <= j < |a| ensures IsKeyByte(a[j]) { assert a[j] == key[j] && a[j] in a; }
    forall j | 0 <= j < |b| ensures IsKeyByte(b[j]) { assert b[j] == key[i + 1 + j] && b[j] in b; }
  }

  lemma PairIsValid(a: Key, b: Key)
    requires KeyPart(a) && KeyPart(b) && |a + [47] + b| <= 1024
    ensures ValidKey(a + [47] + b)
  {
    var key := a + [47] + b;
    assert !IsKeyByte(SLASH);
    hide IsKeyByte;
    SlashesAdd(a + [47], b);
    SlashesAdd(a, [47]);
    assert Slashes([SLASH]) == 1;
    hide Slashes;
    NoSlash(a);
    NoSlash(b);
  }

  lemma FirstSlash(a: Key, b: Key, i: nat)
    requires SLASH !in a && i <= |a|
    ensures KeyOf(a, b)[i] == 47 <==> i == |a|
  {
    if i < |a| { assert a[i] in a; }
  }

  /** A collection and a record key have a key of their own, which says what
      they are. */
  lemma KeyOfSplits(a: Key, b: Key, c: Key, d: Key)
    requires SLASH !in a && SLASH !in c && KeyOf(a, b) == KeyOf(c, d)
    ensures a == c && b == d && a + [47] <= KeyOf(a, b)
  {
    var key := KeyOf(a, b);
    FirstSlash(a, b, if |a| < |c| then |a| else |c|);
    FirstSlash(c, d, if |a| < |c| then |a| else |c|);
    assert a == key[..|a|] && b == key[|a| + 1..];
  }
}
