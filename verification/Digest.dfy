/**
 The scope digest: an order-independent sum of row hashes modulo 2^128, its text form,
 and the framing a row is hashed under.
 */
module Digest {
  import opened Prelude
  import Ids

  datatype RowKey = RowKey(entity: string, id: string)

  const MODULUS: nat := 0x1_0000_0000_0000_0000_0000_0000_0000_0000

  type U128 = n: nat | n < MODULUS witness 0

  const EMPTY: U128 := 0

  /** The 128-bit hash, left uninterpreted: nothing here relies on collisions being absent. */
  const Xxh3: seq<nat> -> nat

  // ----- framing -----

  function Bytes(s: string): (b: seq<nat>)
    ensures |b| == |s| && forall i :: 0 <= i < |s| ==> b[i] == s[i] as nat
  {
    seq(|s|, i requires 0 <= i < |s| => s[i] as nat)
  }

  /** n as `width` big-endian bytes. */
  function BigEndian(n: nat, width: nat): (b: seq<nat>)
    ensures |b| == width
    ensures forall i :: 0 <= i < width ==> b[i] < 256
  {
    if width == 0 then [] else BigEndian(n / 256, width - 1) + [n % 256]
  }

  function Power256(width: nat): nat {
    if width == 0 then 1 else 256 * Power256(width - 1)
  }

  lemma {:induction false} BigEndianInjective(a: nat, b: nat, width: nat)
    requires a < Power256(width) && b < Power256(width)
    requires BigEndian(a, width) == BigEndian(b, width)
    ensures a == b
  {
    if width > 0 {
      var x, y := BigEndian(a, width), BigEndian(b, width);
      assert x[..width - 1] == BigEndian(a / 256, width - 1);
      assert y[..width - 1] == BigEndian(b / 256, width - 1);
      assert x[width - 1] == a % 256 && y[width - 1] == b % 256;
      BigEndianInjective(a / 256, b / 256, width - 1);
    }
  }

  /** The bytes a row is hashed over: each field length-prefixed, the version fixed-width. */
  function Frame(key: RowKey, version: nat): seq<nat> {
    BigEndian(|key.entity|, 8) + Bytes(key.entity) + BigEndian(|key.id|, 8) + Bytes(key.id) + BigEndian(version, 8)
  }

  /** What a length or a version may be, as the source's 64-bit fields have it. */
  const U64_BOUND: nat := 0x1_0000_0000_0000_0000

  lemma EightBytes()
    ensures Power256(8) == U64_BOUND
  {
    assert Power256(4) == 0x1_0000_0000;
    assert Power256(6) == 0x1_0000_0000_0000;
  }

  lemma BytesInjective(a: string, b: string)
    requires Bytes(a) == Bytes(b)
    ensures a == b
  {
    forall i | 0 <= i < |a| ensures a[i] == b[i] {
      assert Bytes(a)[i] == Bytes(b)[i];
    }
  }

  /** No two rows share a frame, so only a hash collision can make two rows contribute alike. */
  lemma FrameInjective(k: RowKey, v: nat, k': RowKey, v': nat)
    requires |k.entity| < U64_BOUND && |k'.entity| < U64_BOUND
    requires |k.id| < U64_BOUND && |k'.id| < U64_BOUND
    requires v < U64_BOUND && v' < U64_BOUND
    requires Frame(k, v) == Frame(k', v')
    ensures k == k' && v == v'
  {
    EightBytes();
    var f, f' := Frame(k, v), Frame(k', v');
    assert f[..8] == BigEndian(|k.entity|, 8) && f'[..8] == BigEndian(|k'.entity|, 8);
    BigEndianInjective(|k.entity|, |k'.entity|, 8);
    var e := 8 + |k.entity|;
    assert f[8..e] == Bytes(k.entity) && f'[8..e] == Bytes(k'.entity);
    BytesInjective(k.entity, k'.entity);
    assert f[e..e + 8] == BigEndian(|k.id|, 8) && f'[e..e + 8] == BigEndian(|k'.id|, 8);
    BigEndianInjective(|k.id|, |k'.id|, 8);
    var d := e + 8 + |k.id|;
    assert f[e + 8..d] == Bytes(k.id) && f'[e + 8..d] == Bytes(k'.id);
    BytesInjective(k.id, k'.id);
    assert f[d..] == BigEndian(v, 8) && f'[d..] == BigEndian(v', 8);
    BigEndianInjective(v, v', 8);
  }

  function RowHash(key: RowKey, version: nat): (h: nat)
    ensures h < MODULUS
  {
    Xxh3(Frame(key, version)) % MODULUS
  }

  /** Two inputs whose hashes agree in their lowest 128 bits. */
  ghost predicate Collide(a: seq<nat>, b: seq<nat>) {
    var bound := 0x1_0000_0000_0000_0000_0000_0000_0000_0000;
    a != b && Xxh3(a) % bound == Xxh3(b) % bound
  }

  /** Two rows, or two versions of one, are hashed alike only where the hash itself collides. */
  lemma RowsCollide(k: RowKey, v: nat, k': RowKey, v': nat)
    requires |k.entity| < U64_BOUND && |k'.entity| < U64_BOUND
    requires |k.id| < U64_BOUND && |k'.id| < U64_BOUND
    requires v < U64_BOUND && v' < U64_BOUND
    requires RowHash(k, v) == RowHash(k', v') && (k, v) != (k', v')
    ensures exists a, b :: Collide(a, b)
  {
    assert Collide(Frame(k, v), Frame(k', v')) || Frame(k, v) == Frame(k', v');
    if Frame(k, v) == Frame(k', v') {
      FrameInjective(k, v, k', v');
    }
  }

  // ----- the specification: a sum over the rows held -----

  /** The exact sum of the row hashes over a set of keys. */
  ghost function SumOver(keys: set<RowKey>, rows: map<RowKey, nat>): nat
    requires keys <= rows.Keys
  {
    if keys == {} then 0
    else
      var k :| k in keys;
      RowHash(k, rows[k]) + SumOver(keys - {k}, rows)
  }

  /** What a digest over these live rows must be. */
  ghost function DigestOf(rows: map<RowKey, nat>): (d: nat)
    ensures d < MODULUS
  {
    SumOver(rows.Keys, rows) % MODULUS
  }

  /** The sum does not depend on which row is taken out first. */
  lemma {:induction false} SumSplit(keys: set<RowKey>, rows: map<RowKey, nat>, k: RowKey)
    requires keys <= rows.Keys && k in keys
    ensures SumOver(keys, rows) == RowHash(k, rows[k]) + SumOver(keys - {k}, rows)
    decreases keys
  {
    var p :| p in keys && SumOver(keys, rows) == RowHash(p, rows[p]) + SumOver(keys - {p}, rows);
    if p != k {
      SumSplit(keys - {p}, rows, k);
      assert keys - {p} - {k} == keys - {k} - {p};
      SumSplit(keys - {k}, rows, p);
    }
  }

  /** The sum reads nothing outside its keys. */
  lemma {:induction false} SumAgrees(keys: set<RowKey>, a: map<RowKey, nat>, b: map<RowKey, nat>)
    requires keys <= a.Keys && keys <= b.Keys
    requires forall k :: k in keys ==> a[k] == b[k]
    ensures SumOver(keys, a) == SumOver(keys, b)
    decreases keys
  {
    if keys != {} {
      var k :| k in keys;
      SumSplit(keys, a, k);
      SumSplit(keys, b, k);
      SumAgrees(keys - {k}, a, b);
    }
  }

  function Added(d: nat, key: RowKey, version: nat): U128 {
    (d + RowHash(key, version)) % MODULUS
  }

  function Removed(d: nat, key: RowKey, version: nat): U128 {
    (d + MODULUS - RowHash(key, version)) % MODULUS
  }

  lemma AddingTracks(rows: map<RowKey, nat>, key: RowKey, version: nat)
    requires key !in rows
    ensures Added(DigestOf(rows), key, version) == DigestOf(rows[key := version])
  {
    var more := rows[key := version];
    SumSplit(more.Keys, more, key);
    assert more.Keys - {key} == rows.Keys;
    SumAgrees(rows.Keys, rows, more);
    ModAdd(SumOver(rows.Keys, rows), RowHash(key, version));
  }

  lemma RemovingTracks(rows: map<RowKey, nat>, key: RowKey)
    requires key in rows
    ensures Removed(DigestOf(rows), key, rows[key]) == DigestOf(rows - {key})
  {
    var rest := rows - {key};
    SumSplit(rows.Keys, rows, key);
    assert rest.Keys == rows.Keys - {key};
    SumAgrees(rest.Keys, rows, rest);
    RemovedUndoesAdded(SumOver(rest.Keys, rest), key, rows[key]);
  }

  /** Adding a row not held and removing one that is both track the from-scratch sum. */
  lemma DigestTracks(rows: map<RowKey, nat>, key: RowKey, version: nat)
    ensures key !in rows ==> Added(DigestOf(rows), key, version) == DigestOf(rows[key := version])
    ensures key in rows ==> Removed(DigestOf(rows), key, rows[key]) == DigestOf(rows - {key})
  {
    if key in rows {
      RemovingTracks(rows, key);
    } else {
      AddingTracks(rows, key, version);
    }
  }

  /** Taking a row out again leaves the sum there was before it went in. */
  lemma RemovedUndoesAdded(sum: nat, key: RowKey, version: nat)
    ensures Removed((sum + RowHash(key, version)) % MODULUS, key, version) == sum % MODULUS
  {
    var h := RowHash(key, version);
    var q := (sum + h) / MODULUS;
    assert (sum + h) % MODULUS == sum + h - q * MODULUS;
    assert ((sum + h) % MODULUS + MODULUS - h) % MODULUS == (sum + (1 - q) * MODULUS) % MODULUS;
    ModShift(sum, 1 - q);
  }

  /** Reducing before an addition changes nothing after it. */
  lemma ModAdd(a: nat, b: nat)
    ensures (a % MODULUS + b) % MODULUS == (a + b) % MODULUS
  {
    ModShift(a % MODULUS + b, a / MODULUS);
    assert a == a / MODULUS * MODULUS + a % MODULUS;
  }

  lemma ModShift(a: int, k: int)
    ensures (a + k * MODULUS) % MODULUS == a % MODULUS
  {
    var q := a / MODULUS;
    assert a + k * MODULUS == (q + k) * MODULUS + a % MODULUS;
  }

  /** Addition as digests are added. */
  function Plus(a: nat, b: nat): (sum: nat)
    ensures sum < MODULUS
  {
    (a + b) % MODULUS
  }

  lemma RemovedPutsBack(d: nat, key: RowKey, version: nat)
    ensures Plus(Removed(d, key, version), RowHash(key, version)) == d % MODULUS
  {
    ModAdd(d + MODULUS - RowHash(key, version), RowHash(key, version));
    ModShift(d, 1);
  }

  lemma ReplacedPutsBack(d: nat, key: RowKey, from: nat, to: nat)
    ensures Plus(Added(Removed(d, key, from), key, to), RowHash(key, from)) == Plus(d, RowHash(key, to))
  {
    var r, h, n := Removed(d, key, from), RowHash(key, from), RowHash(key, to);
    ModAdd(r + n, h);
    ModAdd(r + h, n);
    RemovedPutsBack(d, key, from);
    ModAdd(d, n);
  }

  lemma ModCancel(p: nat, q: nat, h: nat)
    requires (p + h) % MODULUS == (q + h) % MODULUS
    ensures p % MODULUS == q % MODULUS
  {
    var k := (p + h) / MODULUS - (q + h) / MODULUS;
    assert p == q + k * MODULUS;
    ModShift(q, k);
  }

  /**
   Two digests that each take a share out and the same amount in, beside two sums the shares join or already
   were in.
   */
  lemma SumsMove(a: nat, b: nat, a': nat, b': nat, x: nat, y: nat, x': nat, y': nat, hx: nat, hy: nat, n: nat)
    requires Plus(a, x) == Plus(b, y) && Plus(a', hx) == Plus(a, n) && Plus(b', hy) == Plus(b, n)
    requires (x' == x && y' == y && hx == hy) || (x' == Plus(x, hx) && y' == Plus(y, hy))
    ensures Plus(a', x') == Plus(b', y')
  {
    SumMoves(a, a', x, hx, n);
    SumMoves(b, b', y, hy, n);
    ModAdd(a + x, n);
    ModAdd(b + y, n);
    if x' == x && y' == y && hx == hy {
      ModCancel(a' + x, b' + y, hx);
    }
  }

  lemma SumMoves(a: nat, a': nat, x: nat, hx: nat, n: nat)
    requires Plus(a', hx) == Plus(a, n)
    ensures Plus(a', Plus(x, hx)) == (a' + x + hx) % MODULUS == (a + x + n) % MODULUS
  {
    ModAdd(x + hx, a');
    ModAdd(a' + hx, x);
    ModAdd(a + n, x);
  }

  /** Two digests that balance two sums are the same if and only if the sums are. */
  lemma SameSums(d: nat, e: nat, x: nat, y: nat)
    requires d < MODULUS && e < MODULUS && x < MODULUS && y < MODULUS && Plus(d, x) == Plus(e, y)
    ensures d == e <==> x == y
  {
    if d == e {
      ModCancel(x, y, d);
    } else if x == y {
      ModCancel(d, e, x);
    }
  }

  /** Replacing a row's version is one update, whatever else is held. */
  lemma DigestReplaces(rows: map<RowKey, nat>, key: RowKey, version: nat)
    requires key in rows
    ensures Added(Removed(DigestOf(rows), key, rows[key]), key, version) == DigestOf(rows[key := version])
  {
    DigestTracks(rows, key, version);
    DigestTracks(rows - {key}, key, version);
    assert (rows - {key})[key := version] == rows[key := version];
  }

  /** The accumulator a client keeps and updates in place. */
  class ScopeDigest {
    var raw: nat

    ghost predicate Valid() reads this { raw < MODULUS }

    constructor (value: nat)
      requires value < MODULUS
      ensures Valid() && raw == value
    {
      raw := value;
    }

    method Add(key: RowKey, version: nat)
      requires Valid()
      modifies this
      ensures Valid() && raw == Added(old(raw), key, version)
    {
      raw := (raw + RowHash(key, version)) % MODULUS;
    }

    method Remove(key: RowKey, version: nat)
      requires Valid()
      modifies this
      ensures Valid() && raw == Removed(old(raw), key, version)
    {
      raw := (raw + MODULUS - RowHash(key, version)) % MODULUS;
    }

    method Update(key: RowKey, from: nat, to: nat)
      requires Valid()
      modifies this
      ensures Valid() && raw == Added(Removed(old(raw), key, from), key, to)
    {
      Remove(key, from);
      Add(key, to);
    }
  }

  /** The rows a list spells out. */
  function RowsOf(rows: seq<(RowKey, nat)>): map<RowKey, nat> {
    if rows == [] then map[] else RowsOf(rows[..|rows| - 1])[rows[|rows| - 1].0 := rows[|rows| - 1].1]
  }

  lemma {:induction false} RowsOfKeys(rows: seq<(RowKey, nat)>, k: RowKey)
    ensures k in RowsOf(rows) <==> exists i :: 0 <= i < |rows| && rows[i].0 == k
  {
    if rows != [] {
      var init := rows[..|rows| - 1];
      RowsOfKeys(init, k);
      assert forall i :: 0 <= i < |init| ==> init[i] == rows[i];
    }
  }

  /** A digest from scratch: the order the rows are listed in is irrelevant. */
  method FromRows(rows: seq<(RowKey, nat)>) returns (digest: ScopeDigest)
    requires forall i, j :: 0 <= i < j < |rows| ==> rows[i].0 != rows[j].0
    ensures fresh(digest) && digest.Valid() && digest.raw == DigestOf(RowsOf(rows))
  {
    digest := new ScopeDigest(0);
    for i := 0 to |rows|
      invariant digest.Valid() && digest.raw == DigestOf(RowsOf(rows[..i]))
    {
      assert rows[..i + 1][..i] == rows[..i];
      RowsOfKeys(rows[..i], rows[i].0);
      DigestTracks(RowsOf(rows[..i]), rows[i].0, rows[i].1);
      digest.Add(rows[i].0, rows[i].1);
    }
    assert rows[..|rows|] == rows;
  }

  // ----- text form -----

  const HEX_CHARS := 32

  predicate IsHexText(s: string) {
    |s| == HEX_CHARS && forall i :: 0 <= i < |s| ==> Ids.HexNibble(s[i]).Some?
  }

  /** n as `width` lowercase hex digits, leading zeros kept. */
  function HexDigits(n: nat, width: nat): (s: string)
    ensures |s| == width
    ensures forall i :: 0 <= i < width ==> Ids.HexNibble(s[i]).Some?
  {
    if width == 0 then "" else HexDigits(n / 16, width - 1) + [Ids.Nibble(n % 16)]
  }

  function ToHex(d: nat): (s: string)
    ensures IsHexText(s)
  {
    HexDigits(d, HEX_CHARS)
  }

  /** Byte by byte, high nibble first, gives the same digits. */
  lemma {:induction false} HexByBytes(n: nat, width: nat)
    ensures Ids.HexText(BigEndian(n, width)) == HexDigits(n, 2 * width)
  {
    if width > 0 {
      HexByBytes(n / 256, width - 1);
      assert BigEndian(n, width)[..width - 1] == BigEndian(n / 256, width - 1);
      assert n / 16 / 16 == n / 256 && n % 256 / 16 == n / 16 % 16 && n % 256 % 16 == n % 16;
      assert HexDigits(n, 2 * width)
        == HexDigits(n / 16 / 16, 2 * width - 2) + [Ids.Nibble(n / 16 % 16)] + [Ids.Nibble(n % 16)];
    }
  }

  /** Formats 128 bits as 32 digits; a leading zero byte still occupies two characters. */
  method HexU128(v: nat) returns (s: string)
    requires v < MODULUS
    ensures s == ToHex(v)
  {
    var bytes := BigEndian(v, 16);
    s := "";
    for i := 0 to 16
      invariant s == Ids.HexText(bytes[..i])
    {
      assert bytes[..i + 1][..i] == bytes[..i];
      s := s + [Ids.Nibble(bytes[i] / 16)] + [Ids.Nibble(bytes[i] % 16)];
    }
    assert bytes[..16] == bytes;
    HexByBytes(v, 16);
  }

  function HexValue(s: string): nat
    requires forall i :: 0 <= i < |s| ==> Ids.HexNibble(s[i]).Some?
  {
    if s == "" then 0 else 16 * HexValue(s[..|s| - 1]) + Ids.HexNibble(s[|s| - 1]).value
  }

  function Power16(width: nat): nat {
    if width == 0 then 1 else 16 * Power16(width - 1)
  }

  lemma {:induction false} HexDigitsValue(n: nat, width: nat)
    requires n < Power16(width)
    ensures HexValue(HexDigits(n, width)) == n
  {
    if width > 0 {
      HexDigitsValue(n / 16, width - 1);
      var s := HexDigits(n, width);
      assert s[..|s| - 1] == HexDigits(n / 16, width - 1);
    }
  }

  lemma {:induction false} HexValueDigits(s: string)
    requires forall i :: 0 <= i < |s| ==> Ids.HexNibble(s[i]).Some?
    ensures HexValue(s) < Power16(|s|)
    ensures HexDigits(HexValue(s), |s|) == s
  {
    if s != "" {
      var init := s[..|s| - 1];
      HexValueDigits(init);
      Ids.NibbleIsOnlyPreimage(s[|s| - 1]);
      var v := HexValue(s);
      assert v / 16 == HexValue(init) && v % 16 == Ids.HexNibble(s[|s| - 1]).value;
      assert s == init + [s[|s| - 1]];
    }
  }

  lemma ModulusIsHex32()
    ensures MODULUS == Power16(HEX_CHARS)
  {
    assert Power16(4) == 0x1_0000;
    assert Power16(8) == 0x1_0000_0000;
    assert Power16(16) == 0x1_0000_0000 * 0x1_0000_0000 by {
      assert Power16(12) == 0x1_0000_0000_0000;
    }
    assert Power16(20) == 0x1_0000_0000_0000_0000_0000;
    assert Power16(24) == 0x1_0000_0000_0000_0000_0000_0000;
    assert Power16(28) == 0x1_0000_0000_0000_0000_0000_0000_0000;
  }

  /** Reads a stored digest back; text that is no digest reads as the empty digest. */
  function FromHex(s: string): U128 {
    if IsHexText(s) then
      HexValueDigits(s);
      ModulusIsHex32();
      HexValue(s)
    else 0
  }

  /** Both directions of the digest's text form. */
  lemma HexRoundTrip(d: nat, s: string)
    requires d < MODULUS && IsHexText(s)
    ensures FromHex(ToHex(d)) == d
    ensures FromHex(s) < MODULUS && ToHex(FromHex(s)) == s
  {
    ModulusIsHex32();
    HexDigitsValue(d, HEX_CHARS);
    HexValueDigits(s);
  }

  lemma EmptyDigest()
    ensures FromHex(ToHex(EMPTY)) == EMPTY == DigestOf(map[])
  {
    var nothing: map<RowKey, nat> := map[];
    assert SumOver(nothing.Keys, nothing) == 0;
    HexRoundTrip(EMPTY, ToHex(EMPTY));
  }

  /** Comparing digests as text is comparing them. */
  lemma HexInjective(a: nat, b: nat)
    requires a < MODULUS && b < MODULUS
    ensures ToHex(a) == ToHex(b) <==> a == b
  {
    HexRoundTrip(a, ToHex(a));
    HexRoundTrip(b, ToHex(b));
  }
}
