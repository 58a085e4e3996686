/**
 Command identifiers: UUID version 7, hyphenated lowercase text on the wire
 (section 4 and section 5.7 of RFC 9562).
 */
module Ids {
  import opened Prelude

  datatype CommandId = CommandId(bytes: seq<nat>)

  datatype IdError = MalformedUuid | NotUuidV7(found: nat)

  const UUID_LEN := 36

  predicate SixteenBytes(b: seq<nat>) {
    |b| == 16 && forall i :: 0 <= i < 16 ==> b[i] < 256
  }

  predicate IsVersion7(b: seq<nat>) {
    SixteenBytes(b) && b[6] / 16 == 7
  }

  /** Wraps raw bytes, checking only the version nibble. */
  function FromBytes(b: seq<nat>): (r: Result<CommandId, IdError>)
    requires SixteenBytes(b)
    ensures r.Ok? <==> IsVersion7(b)
  {
    if b[6] / 16 != 7 then Err(NotUuidV7(b[6] / 16)) else Ok(CommandId(b))
  }

  // ----- the hex alphabet, shared with the digest text -----

  /** The value of a lowercase digit; capitals are refused. */
  function HexNibble(c: char): Option<nat> {
    if '0' <= c <= '9' then Some(c as nat - '0' as nat)
    else if 'a' <= c <= 'f' then Some(c as nat - 'a' as nat + 10)
    else None
  }

  function Nibble(v: nat): (c: char)
    requires v < 16
    ensures HexNibble(c) == Some(v)
  {
    if v <= 9 then ('0' as nat + v) as char else ('a' as nat + v - 10) as char
  }

  lemma NibbleIsOnlyPreimage(c: char)
    requires HexNibble(c).Some?
    ensures HexNibble(c).value < 16 && Nibble(HexNibble(c).value) == c
  {
    var v := HexNibble(c).value;
    assert (Nibble(v) as nat) == c as nat;
  }

  /** Two hex digits to a byte, high nibble first. */
  function HexText(bytes: seq<nat>): (s: string)
    requires forall i :: 0 <= i < |bytes| ==> bytes[i] < 256
    ensures |s| == 2 * |bytes|
  {
    if bytes == [] then ""
    else HexText(bytes[..|bytes| - 1]) + [Nibble(bytes[|bytes| - 1] / 16), Nibble(bytes[|bytes| - 1] % 16)]
  }

  lemma {:induction false} HexTextAt(bytes: seq<nat>, k: nat)
    requires forall i :: 0 <= i < |bytes| ==> bytes[i] < 256
    requires k < |bytes|
    ensures HexText(bytes)[2 * k] == Nibble(bytes[k] / 16)
    ensures HexText(bytes)[2 * k + 1] == Nibble(bytes[k] % 16)
  {
    if k < |bytes| - 1 {
      HexTextAt(bytes[..|bytes| - 1], k);
    }
  }

  // ----- the canonical text -----

  /** The one text form of sixteen bytes: 8-4-4-4-12 lowercase hex digits. */
  function Text(b: seq<nat>): (s: string)
    requires SixteenBytes(b)
    ensures |s| == UUID_LEN
  {
    HexText(b[..4]) + "-" + HexText(b[4..6]) + "-" + HexText(b[6..8]) + "-" + HexText(b[8..10]) + "-" + HexText(b[10..])
  }

  predicate HyphenAt(i: nat) {
    i == 8 || i == 13 || i == 18 || i == 23
  }

  /** Where byte k's first digit stands in the text. */
  function Offset(k: nat): nat {
    2 * k + (if k >= 4 then 1 else 0) + (if k >= 6 then 1 else 0) + (if k >= 8 then 1 else 0)
      + (if k >= 10 then 1 else 0)
  }

  lemma TextHyphens(b: seq<nat>, i: nat)
    requires SixteenBytes(b) && HyphenAt(i)
    ensures Text(b)[i] == '-'
  {
  }

  lemma PartLengths(b: seq<nat>)
    requires SixteenBytes(b)
    ensures |HexText(b[..4])| == 8 && |HexText(b[4..6])| == |HexText(b[6..8])| == |HexText(b[8..10])| == 4
      && |HexText(b[10..])| == 12
  {
  }

  /** Where byte k falls in the five groups. */
  lemma FirstGroups(b: seq<nat>, k: nat)
    requires SixteenBytes(b) && k < 6
    ensures Text(b)[Offset(k)] == Nibble(b[k] / 16) && Text(b)[Offset(k) + 1] == Nibble(b[k] % 16)
  {
    PartLengths(b);
    if k < 4 {
      HexTextAt(b[..4], k);
    } else {
      HexTextAt(b[4..6], k - 4);
    }
  }

  lemma LaterGroups(b: seq<nat>, k: nat)
    requires SixteenBytes(b) && 6 <= k < 16
    ensures Offset(k) + 1 < UUID_LEN
    ensures Text(b)[Offset(k)] == Nibble(b[k] / 16) && Text(b)[Offset(k) + 1] == Nibble(b[k] % 16)
  {
    PartLengths(b);
    if k < 8 {
      HexTextAt(b[6..8], k - 6);
    } else if k < 10 {
      HexTextAt(b[8..10], k - 8);
    } else {
      HexTextAt(b[10..], k - 10);
    }
  }

  lemma TextDigits(b: seq<nat>, k: nat)
    requires SixteenBytes(b) && k < 16
    ensures Offset(k) + 1 < UUID_LEN
    ensures Text(b)[Offset(k)] == Nibble(b[k] / 16)
    ensures Text(b)[Offset(k) + 1] == Nibble(b[k] % 16)
  {
    if k < 6 {
      FirstGroups(b, k);
    } else {
      LaterGroups(b, k);
    }
  }

  /** Every position of the text is a hyphen position or one of a byte's two digits. */
  lemma PositionCovered(i: nat)
    requires i < UUID_LEN && !HyphenAt(i)
    ensures exists k :: 0 <= k < 16 && (i == Offset(k) || i == Offset(k) + 1)
  {
    var h := (if i > 8 then 1 else 0) + (if i > 13 then 1 else 0) + (if i > 18 then 1 else 0)
      + (if i > 23 then 1 else 0);
    var k := (i - h) / 2;
    assert i == Offset(k) || i == Offset(k) + 1;
  }

  /** The digits read at their offsets and the hyphens determine the whole text. */
  lemma TextFromDigits(s: string, b: seq<nat>)
    requires |s| == UUID_LEN && SixteenBytes(b)
    requires forall i :: 0 <= i < UUID_LEN && HyphenAt(i) ==> s[i] == '-'
    requires forall k :: 0 <= k < 16 ==>
      s[Offset(k)] == Nibble(b[k] / 16) && s[Offset(k) + 1] == Nibble(b[k] % 16)
    ensures s == Text(b)
  {
    forall i | 0 <= i < UUID_LEN ensures s[i] == Text(b)[i] {
      if HyphenAt(i) {
        TextHyphens(b, i);
      } else {
        PositionCovered(i);
        var k :| 0 <= k < 16 && (i == Offset(k) || i == Offset(k) + 1);
        TextDigits(b, k);
      }
    }
  }

  /** Byte value v spelled as two digits at position j. */
  predicate DigitsAt(s: string, j: nat, v: nat) {
    j + 1 < |s| && v < 256 && HexNibble(s[j]) == Some(v / 16) && HexNibble(s[j + 1]) == Some(v % 16)
  }

  /** The layout of the text, position by position. */
  ghost predicate Spells(s: string, b: seq<nat>) {
    && |s| == UUID_LEN && |b| == 16
    && (forall i :: 0 <= i < UUID_LEN && HyphenAt(i) ==> s[i] == '-')
    && (forall k :: 0 <= k < 16 ==> DigitsAt(s, Offset(k), b[k]))
  }

  /** A string is laid out as an id's text exactly when it is what printing the id gives. */
  lemma SpellsIsText(s: string, b: seq<nat>)
    requires SixteenBytes(b)
    ensures Spells(s, b) <==> s == Text(b)
  {
    if Spells(s, b) {
      forall k | 0 <= k < 16
        ensures s[Offset(k)] == Nibble(b[k] / 16) && s[Offset(k) + 1] == Nibble(b[k] % 16)
      {
        assert DigitsAt(s, Offset(k), b[k]);
        NibbleIsOnlyPreimage(s[Offset(k)]);
        NibbleIsOnlyPreimage(s[Offset(k) + 1]);
      }
      TextFromDigits(s, b);
    }
    if s == Text(b) {
      forall i | 0 <= i < UUID_LEN && HyphenAt(i) ensures s[i] == '-' { TextHyphens(b, i); }
      forall k | 0 <= k < 16 ensures DigitsAt(s, Offset(k), b[k]) { TextDigits(b, k); }
    }
  }

  /** No two ids are spelled by one string. */
  lemma SpellsUnique(s: string, a: seq<nat>, b: seq<nat>)
    requires Spells(s, a) && Spells(s, b)
    ensures a == b
  {
    forall k | 0 <= k < 16 ensures a[k] == b[k] {
      assert DigitsAt(s, Offset(k), a[k]) && DigitsAt(s, Offset(k), b[k]);
    }
  }

  /**
   Parses a hyphenated lowercase UUIDv7. The result is fixed completely: the parse succeeds
   exactly on the texts of version 7 ids and returns the bytes they spell, and it tells a
   well-formed id of another version apart from text that is no UUID.
   */
  method Parse(s: string) returns (r: Result<CommandId, IdError>)
    ensures r.Ok? ==> IsVersion7(r.value.bytes) && Spells(s, r.value.bytes)
    ensures r.Err? && r.error.NotUuidV7? ==>
      exists b: seq<nat> :: Spells(s, b) && SixteenBytes(b) && !IsVersion7(b) && r.error.found == b[6] / 16
    ensures r == Err(MalformedUuid) ==> forall b: seq<nat> :: !Spells(s, b)
  {
    if |s| != UUID_LEN {
      return Err(MalformedUuid);
    }
    var out := new nat[16](_ => 0);
    var outI := 0;
    var i := 0;
    while i < UUID_LEN
      invariant 0 <= outI <= 16 && 0 <= i <= UUID_LEN
      invariant i == Offset(outI) || (HyphenAt(i) && i + 1 == Offset(outI)) || (outI == 16 && i == UUID_LEN)
      invariant forall j :: 0 <= j < i && HyphenAt(j) ==> s[j] == '-'
      invariant forall k :: 0 <= k < outI ==> DigitsAt(s, Offset(k), out[k])
    {
      if HyphenAt(i) {
        if s[i] != '-' {
          return Err(MalformedUuid);
        }
        i := i + 1;
        continue;
      }
      assert i == Offset(outI) && outI < 16;
      var hi := HexNibble(s[i]);
      var lo := if i + 1 < |s| then HexNibble(s[i + 1]) else None;
      if hi.None? || lo.None? {
        forall b: seq<nat> | |b| == 16 ensures !DigitsAt(s, Offset(outI), b[outI]) {}
        return Err(MalformedUuid);
      }
      out[outI] := hi.value * 16 + lo.value;
      outI := outI + 1;
      i := i + 2;
    }
    var bytes := out[..];
    assert forall k :: 0 <= k < 16 ==> bytes[k] == out[k];
    assert Spells(s, bytes) && SixteenBytes(bytes);
    r := FromBytes(bytes);
  }

  /** Prints an id the way its display form does: two digits a byte, a hyphen before bytes 4, 6, 8 and 10. */
  method Print(id: CommandId) returns (s: string)
    requires SixteenBytes(id.bytes)
    ensures s == Text(id.bytes)
  {
    var b := id.bytes;
    s := "";
    for i := 0 to 16
      invariant |s| == if i == 4 || i == 6 || i == 8 || i == 10 then Offset(i) - 1 else Offset(i)
      invariant forall j :: 0 <= j < |s| && HyphenAt(j) ==> s[j] == '-'
      invariant forall k :: 0 <= k < i ==> DigitsAt(s, Offset(k), b[k])
    {
      if i == 4 || i == 6 || i == 8 || i == 10 {
        s := s + "-";
      }
      s := s + [Nibble(b[i] / 16)] + [Nibble(b[i] % 16)];
    }
    SpellsIsText(s, b);
  }

  /** Printing then parsing, and parsing then printing, both give back what went in. */
  method RoundTrip(id: CommandId, s: string) returns (back: Result<CommandId, IdError>, again: Option<string>)
    requires IsVersion7(id.bytes)
    ensures back == Ok(id)
    ensures again.Some? ==> again.value == s
    ensures again.Some? <==> exists b: seq<nat> :: IsVersion7(b) && Text(b) == s
  {
    var text := Print(id);
    SpellsIsText(text, id.bytes);
    back := Parse(text);
    forall b: seq<nat> | Spells(text, b) ensures b == id.bytes { SpellsUnique(text, b, id.bytes); }
    var parsed := Parse(s);
    forall b: seq<nat> | SixteenBytes(b) ensures Spells(s, b) <==> Text(b) == s { SpellsIsText(s, b); }
    again := None;
    if parsed.Ok? {
      var printed := Print(parsed.value);
      again := Some(printed);
      assert IsVersion7(parsed.value.bytes) && Text(parsed.value.bytes) == s;
    } else {
      forall a: seq<nat>, b: seq<nat> | Spells(s, a) && Spells(s, b) ensures a == b { SpellsUnique(s, a, b); }
    }
  }

  // ----- the simulator's ids -----

  function BigEndian4(n: nat): (b: seq<nat>)
    requires n < 0x1_0000_0000
    ensures |b| == 4 && forall i :: 0 <= i < 4 ==> b[i] < 256
    ensures ((b[0] * 256 + b[1]) * 256 + b[2]) * 256 + b[3] == n
  {
    var high := n / 256;
    var higher := high / 256;
    [higher / 256, higher % 256, high % 256, n % 256]
  }

  /** The id of a device's n-th authored command: the whole counter is written into it. */
  function AuthoredId(device: nat, n: nat): (id: CommandId)
    requires device < 256 && n < 0x1_0000_0000
    ensures IsVersion7(id.bytes)
    ensures id.bytes[11] == device && id.bytes[12..] == BigEndian4(n)
  {
    CommandId([1, 0x91, 0, 0, 0, 0, 0x70, 0, 0, 0, 0, device] + BigEndian4(n))
  }

  /** Ids are unique over every device and the counter's whole range. */
  lemma AuthoredIdsDistinct(device: nat, n: nat, device': nat, n': nat)
    requires device < 256 && n < 0x1_0000_0000 && device' < 256 && n' < 0x1_0000_0000
    requires AuthoredId(device, n) == AuthoredId(device', n')
    ensures device == device' && n == n'
  {
    assert AuthoredId(device, n).bytes == AuthoredId(device', n').bytes;
    assert BigEndian4(n) == BigEndian4(n');
  }
}
