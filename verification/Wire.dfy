/** The wire types, their canonical encoding, and the limits a push request must meet. */
module Wire {
  import opened Prelude
  import Digest
  import opened Ids

  type ScopeId = string
  type EntityName = string
  type RowKey = Digest.RowKey

  // ----- limits -----

  const SCOPE_MAX_BYTES := 128
  const COMMAND_NAME_MAX_BYTES := 64
  const SNAPSHOT_MAX_BYTES := 256 * 1024
  const PAYLOAD_MAX_BYTES := 64 * 1024
  const COMMANDS_MAX_COUNT := 256
  const COMMANDS_MAX_TOTAL_BYTES := 1024 * 1024

  // ----- types -----

  /** A host's JSON object, held as its canonical bytes (one character a byte). */
  datatype Document = Document(canonical: string)

  datatype Op = Upsert | Delete

  datatype ConflictClass = ServerAuthoritative | OwnerDraft | AppendOnly

  datatype Change = Change(seqNo: nat, key: RowKey, op: Op, snapshot: Option<Document>, version: nat, schema: nat)
  {
    /** The rule tying the operation to the snapshot. */
    predicate Consistent() {
      op.Upsert? <==> snapshot.Some?
    }
  }

  datatype Batch = Batch(scope: ScopeId, changes: seq<Change>, nextCursor: nat, hasMore: bool, checksum: string,
                         digest: string)

  datatype Command = Command(id: CommandId, name: string, scope: ScopeId, payload: Document, clientTs: int,
                             checksum: string)

  datatype Status = Applied | Rejected | Superseded

  datatype CommandResult = CommandResult(id: CommandId, status: Status, reason: Option<string>, serverSeq: Option<nat>)

  datatype PushRequest = PushRequest(protocol: nat, commands: seq<Command>)

  // ----- canonical encoding: compact JSON, keys sorted -----

  function Digits(n: nat): (s: string)
    ensures |s| >= 1
    decreases n
  {
    if n < 10 then [('0' as nat + n) as char] else Digits(n / 10) + [('0' as nat + n % 10) as char]
  }

  function Decimal(n: int): string {
    if n < 0 then "-" + Digits(-n) else Digits(n)
  }

  function Power10(k: nat): nat {
    if k == 0 then 1 else 10 * Power10(k - 1)
  }

  lemma {:induction false} DigitsLength(n: nat, k: nat)
    requires 1 <= k && n < Power10(k)
    ensures |Digits(n)| <= k
  {
    if n >= 10 {
      assert k >= 2;
      DigitsLength(n / 10, k - 1);
    }
  }

  /** A JSON string of printable text: quote and backslash are escaped. */
  function Escaped(s: string): string {
    if s == "" then ""
    else Escaped(s[..|s| - 1]) + (if s[|s| - 1] == '"' || s[|s| - 1] == '\\' then ['\\', s[|s| - 1]] else [s[|s| - 1]])
  }

  function Quote(s: string): string {
    "\"" + Escaped(s) + "\""
  }

  predicate Plain(s: string) {
    forall i :: 0 <= i < |s| ==> s[i] != '"' && s[i] != '\\'
  }

  lemma {:induction false} PlainQuote(s: string)
    requires Plain(s)
    ensures |Quote(s)| == |s| + 2
  {
    PlainEscaped(s);
  }

  lemma {:induction false} PlainEscaped(s: string)
    requires Plain(s)
    ensures Escaped(s) == s
  {
    if s != "" {
      PlainEscaped(s[..|s| - 1]);
    }
  }

  function IdText(id: CommandId): string {
    if SixteenBytes(id.bytes) then Text(id.bytes) else ""
  }

  function EncodeCommand(c: Command): string {
    "{\"checksum\":" + Quote(c.checksum) + ",\"client_ts\":" + Decimal(c.clientTs) + ",\"id\":" + Quote(IdText(c.id))
    + ",\"name\":" + Quote(c.name) + ",\"payload\":" + c.payload.canonical + ",\"scope\":" + Quote(c.scope) + "}"
  }

  // ----- no two commands encode alike -----

  function Escape(c: char): string {
    if c == '"' || c == '\\' then ['\\', c] else [c]
  }

  lemma {:induction false} EscapedFront(c: char, s: string)
    ensures Escaped([c] + s) == Escape(c) + Escaped(s)
  {
    var whole := [c] + s;
    if s == "" {
      assert whole[..0] == "";
      assert Escaped(whole) == Escaped("") + Escape(c);
    } else {
      var n := |s| - 1;
      assert whole[..|whole| - 1] == [c] + s[..n] && whole[|whole| - 1] == s[n];
      EscapedFront(c, s[..n]);
      assert Escaped(whole) == Escaped([c] + s[..n]) + Escape(s[n]);
      assert Escaped(s) == Escaped(s[..n]) + Escape(s[n]);
    }
  }

  /** Where a quoted string ends can be told from its text, whatever it holds and whatever follows. */
  lemma {:induction false} QuoteEnds(a: string, b: string, u: string, v: string)
    requires Escaped(a) + "\"" + u == Escaped(b) + "\"" + v
    ensures a == b && u == v
  {
    if a == "" || b == "" {
      EmptyEnds(a, b, u, v);
    } else {
      var rest, rest' := Escaped(a[1..]) + "\"" + u, Escaped(b[1..]) + "\"" + v;
      assert a == [a[0]] + a[1..] && b == [b[0]] + b[1..];
      EscapedFront(a[0], a[1..]);
      EscapedFront(b[0], b[1..]);
      assert Escaped(a) + "\"" + u == Escape(a[0]) + rest;
      assert Escaped(b) + "\"" + v == Escape(b[0]) + rest';
      EscapeEnds(a[0], b[0], rest, rest');
      QuoteEnds(a[1..], b[1..], u, v);
    }
  }

  lemma EscapeEnds(c: char, d: char, u: string, v: string)
    requires Escape(c) + u == Escape(d) + v
    ensures c == d && u == v
  {
    var x, y := Escape(c) + u, Escape(d) + v;
    assert x[0] == Escape(c)[0] && y[0] == Escape(d)[0];
    assert |Escape(c)| == |Escape(d)|;
    assert x[|Escape(c)| - 1] == c && y[|Escape(d)| - 1] == d;
    assert u == x[|Escape(c)|..] && v == y[|Escape(d)|..];
  }

  lemma OpensQuote(s: string, u: string)
    requires s != ""
    ensures (Escaped(s) + u)[0] != '"'
  {
    assert s == [s[0]] + s[1..];
    EscapedFront(s[0], s[1..]);
    assert (Escaped(s) + u)[0] == Escape(s[0])[0];
  }

  lemma EmptyEnds(a: string, b: string, u: string, v: string)
    requires Escaped(a) + "\"" + u == Escaped(b) + "\"" + v && (a == "" || b == "")
    ensures a == b && u == v
  {
    var x, y := "\"" + u, "\"" + v;
    assert Escaped(a) + "\"" + u == Escaped(a) + x && Escaped(b) + "\"" + v == Escaped(b) + y;
    if a != "" {
      OpensQuote(a, x);
    } else if b != "" {
      OpensQuote(b, y);
    }
    assert Escaped("") + x == x && Escaped("") + y == y;
    assert u == x[1..] && v == y[1..];
  }

  /** Inside a quoted string every quote follows a backslash. */
  lemma {:induction false} QuotesEscaped(s: string, i: nat)
    requires i < |Escaped(s)| && Escaped(s)[i] == '"'
    ensures i > 0 && Escaped(s)[i - 1] == '\\'
  {
    var init, last := Escaped(s[..|s| - 1]), Escape(s[|s| - 1]);
    assert Escaped(s) == init + last;
    if i < |init| {
      QuotesEscaped(s[..|s| - 1], i);
    }
  }

  const SCOPE_FIELD := ",\"scope\":"

  /** So where the last field starts can be told from the end, whatever text comes before it. */
  lemma ScopeStarts(p: string, a: string, q: string, b: string)
    requires p + SCOPE_FIELD + Quote(a) + "}" == q + SCOPE_FIELD + Quote(b) + "}"
    ensures p == q && a == b
  {
    var whole := p + SCOPE_FIELD + Quote(a) + "}";
    ScopeNotInside(whole, p, a, q, b);
    ScopeNotInside(whole, q, b, p, a);
    assert p == whole[..|p|] && q == whole[..|q|];
    var tail := whole[|p| + |SCOPE_FIELD| + 1..];
    assert tail == Escaped(a) + "\"" + "}" && tail == Escaped(b) + "\"" + "}";
    QuoteEnds(a, b, "}", "}");
  }

  lemma ScopeNotInside(whole: string, p: string, a: string, q: string, b: string)
    requires whole == p + SCOPE_FIELD + Quote(a) + "}" && whole == q + SCOPE_FIELD + Quote(b) + "}"
    ensures |Escaped(a)| <= |Escaped(b)|
  {
    var start, at := |p| + |SCOPE_FIELD| + 1, |q| + |SCOPE_FIELD|;
    assert |p| + |Escaped(a)| == |q| + |Escaped(b)|;
    assert whole[at] == '"' && whole[at - 1] == ':';
    if start <= at {
      assert whole[at] == Escaped(a)[at - start];
      QuotesEscaped(a, at - start);
    }
  }

  predicate IsDigits(s: string) {
    forall i :: 0 <= i < |s| ==> '0' <= s[i] <= '9'
  }

  lemma {:induction false} DigitsAreDigits(n: nat)
    ensures IsDigits(Digits(n))
  {
    if n >= 10 {
      DigitsAreDigits(n / 10);
    }
  }

  lemma {:induction false} DigitsInjective(n: nat, m: nat)
    requires Digits(n) == Digits(m)
    ensures n == m
  {
    var s, t := Digits(n), Digits(m);
    assert s[|s| - 1] == ('0' as nat + n % 10) as char && t[|t| - 1] == ('0' as nat + m % 10) as char;
    if n >= 10 && m >= 10 {
      assert s[..|s| - 1] == Digits(n / 10) && t[..|t| - 1] == Digits(m / 10);
      DigitsInjective(n / 10, m / 10);
    }
  }

  /** Where a number ends, when what follows is no digit. */
  lemma DecimalEnds(n: int, m: int, u: string, v: string)
    requires Decimal(n) + "," + u == Decimal(m) + "," + v
    ensures n == m && u == v
  {
    var x, y := Decimal(n), Decimal(m);
    assert (n < 0 ==> x[0] == '-') && (m < 0 ==> y[0] == '-');
    DigitsAreDigits(if n < 0 then -n else n);
    DigitsAreDigits(if m < 0 then -m else m);
    var whole := x + "," + u;
    assert forall i :: 0 <= i < |x| ==> whole[i] == x[i] != ',';
    assert forall i :: 0 <= i < |y| ==> whole[i] == y[i] != ',';
    assert whole[|x|] == ',' && whole[|y|] == ',';
    assert x == whole[..|x|] && y == whole[..|y|] && u == whole[|x| + 1..] && v == whole[|y| + 1..];
    if n < 0 && m < 0 {
      assert x[1..] == Digits(-n) && y[1..] == Digits(-m);
      DigitsInjective(-n, -m);
    } else if n >= 0 && m >= 0 {
      DigitsInjective(n, m);
    }
  }

  /** Cancels what two texts start with. */
  lemma AfterPrefix(p: string, u: string, v: string)
    requires p + u == p + v
    ensures u == v
  {
    assert (p + u)[|p|..] == u && (p + v)[|p|..] == v;
  }

  lemma QuotedField(field: string, a: string, b: string, u: string, v: string)
    requires field + Quote(a) + u == field + Quote(b) + v
    ensures a == b && u == v
  {
    assert field + Quote(a) + u == field + "\"" + (Escaped(a) + "\"" + u);
    assert field + Quote(b) + v == field + "\"" + (Escaped(b) + "\"" + v);
    AfterPrefix(field + "\"", Escaped(a) + "\"" + u, Escaped(b) + "\"" + v);
    QuoteEnds(a, b, u, v);
  }

  /** What is left of the encoding from each field on. */
  function FromPayload(c: Command): string {
    ",\"payload\":" + (c.payload.canonical + SCOPE_FIELD + Quote(c.scope) + "}")
  }

  function FromName(c: Command): string {
    ",\"name\":" + Quote(c.name) + FromPayload(c)
  }

  function FromId(c: Command): string {
    "\"id\":" + Quote(IdText(c.id)) + FromName(c)
  }

  function FromClock(c: Command): string {
    ",\"client_ts\":" + (Decimal(c.clientTs) + "," + FromId(c))
  }

  lemma EncodedFields(c: Command)
    ensures EncodeCommand(c) == "{\"checksum\":" + Quote(c.checksum) + FromClock(c)
  {
    Regroup("{\"checksum\":" + Quote(c.checksum), ",\"client_ts\":", Decimal(c.clientTs), "\"id\":",
            Quote(IdText(c.id)), ",\"name\":", Quote(c.name), ",\"payload\":", c.payload.canonical, SCOPE_FIELD,
            Quote(c.scope));
    assert ",\"id\":" == "," + "\"id\":";
  }

  lemma Regroup(a: string, b: string, c: string, d: string, e: string, f: string, g: string, h: string, i: string,
                j: string, k: string)
    ensures a + b + c + ("," + d) + e + f + g + h + i + j + k + "}"
      == a + (b + (c + "," + (d + e + (f + g + (h + (i + j + k + "}"))))))
  {
    var tail := i + j + k + "}";
    assert f + g + h + i + j + k + "}" == f + g + (h + tail);
    assert d + e + f + g + h + i + j + k + "}" == d + e + (f + g + (h + tail));
  }

  /**
   The encoding loses nothing: two commands with ids are encoded alike only if they are the same, field by
   field, whatever quotes, commas or braces their texts hold.
   */
  lemma EncodeInjective(c: Command, d: Command)
    requires SixteenBytes(c.id.bytes) && SixteenBytes(d.id.bytes) && EncodeCommand(c) == EncodeCommand(d)
    ensures c == d
  {
    EncodedFields(c);
    EncodedFields(d);
    QuotedField("{\"checksum\":", c.checksum, d.checksum, FromClock(c), FromClock(d));
    AfterPrefix(",\"client_ts\":", Decimal(c.clientTs) + "," + FromId(c), Decimal(d.clientTs) + "," + FromId(d));
    DecimalEnds(c.clientTs, d.clientTs, FromId(c), FromId(d));
    QuotedField("\"id\":", IdText(c.id), IdText(d.id), FromName(c), FromName(d));
    QuotedField(",\"name\":", c.name, d.name, FromPayload(c), FromPayload(d));
    AfterPrefix(",\"payload\":", c.payload.canonical + SCOPE_FIELD + Quote(c.scope) + "}",
                d.payload.canonical + SCOPE_FIELD + Quote(d.scope) + "}");
    ScopeStarts(c.payload.canonical, c.scope, d.payload.canonical, d.scope);
    SpellsIsText(IdText(c.id), c.id.bytes);
    SpellsIsText(IdText(c.id), d.id.bytes);
    SpellsUnique(IdText(c.id), c.id.bytes, d.id.bytes);
  }

  /** Items joined by commas. */
  function Joined(items: seq<string>): string {
    if items == [] then "" else if |items| == 1 then items[0]
    else Joined(items[..|items| - 1]) + "," + items[|items| - 1]
  }

  function EncodeArray(items: seq<string>): string {
    "[" + Joined(items) + "]"
  }

  function EncodeCommands(cs: seq<Command>): string {
    EncodeArray(seq(|cs|, i requires 0 <= i < |cs| => EncodeCommand(cs[i])))
  }

  // ----- what decoding guarantees of a command's fields -----

  predicate HexField(s: string) {
    Digest.IsHexText(s)
  }

  /** Field limits a command has passed by the time it exists. */
  predicate WellFormed(c: Command) {
    && IsVersion7(c.id.bytes)
    && |c.name| <= COMMAND_NAME_MAX_BYTES && Plain(c.name)
    && |c.scope| <= SCOPE_MAX_BYTES && Plain(c.scope)
    && |c.payload.canonical| <= PAYLOAD_MAX_BYTES
    && -0x8000_0000_0000_0000 <= c.clientTs < 0x8000_0000_0000_0000
    && HexField(c.checksum)
  }

  datatype ProtocolError = TooManyItems(limit: nat, actual: nat) | TooLong(limit: nat, actual: nat)

  /** Refuses a push with too many commands, or with too long an encoding, in that order. */
  function ValidatePush(r: PushRequest): Result<(), ProtocolError> {
    if |r.commands| > COMMANDS_MAX_COUNT then Err(TooManyItems(COMMANDS_MAX_COUNT, |r.commands|))
    else
      var bytes := |EncodeCommands(r.commands)|;
      if bytes > COMMANDS_MAX_TOTAL_BYTES then Err(TooLong(COMMANDS_MAX_TOTAL_BYTES, bytes)) else Ok(())
  }

  lemma IntegerLength(n: int)
    requires -0x8000_0000_0000_0000 <= n < 0x8000_0000_0000_0000
    ensures |Decimal(n)| <= 20
  {
    assert Power10(19) >= 0x8000_0000_0000_0001 by {
      assert Power10(5) == 100000;
      assert Power10(10) == 10000000000;
      assert Power10(15) == 1000000000000000;
    }
    DigitsLength(if n < 0 then -n else n, 19);
  }

  /** One command's encoding is far below the request limit, whatever the host put in it. */
  lemma OneCommandFits(c: Command)
    requires WellFormed(c)
    ensures |EncodeCommand(c)| <= PAYLOAD_MAX_BYTES + 400
    ensures |EncodeCommand(c)| + 2 <= COMMANDS_MAX_TOTAL_BYTES
  {
    IntegerLength(c.clientTs);
    PlainQuote(c.name);
    PlainQuote(c.scope);
    HexIsPlain(c.checksum);
    PlainQuote(c.checksum);
    SpellsIsText(Text(c.id.bytes), c.id.bytes);
    TextIsPlain(Text(c.id.bytes), c.id.bytes);
    PlainQuote(Text(c.id.bytes));
  }

  lemma HexIsPlain(s: string)
    requires HexField(s)
    ensures Plain(s)
  {
    forall i | 0 <= i < |s| ensures s[i] != '"' && s[i] != '\\' {
      assert HexNibble(s[i]).Some?;
    }
  }

  lemma TextIsPlain(s: string, b: seq<nat>)
    requires Spells(s, b)
    ensures Plain(s)
  {
    forall i | 0 <= i < |s| ensures s[i] != '"' && s[i] != '\\' {
      if !HyphenAt(i) {
        PositionCovered(i);
        var k :| 0 <= k < 16 && (i == Offset(k) || i == Offset(k) + 1);
        assert DigitsAt(s, Offset(k), b[k]);
      }
    }
  }
}
