/** The dedupe rule and the result constructors shared by the forwarding server and the simulated one. */
module Dedupe {
  import opened Prelude
  import opened Wire
  import opened Ids
  import Digest

  /** The tamper-evident checksum of a payload, left uninterpreted: equal payloads agree, nothing more. */
  const Blake3: seq<nat> -> nat

  function PayloadChecksum(payload: Document): string {
    Digest.ToHex(Blake3(Digest.Bytes(payload.canonical)) % Digest.MODULUS)
  }

  /** Two payloads share a checksum only where the hash collides. */
  lemma ChecksumsCollide(p: Document, q: Document)
    requires PayloadChecksum(p) == PayloadChecksum(q) && p != q
    ensures exists a, b :: a != b && Blake3(a) % Digest.MODULUS == Blake3(b) % Digest.MODULUS
  {
    var a, b := Digest.Bytes(p.canonical), Digest.Bytes(q.canonical);
    Digest.HexInjective(Blake3(a) % Digest.MODULUS, Blake3(b) % Digest.MODULUS);
    if a == b {
      Digest.BytesInjective(p.canonical, q.canonical);
    }
  }

  datatype Recorded = Recorded(checksum: string, result: CommandResult)

  datatype Decision = Fresh | Replay(result: CommandResult) | Mutated(recorded: string, submitted: string)

  /** How a command is received: unknown, seen with this body, or seen with another. */
  function Decide(command: Command, recorded: Option<Recorded>): Decision {
    var submitted := PayloadChecksum(command.payload);
    match recorded
    case None => Fresh
    case Some(r) => if r.checksum != submitted then Mutated(r.checksum, submitted) else Replay(r.result)
  }

  type Table = map<CommandId, Recorded>

  function Lookup(table: Table, id: CommandId): Option<Recorded> {
    if id in table then Some(table[id]) else None
  }

  const MUTATED_REASON := "This request could not be verified. Please try again."

  function AppliedResult(id: CommandId, seqNo: nat): CommandResult {
    CommandResult(id, Applied, None, Some(seqNo))
  }

  function RejectedResult(id: CommandId, reason: string): CommandResult {
    CommandResult(id, Rejected, Some(reason), None)
  }

  function SupersededResult(id: CommandId): CommandResult {
    CommandResult(id, Superseded, None, None)
  }

  // ----- insert-if-absent -----

  /** The result table as one server process sees it between its own statements. */
  class ResultTable {
    var rows: Table

    constructor ()
      ensures rows == map[]
    {
      rows := map[];
    }

    /** Looks up without writing. */
    method Classify(command: Command) returns (d: Decision)
      ensures d == Decide(command, Lookup(rows, command.id))
    {
      d := Decide(command, if command.id in rows then Some(rows[command.id]) else None);
    }

    /**
     Insert if absent. Whoever comes second is given the first record when the bodies agree and an
     error when they do not; either way the table stays as it was.
     */
    method Record(command: Command, result: CommandResult) returns (r: Result<CommandResult, Decision>)
      modifies this
      ensures rows.Keys == old(rows.Keys) + {command.id}
      ensures forall id :: id in old(rows) ==> rows[id] == old(rows)[id]
      ensures command.id !in old(rows) ==>
        r == Ok(result) && rows[command.id] == Recorded(PayloadChecksum(command.payload), result)
      ensures command.id in old(rows) ==>
        (r.Ok? <==> old(rows)[command.id].checksum == PayloadChecksum(command.payload))
      ensures r.Ok? ==> r.value == rows[command.id].result
    {
      var checksum := PayloadChecksum(command.payload);
      if command.id !in rows {
        rows := rows[command.id := Recorded(checksum, result)];
        return Ok(result);
      }
      var d := Classify(command);
      match d
      case Replay(existing) => r := Ok(existing);
      case _ => r := Err(d);
    }
  }
}
