/** The audit table as an object: src/audit/repository.py. */
module AuditRepository {
  import opened Text
  import opened AuditEntry
  import opened AuditChain

  class Repository {
    const h: Hash
    var rows: seq<Row>
    var head: Option<string>

    function State(): Log
      reads this
    {
      Log(rows, head)
    }

    constructor (h: Hash)
      ensures this.h == h && State() == EMPTY
    {
      this.h := h;
      rows := [];
      head := None;
    }

    /** One transaction: read the last row, insert the next, replace the head. */
    method Append(call: Call)
      modifies this
      ensures State() == AuditChain.Append(h, old(State()), call)
    {
      var sequence, prevHash := 1, GENESIS;
      if rows != [] {
        var last := rows[|rows| - 1];
        sequence := last.entry.sequence + 1;
        prevHash := last.entryHash;
      }
      var entry := Entry(sequence, call.requester, call.action, call.targetType,
                         call.targetIdentifier, call.result, call.now);
      var entryHash := h(Preimage(prevHash, entry));
      rows := rows + [Row(entry, prevHash, entryHash)];
      head := Some(entryHash);
    }

    method DeniedAccess(requester: string, targetType: string, targetIdentifier: string, now: string)
      modifies this
      ensures State() == AuditChain.Append(h, old(State()),
                           Call(Some(requester), "ACCESS_DENIED", targetType, targetIdentifier, "DENIED", now))
    {
      Append(DeniedCall(requester, targetType, targetIdentifier, now));
    }

    /** The verdict is on the rows and, unless there are none, the stored head. */
    method Verify() returns (v: Verdict)
      ensures v == AuditChain.Verify(h, State())
      ensures v.valid <==> Chained(h, rows) && (rows == [] || head.None? || head.value == HashBefore(rows, |rows|))
    {
      v := VerifyChain(h, rows, if rows == [] then None else head);
      VerifyAccepts(h, State());
    }
  }
}
