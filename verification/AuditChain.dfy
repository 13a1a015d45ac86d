/** The hash chain: `verify_chain` of src/audit/chain.py over the rows and the
    stored head of src/audit/repository.py.  SHA-256 is an arbitrary function
    `h`; no theorem assumes that it has no collisions. */
module AuditChain {
  import opened Text
  import opened AuditEntry

  function Zeros(n: nat): string {
    if n == 0 then "" else Zeros(n - 1) + "0"
  }

  const GENESIS: string := Zeros(64)

  type Hash = string -> string

  datatype Row = Row(entry: Entry, prevHash: string, entryHash: string)

  datatype Reason = SequenceGap | PrevHashMismatch | EntryHashMismatch | HeadMismatch

  datatype Verdict = Verdict(
    valid: bool,
    entryCount: nat,
    headHash: string,
    firstInvalid: Option<int>,
    reason: Option<Reason>)

  /** What row `k` has to link to. */
  function HashBefore(rows: seq<Row>, k: nat): string
    requires k <= |rows|
  {
    if k == 0 then GENESIS else rows[k - 1].entryHash
  }

  /** The first check row `k` fails, taking the rows before it as given. */
  function Fault(h: Hash, rows: seq<Row>, k: nat): Option<Reason>
    requires k < |rows|
  {
    if rows[k].entry.sequence != k + 1 then Some(SequenceGap)
    else if rows[k].prevHash != HashBefore(rows, k) then Some(PrevHashMismatch)
    else if h(Preimage(HashBefore(rows, k), rows[k].entry)) != rows[k].entryHash then Some(EntryHashMismatch)
    else None
  }

  /** Every row links to the one before it. */
  ghost predicate Chained(h: Hash, rows: seq<Row>) {
    forall k :: 0 <= k < |rows| ==> Fault(h, rows, k) == None
  }

  /** What a verdict on these rows and this expected head has to say. */
  ghost predicate Diagnoses(h: Hash, rows: seq<Row>, expected: Option<string>, v: Verdict) {
    if Chained(h, rows) then
      var head := HashBefore(rows, |rows|);
      if expected.None? || expected.value == head then v == Verdict(true, |rows|, head, None, None)
      else v == Verdict(false, |rows|, head, None, Some(HeadMismatch))
    else
      exists k :: 0 <= k < |rows| && FailsFirst(h, rows, k)
               && v == Verdict(false, k + 1, HashBefore(rows, k), Some(rows[k].entry.sequence), Fault(h, rows, k))
  }

  ghost predicate FailsFirst(h: Hash, rows: seq<Row>, k: nat)
    requires k < |rows|
  {
    Fault(h, rows, k).Some? && forall i :: 0 <= i < k ==> Fault(h, rows, i) == None
  }

  /** `verify_chain`. */
  method VerifyChain(h: Hash, rows: seq<Row>, expected: Option<string>) returns (v: Verdict)
    ensures Diagnoses(h, rows, expected, v)
    ensures v == Diagnosis(h, rows, expected)
  {
    hide Diagnoses, Diagnosis, FirstFault, Preimage;
    var prevHash, expectedSequence, count := GENESIS, 1, 0;
    while count < |rows|
      invariant 0 <= count <= |rows| && expectedSequence == count + 1
      invariant prevHash == HashBefore(rows, count)
      invariant forall k :: 0 <= k < count ==> Fault(h, rows, k) == None
    {
      var row := rows[count];
      count := count + 1;
      if row.entry.sequence != expectedSequence {
        v := Verdict(false, count, prevHash, Some(row.entry.sequence), Some(SequenceGap));
        FailureVerdict(h, rows, expected, count - 1);
        return;
      }
      if row.prevHash != prevHash {
        v := Verdict(false, count, prevHash, Some(row.entry.sequence), Some(PrevHashMismatch));
        FailureVerdict(h, rows, expected, count - 1);
        return;
      }
      var recomputed := h(Preimage(prevHash, row.entry));
      if recomputed != row.entryHash {
        v := Verdict(false, count, prevHash, Some(row.entry.sequence), Some(EntryHashMismatch));
        FailureVerdict(h, rows, expected, count - 1);
        return;
      }
      prevHash := recomputed;
      expectedSequence := expectedSequence + 1;
    }
    if expected.Some? && expected.value != prevHash {
      v := Verdict(false, count, prevHash, None, Some(HeadMismatch));
    } else {
      v := Verdict(true, count, prevHash, None, None);
    }
    ChainedVerdict(h, rows, expected, v);
  }

  lemma ChainedVerdict(h: Hash, rows: seq<Row>, expected: Option<string>, v: Verdict)
    requires Chained(h, rows)
    requires var head := HashBefore(rows, |rows|);
             v == if expected.Some? && expected.value != head
                  then Verdict(false, |rows|, head, None, Some(HeadMismatch))
                  else Verdict(true, |rows|, head, None, None)
    ensures Diagnoses(h, rows, expected, v) && v == Diagnosis(h, rows, expected)
  {
    DiagnosisIsUnique(h, rows, expected, v);
  }

  lemma FailureVerdict(h: Hash, rows: seq<Row>, expected: Option<string>, k: nat)
    requires k < |rows| && FailsFirst(h, rows, k)
    ensures var v := Verdict(false, k + 1, HashBefore(rows, k), Some(rows[k].entry.sequence), Fault(h, rows, k));
            Diagnoses(h, rows, expected, v) && v == Diagnosis(h, rows, expected)
  {
    hide Fault;
    assert !Chained(h, rows);
    var v := Verdict(false, k + 1, HashBefore(rows, k), Some(rows[k].entry.sequence), Fault(h, rows, k));
    assert Diagnoses(h, rows, expected, v);
    DiagnosisIsUnique(h, rows, expected, v);
  }

  /** Index of the first faulty row, or the number of rows. */
  function FirstFault(h: Hash, rows: seq<Row>, from: nat): (k: nat)
    requires from <= |rows|
    ensures from <= k <= |rows|
    ensures forall i :: from <= i < k ==> Fault(h, rows, i) == None
    ensures k < |rows| ==> Fault(h, rows, k).Some?
    decreases |rows| - from
  {
    if from == |rows| || Fault(h, rows, from).Some? then from else FirstFault(h, rows, from + 1)
  }

  /** The verdict as a function, for reasoning about several calls. */
  function Diagnosis(h: Hash, rows: seq<Row>, expected: Option<string>): Verdict {
    var k := FirstFault(h, rows, 0);
    if k < |rows| then
      Verdict(false, k + 1, HashBefore(rows, k), Some(rows[k].entry.sequence), Fault(h, rows, k))
    else
      var head := HashBefore(rows, |rows|);
      if expected.Some? && expected.value != head then Verdict(false, |rows|, head, None, Some(HeadMismatch))
      else Verdict(true, |rows|, head, None, None)
  }

  /** The diagnosis is determined: the least faulty row with its first failing
      check, the head only when every row chains. */
  lemma DiagnosisIsUnique(h: Hash, rows: seq<Row>, expected: Option<string>, v: Verdict)
    ensures Diagnoses(h, rows, expected, v) <==> v == Diagnosis(h, rows, expected)
  {
    hide Fault;
    var k := FirstFault(h, rows, 0);
    if k < |rows| {
      assert FailsFirst(h, rows, k);
      assert forall i :: 0 <= i < |rows| && FailsFirst(h, rows, i) ==> i == k;
    }
  }

  // ------------------------------------------------------------ the stored log

  /** The audit table, in ascending sequence as every query lists it, and the head
      kept in schema_metadata. */
  datatype Log = Log(rows: seq<Row>, head: Option<string>)

  datatype Call = Call(
    requester: Option<string>,
    action: string,
    targetType: string,
    targetIdentifier: string,
    result: string,
    now: string)

  const EMPTY := Log([], None)

  /** The entry `log_denied_access` writes. */
  function DeniedCall(requester: string, targetType: string, targetIdentifier: string, now: string): Call {
    Call(Some(requester), "ACCESS_DENIED", targetType, targetIdentifier, "DENIED", now)
  }

  /** Who was denied what, written out. */
  lemma DeniedIs(requester: string, targetType: string, targetIdentifier: string, now: string)
    ensures DeniedCall(requester, targetType, targetIdentifier, now)
         == Call(Some(requester), "ACCESS_DENIED", targetType, targetIdentifier, "DENIED", now)
  {
  }

  /** The row `log` inserts after the given ones. */
  function NextRow(h: Hash, rows: seq<Row>, call: Call): Row {
    var sequence := if rows == [] then 1 else rows[|rows| - 1].entry.sequence + 1;
    var prevHash := HashBefore(rows, |rows|);
    var entry := Entry(sequence, call.requester, call.action, call.targetType,
                       call.targetIdentifier, call.result, call.now);
    Row(entry, prevHash, h(Preimage(prevHash, entry)))
  }

  /** `AuditRepository.log`: link to the last row, then replace the stored head. */
  function Append(h: Hash, log: Log, call: Call): Log {
    var row := NextRow(h, log.rows, call);
    Log(log.rows + [row], Some(row.entryHash))
  }

  function AppendAll(h: Hash, log: Log, calls: seq<Call>): Log {
    if calls == [] then log
    else Append(h, AppendAll(h, log, calls[..|calls| - 1]), calls[|calls| - 1])
  }

  /** `AuditRepository.verify`. */
  function Verify(h: Hash, log: Log): Verdict {
    Diagnosis(h, log.rows, if log.rows == [] then None else log.head)
  }

  // ----------------------------------------------------------- tamper evidence

  /** A log any sequence of `log` calls leaves chains, and its head is the last hash. */
  lemma {:induction false} GenuineChains(h: Hash, calls: seq<Call>)
    ensures var log := AppendAll(h, EMPTY, calls);
            && |log.rows| == |calls| && Chained(h, log.rows)
            && log.head == (if calls == [] then None else Some(HashBefore(log.rows, |calls|)))
  {
    if calls != [] {
      var before := AppendAll(h, EMPTY, calls[..|calls| - 1]);
      GenuineChains(h, calls[..|calls| - 1]);
      AppendChains(h, before.rows, calls[|calls| - 1]);
    }
  }

  /** The row `log` adds never breaks a chain, and never mends one. */
  lemma AppendChains(h: Hash, rows: seq<Row>, call: Call)
    ensures var after := rows + [NextRow(h, rows, call)];
            && (forall k :: 0 <= k < |rows| ==> Fault(h, after, k) == Fault(h, rows, k))
            && (Chained(h, after) <==> Chained(h, rows))
  {
    var after := rows + [NextRow(h, rows, call)];
    assert forall k :: 0 <= k <= |rows| ==> HashBefore(after, k) == HashBefore(rows, k);
    forall k | 0 <= k < |rows| ensures Fault(h, after, k) == Fault(h, rows, k) {
      assert after[k] == rows[k];
    }
    if Chained(h, rows) {
      assert rows != [] ==> Fault(h, rows, |rows| - 1) == None;
      assert Fault(h, after, |rows|) == None;
    } else {
      var k :| 0 <= k < |rows| && Fault(h, rows, k) != None;
      assert Fault(h, after, k) != None;
    }
  }

  function HashedText(row: Row): string {
    Preimage(row.prevHash, row.entry)
  }

  /** Two different texts hashed by the two tables, with the same hash. */
  ghost predicate Collides(h: Hash, a: seq<Row>, b: seq<Row>) {
    exists i, j :: 0 <= i < |a| && 0 <= j < |b| && HashedText(a[i]) != HashedText(b[j])
                && h(HashedText(a[i])) == h(HashedText(b[j]))
  }

  lemma ChainedRow(h: Hash, rows: seq<Row>, k: nat)
    requires Chained(h, rows) && k < |rows|
    ensures rows[k].entry.sequence == k + 1 && rows[k].prevHash == HashBefore(rows, k)
    ensures rows[k].entryHash == h(HashedText(rows[k]))
  {
    assert Fault(h, rows, k) == None;
  }

  /** Two rows with the same hash agree on everything, or collide. */
  lemma SameHashSameRow(h: Hash, a: seq<Row>, i: nat, b: seq<Row>, j: nat)
    requires Chained(h, a) && Chained(h, b) && i < |a| && j < |b|
    requires a[i].entryHash == b[j].entryHash
    ensures Collides(h, a, b) || (i == j && a[i] == b[j])
  {
    ChainedRow(h, a, i);
    ChainedRow(h, b, j);
    if HashedText(a[i]) == HashedText(b[j]) {
      PreimageInjective(a[i].prevHash, a[i].entry, b[j].prevHash, b[j].entry);
    }
  }

  /** Backward from a shared hash: the rows up to it are the same, or collide. */
  lemma {:induction false} SamePrefix(h: Hash, a: seq<Row>, b: seq<Row>, n: nat)
    requires Chained(h, a) && Chained(h, b) && n <= |a| && n <= |b|
    requires n > 0 ==> a[n - 1].entryHash == b[n - 1].entryHash
    ensures Collides(h, a, b) || a[..n] == b[..n]
  {
    hide Chained, Fault, Collides;
    if n > 0 {
      SameHashSameRow(h, a, n - 1, b, n - 1);
      if !Collides(h, a, b) {
        ChainedRow(h, a, n - 1);
        ChainedRow(h, b, n - 1);
        SamePrefix(h, a, b, n - 1);
        assert a[..n] == a[..n - 1] + [a[n - 1]] && b[..n] == b[..n - 1] + [b[n - 1]];
      }
    }
  }

  /** Tamper evidence.  Take the log any non-empty sequence of calls built, replace
      its table by any non-empty one, and keep the stored head: if `verify` accepts,
      the table is the genuine one in every hashed field and hash, or two different
      hashed texts of the two tables have the same hash. */
  lemma TamperEvident(h: Hash, calls: seq<Call>, table: seq<Row>)
    requires calls != [] && table != []
    requires Verify(h, Log(table, AppendAll(h, EMPTY, calls).head)).valid
    ensures table == AppendAll(h, EMPTY, calls).rows || Collides(h, table, AppendAll(h, EMPTY, calls).rows)
  {
    hide Fault, NextRow, AppendAll, Chained, Collides, Verify, HashedText;
    var genuine := AppendAll(h, EMPTY, calls).rows;
    GenuineChains(h, calls);
    VerifyAccepts(h, Log(table, AppendAll(h, EMPTY, calls).head));
    SameHashSameRow(h, table, |table| - 1, genuine, |genuine| - 1);
    if !Collides(h, table, genuine) {
      SamePrefix(h, table, genuine, |table|);
      assert table == table[..|table|] && genuine == genuine[..|table|];
    }
  }

  /** The exact reach of `verify`: rows are compared with the stored head unless
      the table is empty or nothing was ever logged. */
  lemma VerifyAccepts(h: Hash, log: Log)
    ensures Verify(h, log).valid <==>
            && Chained(h, log.rows)
            && (log.rows == [] || log.head.None? || log.head.value == HashBefore(log.rows, |log.rows|))
  {
  }

  /** Outside those limits tampering goes unseen: an emptied table is accepted, and
      so are rows forged before the first genuine entry. */
  lemma LimitsOfVerify(h: Hash, calls: seq<Call>, forged: seq<Call>)
    ensures Verify(h, Log([], AppendAll(h, EMPTY, calls).head)).valid
    ensures Verify(h, Log(AppendAll(h, EMPTY, forged).rows, EMPTY.head)).valid
  {
    GenuineChains(h, forged);
  }

  // ---------------------------------------------------------------- no healing

  lemma {:induction false} AppendAllKeeps(h: Hash, log: Log, calls: seq<Call>)
    ensures var after := AppendAll(h, log, calls);
            && |after.rows| == |log.rows| + |calls| && after.rows[..|log.rows|] == log.rows
            && (forall k :: 0 <= k < |log.rows| ==> Fault(h, after.rows, k) == Fault(h, log.rows, k))
            && (Chained(h, after.rows) <==> Chained(h, log.rows))
            && (calls != [] ==> after.head == Some(HashBefore(after.rows, |after.rows|)))
  {
    if calls != [] {
      var before := AppendAll(h, log, calls[..|calls| - 1]);
      AppendAllKeeps(h, log, calls[..|calls| - 1]);
      AppendChains(h, before.rows, calls[|calls| - 1]);
      hide Fault;
      assert AppendAll(h, log, calls).rows[..|log.rows|] == before.rows[..|log.rows|];
    }
  }

  /** A row-level fault is reported unchanged after any number of later calls. */
  lemma NoHealing(h: Hash, log: Log, calls: seq<Call>)
    requires !Chained(h, log.rows)
    ensures !Verify(h, log).valid
    ensures Verify(h, AppendAll(h, log, calls)) == Verify(h, log)
  {
    var after := AppendAll(h, log, calls);
    AppendAllKeeps(h, log, calls);
    var k := FirstFault(h, log.rows, 0);
    assert k < |log.rows|;
    hide Fault, AppendAll, Chained;
    assert FirstFault(h, after.rows, 0) == k;
    assert after.rows[k] == after.rows[..|log.rows|][k];
    assert k > 0 ==> after.rows[k - 1] == after.rows[..|log.rows|][k - 1];
  }

  /** A head mismatch is healed by the next call: from then on `verify` accepts
      exactly the tables whose own rows chain, so a truncation is only seen before
      the log is written again. */
  lemma HeadIsHealed(h: Hash, log: Log, calls: seq<Call>)
    requires calls != []
    ensures Verify(h, AppendAll(h, log, calls)).valid <==> Chained(h, log.rows)
  {
    AppendAllKeeps(h, log, calls);
    VerifyAccepts(h, AppendAll(h, log, calls));
  }

  // ------------------------------------------------- the verdict, check by check

  /** Sixty-four zeros. */
  predicate AllZeros(s: string) {
    |s| == 64 && forall i :: 0 <= i < 64 ==> s[i] == '0'
  }

  lemma {:induction false} ZerosAre(n: nat)
    ensures |Zeros(n)| == n && forall i :: 0 <= i < n ==> Zeros(n)[i] == '0'
  {
    if n > 0 {
      ZerosAre(n - 1);
    }
  }

  lemma GenesisMeans(s: string)
    ensures s == GENESIS <==> AllZeros(s)
  {
    hide Zeros;
    ZerosAre(64);
  }

  /** `link` is what row `k` has to link to: sixty-four zeros, or the hash before it. */
  predicate IsLink(rows: seq<Row>, k: nat, link: string) {
    && k <= |rows|
    && (k == 0 ==> AllZeros(link))
    && (k > 0 ==> link == rows[k - 1].entryHash)
  }

  /** Row `k` is the next in number, links to the row before it, and its hash is that of
      the link, a bar and the entry's text. */
  predicate RowHolds(h: Hash, rows: seq<Row>, k: nat) {
    && k < |rows|
    && rows[k].entry.sequence == k + 1
    && IsLink(rows, k, rows[k].prevHash)
    && rows[k].entryHash == h(rows[k].prevHash + "|" + Canonical(rows[k].entry))
  }

  /** The first of these checks that row `k` fails. */
  predicate RowFails(h: Hash, rows: seq<Row>, k: nat, reason: Reason) {
    && k < |rows|
    && match reason
       case SequenceGap => rows[k].entry.sequence != k + 1
       case PrevHashMismatch => rows[k].entry.sequence == k + 1 && !IsLink(rows, k, rows[k].prevHash)
       case EntryHashMismatch =>
         && rows[k].entry.sequence == k + 1 && IsLink(rows, k, rows[k].prevHash)
         && rows[k].entryHash != h(rows[k].prevHash + "|" + Canonical(rows[k].entry))
       case HeadMismatch => false
  }

  /** A verdict on one row that fails, all before it being right. */
  ghost predicate BlamesRow(h: Hash, rows: seq<Row>, k: nat, reason: Reason, v: Verdict) {
    && RowFails(h, rows, k, reason) && (forall i: nat :: i < k ==> RowHolds(h, rows, i))
    && !v.valid && v.entryCount == k + 1 && v.firstInvalid == Some(rows[k].entry.sequence)
    && v.reason == Some(reason) && IsLink(rows, k, v.headHash)
  }

  /** A verdict when all rows are right: it is the stored head that decides. */
  ghost predicate WeighsHead(h: Hash, log: Log, v: Verdict) {
    && (forall i: nat :: i < |log.rows| ==> RowHolds(h, log.rows, i))
    && v.entryCount == |log.rows| && v.firstInvalid == None && IsLink(log.rows, |log.rows|, v.headHash)
    && (v.valid <==> log.rows == [] || log.head == None || log.head == Some(v.headHash))
    && v.reason == (if v.valid then None else Some(HeadMismatch))
  }

  lemma FaultMeans(h: Hash, rows: seq<Row>, k: nat)
    requires k < |rows|
    ensures Fault(h, rows, k) == None <==> RowHolds(h, rows, k)
    ensures forall reason :: Fault(h, rows, k) == Some(reason) <==> RowFails(h, rows, k, reason)
  {
    hide Canonical;
    LinkIs(rows, k, rows[k].prevHash);
  }

  lemma LinkIs(rows: seq<Row>, k: nat, link: string)
    requires k <= |rows|
    ensures IsLink(rows, k, link) <==> link == HashBefore(rows, k)
  {
    GenesisMeans(link);
  }

  lemma FaultsMean(h: Hash, rows: seq<Row>)
    ensures forall k: nat :: k < |rows| ==> (Fault(h, rows, k) == None <==> RowHolds(h, rows, k))
    ensures forall k: nat, reason :: k < |rows| ==>
              (Fault(h, rows, k) == Some(reason) <==> RowFails(h, rows, k, reason))
  {
    hide Fault, RowHolds, RowFails;
    forall k: nat | k < |rows|
      ensures Fault(h, rows, k) == None <==> RowHolds(h, rows, k)
      ensures forall reason :: Fault(h, rows, k) == Some(reason) <==> RowFails(h, rows, k, reason)
    {
      FaultMeans(h, rows, k);
    }
  }

  lemma BlameIsVerdict(h: Hash, log: Log, k: nat, reason: Reason, v: Verdict)
    requires BlamesRow(h, log.rows, k, reason, v)
    ensures v == Verify(h, log)
  {
    FaultsMean(h, log.rows);
    LinkIs(log.rows, k, v.headHash);
    hide Fault, IsLink, RowHolds;
    assert Fault(h, log.rows, k) == Some(reason);
    assert FirstFault(h, log.rows, 0) == k;
  }

  lemma HeadIsVerdict(h: Hash, log: Log, v: Verdict)
    requires WeighsHead(h, log, v)
    ensures v == Verify(h, log)
  {
    FaultsMean(h, log.rows);
    LinkIs(log.rows, |log.rows|, v.headHash);
    hide Fault, IsLink, RowHolds, RowFails;
    assert FirstFault(h, log.rows, 0) == |log.rows|;
  }

  lemma VerdictIsExplained(h: Hash, log: Log)
    ensures WeighsHead(h, log, Verify(h, log))
         || exists k: nat, reason :: BlamesRow(h, log.rows, k, reason, Verify(h, log))
  {
    FaultsMean(h, log.rows);
    hide Fault, IsLink, RowHolds, RowFails;
    var v, k := Verify(h, log), FirstFault(h, log.rows, 0);
    LinkIs(log.rows, k, v.headHash);
    if k < |log.rows| {
      assert BlamesRow(h, log.rows, k, Fault(h, log.rows, k).value, v);
    }
  }

  /** Verification as its checks: the first row that is out of number, does not link or
      does not hash is blamed, with the first of these reasons; when every row is right the
      stored head is compared, unless there are no rows or none was ever stored. */
  lemma VerdictMeans(h: Hash, log: Log, v: Verdict)
    ensures v == Verify(h, log)
       <==> WeighsHead(h, log, v) || exists k: nat, reason :: BlamesRow(h, log.rows, k, reason, v)
  {
    hide Verify, WeighsHead, BlamesRow;
    VerdictIsExplained(h, log);
    if WeighsHead(h, log, v) {
      HeadIsVerdict(h, log, v);
    }
    forall k: nat, reason | BlamesRow(h, log.rows, k, reason, v) ensures v == Verify(h, log) {
      BlameIsVerdict(h, log, k, reason, v);
    }
  }

  /** Row `k` records this call: it is the `k+1`-st entry with the call's fields, it links
      to the row before it, and its hash is that of the link, a bar and the entry's text. */
  predicate Records(h: Hash, rows: seq<Row>, k: nat, call: Call) {
    && k < |rows|
    && rows[k].entry == Entry(k + 1, call.requester, call.action, call.targetType, call.targetIdentifier,
                              call.result, call.now)
    && IsLink(rows, k, rows[k].prevHash)
    && rows[k].entryHash == h(rows[k].prevHash + "|" + Canonical(rows[k].entry))
  }

  /** A log records its calls one after the other, and its stored head is the last hash. */
  ghost predicate RecordsAll(h: Hash, log: Log, calls: seq<Call>) {
    && |log.rows| == |calls|
    && (forall k: nat :: k < |calls| ==> Records(h, log.rows, k, calls[k]))
    && (calls == [] ==> log.head == None)
    && (calls != [] ==> log.head == Some(log.rows[|calls| - 1].entryHash))
  }

  lemma {:induction false} LogMeans(h: Hash, calls: seq<Call>)
    ensures RecordsAll(h, AppendAll(h, EMPTY, calls), calls)
  {
    hide Append, RecordsAll;
    if calls == [] {
      NothingRecorded(h);
    } else {
      var n := |calls| - 1;
      LogMeans(h, calls[..n]);
      AppendRecords(h, AppendAll(h, EMPTY, calls[..n]), calls[..n], calls[n]);
      assert calls[..n] + [calls[n]] == calls;
    }
  }

  lemma NothingRecorded(h: Hash)
    ensures RecordsAll(h, EMPTY, [])
  {
  }

  /** One more call is recorded behind the others. */
  lemma AppendRecords(h: Hash, log: Log, calls: seq<Call>, call: Call)
    requires RecordsAll(h, log, calls)
    ensures RecordsAll(h, Append(h, log, call), calls + [call])
    ensures Records(h, Append(h, log, call).rows, |log.rows|, call)
  {
    hide Records, NextRow;
    var row, all := NextRow(h, log.rows, call), calls + [call];
    if log.rows != [] {
      NumbersAre(h, log, calls);
    }
    NextRecords(h, log.rows, call);
    forall k: nat | k < |all| ensures Records(h, log.rows + [row], k, all[k]) {
      if k < |calls| {
        StillRecords(h, log.rows, row, k, calls[k]);
      }
    }
  }

  lemma NumbersAre(h: Hash, log: Log, calls: seq<Call>)
    requires RecordsAll(h, log, calls) && log.rows != []
    ensures log.rows[|log.rows| - 1].entry.sequence == |log.rows|
  {
    hide Canonical, IsLink;
    assert Records(h, log.rows, |calls| - 1, calls[|calls| - 1]);
  }

  lemma NextRecords(h: Hash, rows: seq<Row>, call: Call)
    requires rows != [] ==> rows[|rows| - 1].entry.sequence == |rows|
    ensures Records(h, rows + [NextRow(h, rows, call)], |rows|, call)
  {
    hide Canonical;
    var after := rows + [NextRow(h, rows, call)];
    LinkIs(after, |rows|, after[|rows|].prevHash);
  }

  lemma StillRecords(h: Hash, rows: seq<Row>, row: Row, k: nat, call: Call)
    requires Records(h, rows, k, call)
    ensures Records(h, rows + [row], k, call)
  {
    hide Canonical, AllZeros;
  }
}
