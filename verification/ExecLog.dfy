/** The execution log and the check that binds every order to a committed decision
    (agent/policy/execlog.py). */
module ExecLog {
  import opened Canonical
  import opened Receipts

  // `detail` is the backend's own account of the order: source, market, transaction, amounts.
  datatype Execution = Execution(
    receiptSeq: int, receiptHash: string, cid: string, ts: string, executed: bool, detail: Json)

  /** The record `tick` logs for an order that came from receipt `r`. */
  function ExecutionOf(r: Receipt, executed: bool, detail: Json): Execution {
    Execution(r.seqNo, r.hash, ReceiptCid(r.hash), r.ts, executed, detail)
  }

  /** The receipts indexed by hash; of two with the same hash the later one stays. */
  function ByHash(receipts: seq<Receipt>): (index: map<string, Receipt>)
    ensures forall h :: h in index <==> exists i :: 0 <= i < |receipts| && receipts[i].hash == h
    ensures forall h | h in index :: index[h] in receipts && index[h].hash == h
  {
    if receipts == [] then map[]
    else
      var n := |receipts| - 1;
      assert forall i | 0 <= i < n :: receipts[..n][i] == receipts[i];
      ByHash(receipts[..n])[receipts[n].hash := receipts[n]]
  }

  lemma {:induction false} ByHashKeepsLast(receipts: seq<Receipt>, i: nat)
    requires i < |receipts| && forall k | i < k < |receipts| :: receipts[k].hash != receipts[i].hash
    ensures receipts[i].hash in ByHash(receipts) && ByHash(receipts)[receipts[i].hash] == receipts[i]
  {
    var n := |receipts| - 1;
    if i < n { ByHashKeepsLast(receipts[..n], i); }
  }

  predicate LetThrough(r: Receipt) {
    r.verdict == "allow" || r.verdict == "clamp"
  }

  predicate CidMatches(e: Execution) {
    e.cid == ReceiptCid(e.receiptHash)
  }

  predicate Authorised(e: Execution, index: map<string, Receipt>) {
    e.receiptHash in index && LetThrough(index[e.receiptHash])
  }

  datatype Flaw = CidMismatch | ReceiptNotFound | NotATrade(verdict: string)
  datatype Finding = Finding(receiptHash: string, why: Flaw)
  datatype ExecutionReport = ExecutionReport(ok: bool, count: nat, cidOk: bool, receiptOk: bool, bad: seq<Finding>)

  function FindingsOf(e: Execution, index: map<string, Receipt>): seq<Finding> {
    if !CidMatches(e) then [Finding(e.receiptHash, CidMismatch)]
    else if e.receiptHash !in index then [Finding(e.receiptHash, ReceiptNotFound)]
    else if !LetThrough(index[e.receiptHash]) then [Finding(e.receiptHash, NotATrade(index[e.receiptHash].verdict))]
    else []
  }

  /** What the verifier finds against an order, by its id and the text of the verdict: nothing exactly if it carries the
      id that belongs to its receipt's hash, and the last receipt of that hash says "allow" or "clamp". */
  lemma FindingsMean(e: Execution, receipts: seq<Receipt>, i: nat)
    ensures e.cid != ReceiptCid(e.receiptHash) ==>
              FindingsOf(e, ByHash(receipts)) == [Finding(e.receiptHash, CidMismatch)]
    ensures e.cid == ReceiptCid(e.receiptHash) && (forall r | r in receipts :: r.hash != e.receiptHash) ==>
              FindingsOf(e, ByHash(receipts)) == [Finding(e.receiptHash, ReceiptNotFound)]
    ensures e.cid == ReceiptCid(e.receiptHash) && i < |receipts| && receipts[i].hash == e.receiptHash
              && (forall k | i < k < |receipts| :: receipts[k].hash != e.receiptHash) ==>
              FindingsOf(e, ByHash(receipts))
              == if receipts[i].verdict in ["allow", "clamp"] then []
                 else [Finding(e.receiptHash, NotATrade(receipts[i].verdict))]
  {
    hide ReceiptCid, ByHash;
    if i < |receipts| && forall k | i < k < |receipts| :: receipts[k].hash != receipts[i].hash {
      ByHashKeepsLast(receipts, i);
    }
  }

  function Findings(es: seq<Execution>, index: map<string, Receipt>): seq<Finding> {
    if es == [] then [] else Findings(es[..|es| - 1], index) + FindingsOf(es[|es| - 1], index)
  }

  lemma NoFindings(index: map<string, Receipt>)
    ensures Findings([], index) == []
  {
  }

  lemma FindingsStep(es: seq<Execution>, index: map<string, Receipt>, i: nat)
    requires i < |es|
    ensures Findings(es[..i + 1], index) == Findings(es[..i], index) + FindingsOf(es[i], index)
    ensures FindingsOf(es[i], index) == [] <==> CidMatches(es[i]) && Authorised(es[i], index)
  {
    assert es[..i + 1][..i] == es[..i];
  }

  /** Every logged order carries the id of a receipt in the chain that the policy let through. */
  predicate AllBound(es: seq<Execution>, receipts: seq<Receipt>) {
    forall i | 0 <= i < |es| :: CidMatches(es[i]) && Authorised(es[i], ByHash(receipts))
  }

  method VerifyExecutions(records: seq<Execution>, receipts: seq<Receipt>) returns (report: ExecutionReport)
    ensures report.count == |records|
    ensures report.ok <==> AllBound(records, receipts)
    ensures report.cidOk <==> forall i | 0 <= i < |records| :: CidMatches(records[i])
    ensures report.receiptOk <==>
            forall i | 0 <= i < |records| && CidMatches(records[i]) :: Authorised(records[i], ByHash(receipts))
    ensures report.bad == Findings(records, ByHash(receipts))
    ensures report.ok <==> report.bad == []
  {
    hide ReceiptCid, LetThrough, ByHash, CidMatches, Findings;
    var index := ByHash(receipts);
    var bad := [];
    var cidOk, receiptOk := true, true;
    var i := 0;
    NoFindings(index);
    assert records[..0] == [];
    while i < |records|
      invariant 0 <= i <= |records|
      invariant bad == Findings(records[..i], index)
      invariant cidOk <==> forall k | 0 <= k < i :: CidMatches(records[k])
      invariant receiptOk <==> forall k | 0 <= k < i && CidMatches(records[k]) :: Authorised(records[k], index)
      invariant cidOk && receiptOk <==> bad == []
    {
      var rec := records[i];
      FindingsStep(records, index, i);
      if !CidMatches(rec) {
        cidOk := false;
        bad := bad + [Finding(rec.receiptHash, CidMismatch)];
      } else if rec.receiptHash !in index {
        receiptOk := false;
        bad := bad + [Finding(rec.receiptHash, ReceiptNotFound)];
      } else if !LetThrough(index[rec.receiptHash]) {
        receiptOk := false;
        bad := bad + [Finding(rec.receiptHash, NotATrade(index[rec.receiptHash].verdict))];
      }
      i := i + 1;
    }
    assert records[..i] == records;
    report := ExecutionReport(cidOk && receiptOk, |records|, cidOk, receiptOk, bad);
  }

  /** The execution came from the receipt at index `i`, which the policy let through. */
  predicate CameFrom(e: Execution, receipts: seq<Receipt>, i: nat) {
    && i < |receipts| && LetThrough(receipts[i])
    && e.receiptHash == receipts[i].hash && e.cid == ReceiptCid(receipts[i].hash)
    && e.receiptSeq == receipts[i].seqNo && e.ts == receipts[i].ts
  }

  ghost predicate Sourced(e: Execution, receipts: seq<Receipt>) {
    exists i: nat :: CameFrom(e, receipts, i)
  }

  ghost predicate AllSourced(es: seq<Execution>, receipts: seq<Receipt>) {
    forall k | 0 <= k < |es| :: Sourced(es[k], receipts)
  }

  lemma SourcedGrows(es: seq<Execution>, receipts: seq<Receipt>, r: Receipt)
    requires AllSourced(es, receipts)
    ensures AllSourced(es, receipts + [r])
  {
    forall k | 0 <= k < |es| ensures Sourced(es[k], receipts + [r]) {
      assert Sourced(es[k], receipts);
      var i: nat :| CameFrom(es[k], receipts, i);
      assert CameFrom(es[k], receipts + [r], i);
    }
  }

  lemma SourcedExtends(es: seq<Execution>, receipts: seq<Receipt>, e: Execution, n: nat)
    requires AllSourced(es, receipts) && CameFrom(e, receipts, n)
    ensures AllSourced(es + [e], receipts)
  {
    assert Sourced(e, receipts);
  }

  /** Verifier and producer agree: over a numbered chain with sound hashes, a log in which every record
      came from a let-through receipt passes the check. */
  lemma ProducedLogsAreBound(H: Digest, es: seq<Execution>, receipts: seq<Receipt>)
    requires ChainValid(H, receipts) && Numbered(receipts) && SoundOn(H, Preimages(receipts))
    requires AllSourced(es, receipts)
    ensures AllBound(es, receipts)
  {
    hide SoundOn, ChainValid, ReceiptCid;
    forall k | 0 <= k < |es| ensures CidMatches(es[k]) && Authorised(es[k], ByHash(receipts)) {
      assert Sourced(es[k], receipts);
      var i: nat :| CameFrom(es[k], receipts, i);
      var r := ByHash(receipts)[es[k].receiptHash];
      var j: nat :| 0 <= j < |receipts| && receipts[j] == r;
      if i < j { HashesDistinct(H, receipts, i, j); }
      if j < i { HashesDistinct(H, receipts, j, i); }
    }
  }
}
