/** The live loop on the real state file. The transition system of `LiveLoop` writes its disk in one step; the
    program calls `PersistentState.write`, which may break off anywhere (agent/ops/state.py:58-96,
    agent/core.py:180-193, agent/run_live.py:163-204). Every run of the program is a run of the system, and
    what a restarted life loads is the disk of the system. */
module Durable {
  import opened Wrappers
  import opened Canonical
  import opened Receipts
  import opened Engine
  import opened PersistentState
  import opened LiveLoop

  // ---------------------------------------------------------------- the protocol's part of the state file

  // The members of `pending_intent` that say what was about to be sent.
  function PendingMembers(u: Setup, p: Pending): seq<Member> {
    [Member("seq", Number(IntegerLexeme(p.seqNo))), Member("side", Str(SideText(p.decision.side))),
     Member("from_token", Str(p.decision.from)), Member("to_token", Str(p.decision.to)),
     Member("amount_usd", Number(u.repr(p.amount)))]
  }

  predicate PendingShown(u: Setup, v: Json, p: Option<Pending>) {
    match p
    case None => v == Null
    case Some(x) => v.Obj? && |v.members| == 6 && v.members[..5] == PendingMembers(u, x) && v.members[5].key == "ts"
  }

  /** The dictionary shows this snapshot. */
  predicate Shows(u: Setup, dict: Dict, disk: Snapshot) {
    && "intent_seq" in dict && dict["intent_seq"] == Number(IntegerLexeme(disk.intentSeq))
    && "pending_intent" in dict && PendingShown(u, dict["pending_intent"], disk.pending)
  }

  /** What is found under each name in a pending intent that is shown. */
  lemma PendingMeans(u: Setup, v: Json, p: Pending, m: Member)
    requires PendingShown(u, v, Some(p)) && UniqueKeys(v.members) && m in v.members
    ensures m.key == "seq" ==> m.value == Number(IntegerLexeme(p.seqNo))
    ensures m.key == "side" ==> m.value == Str(if p.decision.side == Buy then "buy"
                                               else if p.decision.side == Sell then "sell" else "hold")
    ensures m.key == "from_token" ==> m.value == Str(p.decision.from)
    ensures m.key == "to_token" ==> m.value == Str(p.decision.to)
    ensures m.key == "amount_usd" ==> m.value == Number(u.repr(p.amount))
  {
    var ms, t := v.members, PendingMembers(u, p);
    assert ms[..5] == t;
    assert ms[0] == t[0] && ms[1] == t[1] && ms[2] == t[2] && ms[3] == t[3] && ms[4] == t[4];
    var i :| 0 <= i < 6 && ms[i] == m;
    hide PendingMembers, UniqueKeys, IntegerLexeme;
  }

  /** A dictionary shows one intent number and one pending number only. */
  lemma ShowsOneSnapshot(u: Setup, dict: Dict, a: Snapshot, b: Snapshot)
    requires Shows(u, dict, a) && Shows(u, dict, b)
    ensures a.intentSeq == b.intentSeq && (a.pending.Some? <==> b.pending.Some?)
    ensures a.pending.Some? ==> a.pending.value.seqNo == b.pending.value.seqNo
  {
    IntegerLexemeInjective(a.intentSeq, b.intentSeq);
    if a.pending.Some? {
      var ms, ns := PendingMembers(u, a.pending.value), PendingMembers(u, b.pending.value);
      assert ms[0] == ns[0];
      IntegerLexemeInjective(a.pending.value.seqNo, b.pending.value.seqNo);
    }
  }

  // ---------------------------------------------------------------- deeds

  // The steps that write the state file.
  predicate Writes(step: Step) {
    step.WriteUnreadable? || step.WriteCleared? || step.Stage? || step.WriteTick?
  }

  predicate Deadly(step: Step) {
    step.RaiseError? || step.KillProcess?
  }

  // What the program does: something that leaves the file alone, or an attempt to write a dictionary. A write
  // that breaks off ends the life, by its exception or with the process.
  datatype Deed = Plain(step: Step) | Attempted(step: Step, dict: Dict, fault: Fault, death: Step)

  // The steps of the transition system that amount to the deed.
  function StepsOf(d: Deed): seq<Step> {
    match d
    case Plain(step) => [step]
    case Attempted(step, _, fault, death) =>
      if fault == NoFault then [step] else if Lands(fault) then [step, death] else [death]
  }

  function AllSteps(deeds: seq<Deed>): seq<Step> {
    if deeds == [] then [] else AllSteps(deeds[..|deeds| - 1]) + StepsOf(deeds[|deeds| - 1])
  }

  // The deed can be done in state `s`, and a written dictionary is that of the snapshot then due.
  predicate CanDo(u: Setup, s: State, d: Deed) {
    match d
    case Plain(step) => Enabled(u, s, step) && !Writes(step)
    case Attempted(step, dict, _, death) =>
      Enabled(u, s, step) && Writes(step) && Deadly(death) && Shows(u, DEFAULTS + dict, Effect(u, s, step).disk)
  }

  predicate CanDoAll(u: Setup, deeds: seq<Deed>) {
    deeds == [] ||
    var before := deeds[..|deeds| - 1];
    CanDoAll(u, before) && Possible(u, AllSteps(before))
    && CanDo(u, After(u, AllSteps(before)), deeds[|deeds| - 1])
  }

  // The file after the deeds, as the store leaves it.
  function FileBy(deeds: seq<Deed>): Content {
    if deeds == [] then Missing
    else
      var file, d := FileBy(deeds[..|deeds| - 1]), deeds[|deeds| - 1];
      if d.Plain? then file else FileAfter(file, [Attempt(d.dict, d.fault)])
  }

  lemma PlainKeepsDisk(u: Setup, s: State, step: Step)
    requires Enabled(u, s, step) && !Writes(step)
    ensures Apply(u, s, step).disk == s.disk
  {
    hide NextReceipt, ReceiptCid, Records;
  }

  lemma DeathFollows(u: Setup, s: State, step: Step, death: Step)
    requires Enabled(u, s, step) && Writes(step) && Deadly(death)
    ensures Enabled(u, s, death) && Enabled(u, Apply(u, s, step), death)
    ensures Apply(u, s, death).disk == s.disk
    ensures Apply(u, Apply(u, s, step), death).disk == Effect(u, s, step).disk == Apply(u, s, step).disk
  {
    hide NextReceipt, ReceiptCid, Records, Trades;
  }

  lemma WriteOnce(file: Content, dict: Dict, fault: Fault)
    ensures FileAfter(file, [Attempt(dict, fault)]) == if Lands(fault) then Object(DEFAULTS + dict) else file
  {
    assert [Attempt(dict, fault)][..0] == [];
  }

  /** A deed takes the system to the state whose disk the file shows. */
  lemma DeedSteps(u: Setup, before: seq<Step>, d: Deed, file: Content)
    requires Possible(u, before) && CanDo(u, After(u, before), d)
    requires LoadOf(file).Ok? && Shows(u, LoadOf(file).dict, After(u, before).disk)
    ensures Possible(u, before + StepsOf(d))
    ensures var file' := if d.Plain? then file else FileAfter(file, [Attempt(d.dict, d.fault)]);
            LoadOf(file').Ok? && Shows(u, LoadOf(file').dict, After(u, before + StepsOf(d)).disk)
  {
    hide Possible, After, Apply, Effect, Enabled, Shows, FileAfter;
    var s := After(u, before);
    match d
    case Plain(step) =>
      Extend(u, before, step);
      PlainKeepsDisk(u, s, step);
    case Attempted(step, dict, fault, death) =>
      DeathFollows(u, s, step, death);
      WriteOnce(file, dict, fault);
      assert DEFAULTS + (DEFAULTS + dict) == DEFAULTS + dict;
      if Lands(fault) {
        Extend(u, before, step);
        if fault != NoFault {
          Extend(u, before + [step], death);
          assert before + [step] + [death] == before + [step, death];
        }
      } else {
        Extend(u, before, death);
      }
  }

  /** Whatever the program does, through any broken writes, deaths and restarts, it is a possible run of the
      transition system, so that all that is proved of those runs holds of it; and the state that a life
      would load from the file is the disk of that run. */
  lemma {:induction false} EveryRunIsModelled(u: Setup, deeds: seq<Deed>)
    requires CanDoAll(u, deeds)
    ensures Possible(u, AllSteps(deeds))
    ensures var loaded := LoadOf(FileBy(deeds));
            loaded.Ok? && Shows(u, loaded.dict, After(u, AllSteps(deeds)).disk)
  {
    hide Possible, After, Shows, CanDo;
    if deeds == [] {
      InitialRun(u);
      FreshShown(u);
    } else {
      var before := deeds[..|deeds| - 1];
      EveryRunIsModelled(u, before);
      DeedSteps(u, AllSteps(before), deeds[|deeds| - 1], FileBy(before));
    }
  }

  lemma FreshShown(u: Setup)
    ensures Shows(u, DEFAULTS, Init().disk)
  {
    assert Digits(0) == "0";
  }

  // The next step may be this live call, for this amount.
  predicate AboutToCall(u: Setup, steps: seq<Step>, call: Event, amount: real) {
    && Possible(u, steps)
    && var s := After(u, steps);
       && s.control.Staged? && amount == s.control.order.verdict.amount
       && call == LiveCall(s.next.intentSeq, ReceiptCid(s.control.order.receipt.hash), s.control.order.decision)
  }

  /** The write-ahead rule on the real file: when the executor is called live, the file already shows the
      number of the call and, as pending, its decision and amount. */
  lemma CallFindsIntentInFile(u: Setup, deeds: seq<Deed>, call: Event, amount: real)
    requires CanDoAll(u, deeds) && AboutToCall(u, AllSteps(deeds), call, amount)
    ensures var loaded := LoadOf(FileBy(deeds));
            && loaded.Ok? && call.LiveCall?
            && Shows(u, loaded.dict, Snapshot(call.seqNo, Some(Pending(call.seqNo, call.decision, amount))))
  {
    hide Possible, After, Shows, CanDoAll, LogsAgree, CallsOk, CountsOk, LegalHistory, ToldBy, Records,
      OrderRecorded, Trades;
    EveryRunIsModelled(u, deeds);
    InvHolds(u, AllSteps(deeds));
    var s := After(u, AllSteps(deeds));
    assert s.disk == Snapshot(s.disk.intentSeq, s.disk.pending);
  }
}
