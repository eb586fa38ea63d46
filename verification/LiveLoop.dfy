/** The crash-recoverable trade protocol (agent/run_live.py:139-225, agent/core.py:127-219) as a transition
    system. A state is what is on disk, what the process holds in memory, the two logs, and the control
    point; a step is one effect of the source, and the process or the coroutine may die before any step. */
module LiveLoop {
  import opened Wrappers
  import opened Canonical
  import opened Receipts
  import opened ExecLog
  import opened Ladder
  import opened Engine

  const MAX_RESTARTS: nat := 3

  datatype Pending = Pending(seqNo: nat, decision: Decision, amount: real)

  // The protocol's part of the state file.
  datatype Snapshot = Snapshot(intentSeq: nat, pending: Option<Pending>)

  // `repr` is Python's text of a float. `live` is the executor's mode; `reconciles` says that chain balances
  // are read before each decision.
  datatype Setup = Setup(H: Digest, repr: real -> string, policyHash: string, cfg: Config, live: bool, reconciles: bool)

  // A recorded decision: the engine's verdict on it and the receipt that commits it.
  datatype Order = Order(decision: Decision, verdict: Verdict, receipt: Receipt)

  function SideText(side: Side): string {
    match side
    case Buy => "buy"
    case Sell => "sell"
    case Stay => "hold"
  }

  // The members of `Decision.to_dict()` that say what is traded.
  function TradeMembers(u: Setup, d: Decision): seq<Member> {
    [Member("side", Str(SideText(d.side))), Member("chain", Str(d.chain)), Member("from_token", Str(d.from)),
     Member("to_token", Str(d.to)), Member("amount_usd", Number(u.repr(d.amount)))]
  }

  /** The JSON value is the dictionary of decision `d`, with some confidence and rationale. */
  predicate Records(u: Setup, v: Json, d: Decision) {
    && v.Obj? && |v.members| == 7 && v.members[..5] == TradeMembers(u, d)
    && v.members[5].key == "confidence" && v.members[6].key == "rationale"
  }

  /** What is found under each name in the dictionary of a decision. */
  lemma RecordsMeans(u: Setup, v: Json, d: Decision, m: Member)
    requires Records(u, v, d) && UniqueKeys(v.members) && m in v.members
    ensures m.key == "side" ==>
              m.value == Str(if d.side == Buy then "buy" else if d.side == Sell then "sell" else "hold")
    ensures m.key == "chain" ==> m.value == Str(d.chain)
    ensures m.key == "from_token" ==> m.value == Str(d.from)
    ensures m.key == "to_token" ==> m.value == Str(d.to)
    ensures m.key == "amount_usd" ==> m.value == Number(u.repr(d.amount))
  {
    var ms := v.members;
    assert ms[..5] == TradeMembers(u, d);
    var t := TradeMembers(u, d);
    assert ms[0] == t[0] && ms[1] == t[1] && ms[2] == t[2] && ms[3] == t[3] && ms[4] == t[4];
    var i :| 0 <= i < 7 && ms[i] == m;
    hide TradeMembers, UniqueKeys;
  }

  /** A dictionary records one decision only, if the texts of the amounts compared tell them apart. */
  lemma RecordsOneDecision(u: Setup, v: Json, d: Decision, e: Decision)
    requires Records(u, v, d) && Records(u, v, e) && (u.repr(d.amount) == u.repr(e.amount) ==> d.amount == e.amount)
    ensures d == e
  {
    var ms, ns := TradeMembers(u, d), TradeMembers(u, e);
    assert ms[0] == ns[0] && ms[1] == ns[1] && ms[2] == ns[2] && ms[3] == ns[3] && ms[4] == ns[4];
    assert |SideText(Buy)| == 3 && SideText(Sell)[0] == 's' && SideText(Stay)[0] == 'h';
  }

  datatype Control =
    | Idle                          // no run in progress
    | Watching                      // the watchdog, between two lives of the loop
    | Top                           // the head of the loop
    | Unreadable                    // the chain could not be read; the state is about to be written
    | Marked                        // reconciled and marked to market
    | Clearing(seqNo: nat)          // the pending flag is dropped in memory, not yet on disk
    | Recorded(order: Order)        // the receipt is appended
    | Staged(order: Order)          // the intent is on disk
    | Calling(order: Order)         // the executor has been called
    | Answered(order: Order, executed: bool)
    | Finishing                     // the tick is about to return its new state
    | Ending                        // the loop holds the new state; the end-of-tick write is due

  datatype Event =
    | RunStarted
    | LifeStarted
    | ReconcileFailed
    | Reconciled
    | FlagCleared(seqNo: nat)
    | Decided
    | IntentStaged(seqNo: nat)
    | LiveCall(seqNo: nat, cid: string, decision: Decision)
    | SimulatedCall(cid: string, decision: Decision)
    | TickWritten
    | Died

  datatype State = State(
    disk: Snapshot,
    mem: Snapshot,                  // the loop's `state`
    next: Snapshot,                 // the tick's `new_state`
    receipts: seq<Receipt>,
    executions: seq<Execution>,
    control: Control,
    restarts: nat,
    history: seq<Event>)

  const FRESH: Snapshot := Snapshot(0, None)

  function Init(): State {
    State(FRESH, FRESH, FRESH, [], [], Idle, 0, [])
  }

  // The verdict field of a receipt.
  function VerdictText(v: Verdict): string {
    if v.kind == HoldKind then "hold"
    else match v.action
      case Allow => "allow"
      case Clamp => "clamp"
      case Reject => "reject"
  }

  /** The text says what the engine did: "hold" for what is no trade, "reject" exactly for what breaks a rule, "allow"
      for what it lets through as asked, "clamp" for what it lets through cut down. */
  lemma VerdictTextMeans(cfg: Config, d: Decision, p: PortfolioView, dataAge: real)
    ensures var text := VerdictText(Check(cfg, d, p, dataAge));
            if d.side == Stay || d.amount <= 0.0 then text == "hold"
            else if exists rule :: Breaks(cfg, d, p, dataAge, rule) then text == "reject"
            else
              var times := if RungAt(cfg.ladder, p.drawdown) == HalveSize then 2.0 else 1.0;
              var asked := AskedUsd(cfg, d, p);
              text == if asked == d.amount && WithinCaps(cfg, p, times, asked) then "allow" else "clamp"
  {
    RejectsFirstBroken(cfg, d, p, dataAge);
    hide RungAt, Breaks, AskedUsd, WithinCaps, ReachesCap;
    var v := Check(cfg, d, p, dataAge);
    if IsTrade(d) && Allowed(v) { AllowedSize(cfg, d, p, dataAge); }
    hide Check;
  }

  predicate Trades(o: Order) {
    Allowed(o.verdict) && IsTrade(o.decision)
  }

  // ---------------------------------------------------------------- steps

  datatype Step =
    | StartRun
    | StopWatching                  // the kill file is there
    | StartLife
    | ExitLoop                      // the kill file is there
    | FailReconcile
    | WriteUnreadable
    | Reconcile
    | SkipReconcile
    | DropFlag
    | WriteCleared
    | Decide(decision: Decision, view: PortfolioView, dataAge: real, draft: Draft)
    | Hold
    | Stage
    | CallLive
    | CallSimulated
    | Answer(executed: bool)
    | LogExecution(detail: Json)
    | SkipLog                       // another backend, or the append failed
    | Return
    | WriteTick
    | RaiseError                    // an exception ends the life; the watchdog sees it
    | KillProcess

  predicate Running(c: Control) {
    !c.Idle? && !c.Watching?
  }

  predicate Enabled(u: Setup, s: State, step: Step) {
    match step
    case StartRun => s.control.Idle?
    case StopWatching => s.control.Watching?
    case StartLife => s.control.Watching?
    case ExitLoop => s.control.Top?
    case FailReconcile => s.control.Top? && u.reconciles
    case WriteUnreadable => s.control.Unreadable?
    case Reconcile => s.control.Top? && u.reconciles
    case SkipReconcile => s.control.Top? && !u.reconciles
    case DropFlag => s.control.Marked? && s.mem.pending.Some?
    case WriteCleared => s.control.Clearing?
    case Decide(d, view, dataAge, draft) =>
      && s.control.Marked? && s.mem.pending.None?
      && WellFormed(draft.decision) && Records(u, draft.decision, d)
      && draft.policyHash == u.policyHash
      && draft.verdict == VerdictText(Check(u.cfg, d, view, dataAge))
    case Hold => s.control.Recorded? && !Trades(s.control.order)
    case Stage => s.control.Recorded? && Trades(s.control.order) && u.live
    case CallSimulated => s.control.Recorded? && Trades(s.control.order) && !u.live
    case CallLive => s.control.Staged?
    case Answer(_) => s.control.Calling?
    case LogExecution(_) => s.control.Answered?
    case SkipLog => s.control.Answered?
    case Return => s.control.Finishing?
    case WriteTick => s.control.Ending?
    case RaiseError => Running(s.control)
    case KillProcess => Running(s.control)
  }

  // What a step adds to the history.
  function EventOf(u: Setup, s: State, step: Step): Option<Event>
    requires Enabled(u, s, step)
  {
    match step
    case StartRun => Some(RunStarted)
    case StartLife => Some(LifeStarted)
    case FailReconcile => Some(ReconcileFailed)
    case Reconcile => Some(Reconciled)
    case WriteCleared => Some(FlagCleared(s.control.seqNo))
    case Decide(_, _, _, _) => Some(Decided)
    case Stage => Some(IntentStaged(s.mem.intentSeq + 1))
    case CallLive =>
      var o := s.control.order;
      Some(LiveCall(s.next.intentSeq, ReceiptCid(o.receipt.hash), o.decision))
    case CallSimulated =>
      var o := s.control.order;
      Some(SimulatedCall(ReceiptCid(o.receipt.hash), o.decision))
    case WriteTick => Some(TickWritten)
    case RaiseError => Some(Died)
    case KillProcess => Some(Died)
    case _ => None
  }

  // What a step does to everything but the history.
  function Effect(u: Setup, s: State, step: Step): State
    requires Enabled(u, s, step)
  {
    match step
    case StartRun => s.(control := Watching, restarts := 0)
    case StopWatching => s.(control := Idle)
    case StartLife => s.(control := Top, mem := s.disk)
    case ExitLoop => s.(control := Idle)
    case FailReconcile => s.(control := Unreadable)
    case WriteUnreadable => s.(control := Top, disk := s.mem)
    case Reconcile => s.(control := Marked)
    case SkipReconcile => s.(control := Marked)
    case DropFlag => s.(control := Clearing(s.mem.pending.value.seqNo), mem := s.mem.(pending := None))
    case WriteCleared => s.(control := Top, disk := s.mem)
    case Decide(d, view, dataAge, draft) =>
      var r := NextReceipt(u.H, s.receipts, draft);
      s.(receipts := s.receipts + [r],
         next := s.mem.(pending := None),
         control := Recorded(Order(d, Check(u.cfg, d, view, dataAge), r)))
    case Hold => s.(control := Finishing)
    case Stage =>
      var o := s.control.order;
      var n := s.mem.intentSeq + 1;
      s.(disk := Snapshot(n, Some(Pending(n, o.decision, o.verdict.amount))),
         next := s.next.(intentSeq := n),
         control := Staged(o))
    case CallLive => s.(control := Calling(s.control.order))
    case CallSimulated => s.(control := Calling(s.control.order))
    case Answer(executed) => s.(control := Answered(s.control.order, executed))
    case LogExecution(detail) =>
      s.(executions := s.executions + [ExecutionOf(s.control.order.receipt, s.control.executed, detail)],
         control := Finishing)
    case SkipLog => s.(control := Finishing)
    case Return => s.(mem := s.next, control := Ending)
    case WriteTick => s.(disk := s.mem, control := Top)
    case RaiseError =>
      s.(restarts := s.restarts + 1, control := if s.restarts + 1 > MAX_RESTARTS then Idle else Watching)
    case KillProcess => s.(restarts := s.restarts + 1, control := Idle)
  }

  function Apply(u: Setup, s: State, step: Step): State
    requires Enabled(u, s, step)
  {
    var e := EventOf(u, s, step);
    Effect(u, s, step).(history := if e.Some? then s.history + [e.value] else s.history)
  }

  /** The states of the system are those after its possible step sequences. */
  predicate Possible(u: Setup, steps: seq<Step>)
    decreases |steps|, 0
  {
    steps == [] || (Possible(u, steps[..|steps| - 1]) && Enabled(u, After(u, steps[..|steps| - 1]), steps[|steps| - 1]))
  }

  function After(u: Setup, steps: seq<Step>): State
    requires Possible(u, steps)
    decreases |steps|, 1
  {
    if steps == [] then Init() else Apply(u, After(u, steps[..|steps| - 1]), steps[|steps| - 1])
  }

  // ---------------------------------------------------------------- reading the history

  // Whether the last staged intent is settled, belongs to a tick still in progress, or to a tick that died.
  datatype Phase = Settled | InTick(seqNo: nat) | Orphaned(seqNo: nat)

  function PhaseAfter(before: Phase, e: Event): Phase {
    match e
    case IntentStaged(n) => InTick(n)
    case TickWritten => Settled
    case FlagCleared(_) => Settled
    case Died => if before.InTick? then Orphaned(before.seqNo) else before
    case _ => before
  }

  // What the history tells: the phase, the number of the last live call (0 before the first), the calls since
  // the last decision, and whether the last event was a successful reconcile.
  datatype Told = Told(phase: Phase, lastCall: nat, calls: nat, reconciled: bool)

  predicate IsCall(e: Event) {
    e.LiveCall? || e.SimulatedCall?
  }

  function ToldAfter(t: Told, e: Event): Told {
    Told(
      PhaseAfter(t.phase, e),
      if e.LiveCall? then e.seqNo else t.lastCall,
      if e.Decided? then 0 else if IsCall(e) then t.calls + 1 else t.calls,
      e == Reconciled)
  }

  function ToldBy(h: seq<Event>): Told {
    if h == [] then Told(Settled, 0, 0, false) else ToldAfter(ToldBy(h[..|h| - 1]), h[|h| - 1])
  }

  function PhaseOf(h: seq<Event>): Phase {
    ToldBy(h).phase
  }

  // Live calls since the last end-of-tick write or death; live calls whose tick died before that write; deaths.
  datatype Tally = Tally(open: nat, lost: nat, deaths: nat)

  function TallyAfter(t: Tally, e: Event): Tally {
    match e
    case TickWritten => t.(open := 0)
    case Died => Tally(0, t.lost + t.open, t.deaths + 1)
    case LiveCall(_, _, _) => t.(open := t.open + 1)
    case _ => t
  }

  function TallyOf(h: seq<Event>): Tally {
    if h == [] then Tally(0, 0, 0) else TallyAfter(TallyOf(h[..|h| - 1]), h[|h| - 1])
  }

  function DecisionsIn(h: seq<Event>): nat {
    if h == [] then 0 else DecisionsIn(h[..|h| - 1]) + if h[|h| - 1].Decided? then 1 else 0
  }

  /** The events since the last start of a run. */
  function ThisRun(h: seq<Event>): seq<Event> {
    if h == [] || h[|h| - 1] == RunStarted then [] else ThisRun(h[..|h| - 1]) + [h[|h| - 1]]
  }

  lemma FoldAppend(h: seq<Event>, e: Event)
    ensures ToldBy(h + [e]) == ToldAfter(ToldBy(h), e)
    ensures TallyOf(h + [e]) == TallyAfter(TallyOf(h), e)
    ensures DecisionsIn(h + [e]) == DecisionsIn(h) + if e.Decided? then 1 else 0
    ensures ThisRun(h + [e]) == if e == RunStarted then [] else ThisRun(h) + [e]
  {
    assert (h + [e])[..|h|] == h;
  }

  // ---------------------------------------------------------------- what may happen when

  predicate Legal(u: Setup, t: Told, e: Event) {
    match e
    case Decided => t.phase == Settled
    case IntentStaged(n) => t.phase == Settled && n > t.lastCall
    case LiveCall(n, _, _) => t.phase == InTick(n) && n > t.lastCall && t.calls == 0
    case SimulatedCall(_, _) => t.calls == 0
    case TickWritten => !t.phase.Orphaned?
    case FlagCleared(n) => t.phase == Orphaned(n) && (u.reconciles ==> t.reconciled)
    case _ => true
  }

  predicate LegalHistory(u: Setup, h: seq<Event>) {
    h == [] || (LegalHistory(u, h[..|h| - 1]) && Legal(u, ToldBy(h[..|h| - 1]), h[|h| - 1]))
  }

  lemma LegalAppend(u: Setup, h: seq<Event>, e: Event)
    requires LegalHistory(u, h) && Legal(u, ToldBy(h), e)
    ensures LegalHistory(u, h + [e])
  {
    assert (h + [e])[..|h|] == h;
  }

  predicate Counted(t: Tally) {
    t.lost <= t.deaths && t.open <= 1
  }

  // ---------------------------------------------------------------- the invariant

  ghost predicate LogsAgree(u: Setup, s: State) {
    && ChainValid(u.H, s.receipts) && Numbered(s.receipts)
    && (forall i | 0 <= i < |s.receipts| :: s.receipts[i].policyHash == u.policyHash)
    && AllSourced(s.executions, s.receipts)
  }

  // The receipt of an order is the head of the chain, and it records the order's decision and verdict.
  predicate OrderRecorded(u: Setup, s: State, o: Order) {
    && s.receipts != [] && o.receipt == s.receipts[|s.receipts| - 1]
    && o.receipt.verdict == VerdictText(o.verdict) && Records(u, o.receipt.decision, o.decision)
    && (o.verdict.kind == HoldKind <==> !IsTrade(o.decision))
  }

  /** The call at index `j` is for the decision of the receipt last appended before it, which the policy let
      through, and carries the id of that receipt. */
  predicate CallCommitted(u: Setup, h: seq<Event>, receipts: seq<Receipt>, j: nat)
    requires j < |h| && IsCall(h[j])
  {
    var n := DecisionsIn(h[..j]);
    && 0 < n <= |receipts| && LetThrough(receipts[n - 1])
    && h[j].cid == ReceiptCid(receipts[n - 1].hash) && Records(u, receipts[n - 1].decision, h[j].decision)
  }

  predicate CallsCommitted(u: Setup, h: seq<Event>, receipts: seq<Receipt>) {
    forall j | 0 <= j < |h| && IsCall(h[j]) :: CallCommitted(u, h, receipts, j)
  }

  // The pending flag on disk tells the phase.
  predicate DiskTells(disk: Snapshot, phase: Phase) {
    match phase
    case Settled => disk.pending.None?
    case InTick(n) => disk.pending.Some? && disk.pending.value.seqNo == n == disk.intentSeq
    case Orphaned(n) => disk.pending.Some? && disk.pending.value.seqNo == n == disk.intentSeq
  }

  // An order on its way through the executor, live or simulated.
  predicate InExecution(u: Setup, s: State, phase: Phase, o: Order) {
    && OrderRecorded(u, s, o) && Trades(o) && s.next.pending.None? && s.next.intentSeq == s.disk.intentSeq
    && (u.live ==> s.disk.pending == Some(Pending(s.next.intentSeq, o.decision, o.verdict.amount))
                   && phase == InTick(s.next.intentSeq))
    && (!u.live ==> phase == Settled)
  }

  predicate ControlOk(u: Setup, s: State, t: Told) {
    match s.control
    case Idle => !t.phase.InTick?
    case Watching => !t.phase.InTick?
    case Top => !t.phase.InTick? && s.mem == s.disk
    case Unreadable => !t.phase.InTick? && s.mem == s.disk
    case Marked => !t.phase.InTick? && s.mem == s.disk && (u.reconciles ==> t.reconciled)
    case Clearing(n) => t.phase == Orphaned(n) && s.mem == s.disk.(pending := None) && (u.reconciles ==> t.reconciled)
    case Recorded(o) => t.phase == Settled && t.calls == 0 && s.mem == s.disk == s.next && OrderRecorded(u, s, o)
    case Staged(o) => u.live && t.calls == 0 && InExecution(u, s, t.phase, o) && t.lastCall < s.next.intentSeq
    case Calling(o) => InExecution(u, s, t.phase, o)
    case Answered(o, _) => InExecution(u, s, t.phase, o)
    case Finishing => !t.phase.Orphaned? && s.next.pending.None? && s.next.intentSeq == s.disk.intentSeq
    case Ending => !t.phase.Orphaned? && s.mem.pending.None? && s.mem.intentSeq == s.disk.intentSeq
  }

  // The state file and the control point fit what the history tells.
  predicate Fits(u: Setup, s: State, t: Told) {
    t.lastCall <= s.disk.intentSeq && DiskTells(s.disk, t.phase) && ControlOk(u, s, t)
  }

  predicate CallOpen(c: Control) {
    c.Calling? || c.Answered? || c.Finishing? || c.Ending?
  }

  predicate Tallied(s: State, all: Tally, run: Tally) {
    && Counted(all) && Counted(run)
    && (!CallOpen(s.control) ==> all.open == 0 && run.open == 0)
    && run.deaths == s.restarts
    && s.restarts <= if s.control.Idle? then MAX_RESTARTS + 1 else MAX_RESTARTS
  }

  predicate CountsOk(s: State) {
    Tallied(s, TallyOf(s.history), TallyOf(ThisRun(s.history)))
  }

  predicate Tracked(u: Setup, s: State) {
    LegalHistory(u, s.history) && Fits(u, s, ToldBy(s.history))
  }

  predicate CallsOk(u: Setup, s: State) {
    |s.receipts| == DecisionsIn(s.history) && CallsCommitted(u, s.history, s.receipts)
  }

  ghost predicate Inv(u: Setup, s: State) {
    LogsAgree(u, s) && Tracked(u, s) && CallsOk(u, s) && CountsOk(s)
  }

  // ---------------------------------------------------------------- the invariant is kept

  lemma DecideKeepsLogs(u: Setup, s: State, step: Step)
    requires LogsAgree(u, s) && Enabled(u, s, step) && step.Decide?
    ensures LogsAgree(u, Effect(u, s, step))
  {
    hide ChainValid, Numbered, ReceiptCid, Check, NextReceipt, AllSourced, Records;
    AppendKeepsValid(u.H, s.receipts, step.draft);
    SourcedGrows(s.executions, s.receipts, NextReceipt(u.H, s.receipts, step.draft));
  }

  lemma LogsKept(u: Setup, s: State, step: Step)
    requires LogsAgree(u, s) && Enabled(u, s, step)
    requires s.control.Answered? ==> OrderRecorded(u, s, s.control.order) && Trades(s.control.order)
    ensures LogsAgree(u, Effect(u, s, step))
  {
    hide ChainValid, Numbered, ReceiptCid, Check, NextReceipt, AllSourced, Records;
    if step.Decide? {
      DecideKeepsLogs(u, s, step);
    } else if step.LogExecution? {
      var e := ExecutionOf(s.control.order.receipt, s.control.executed, step.detail);
      assert CameFrom(e, s.receipts, |s.receipts| - 1);
      SourcedExtends(s.executions, s.receipts, e, |s.receipts| - 1);
    }
  }

  // A call names the receipt at the head of the chain.
  lemma CallNamesHead(u: Setup, s: State, step: Step)
    requires Enabled(u, s, step) && (step.CallLive? || step.CallSimulated?)
    requires OrderRecorded(u, s, s.control.order) && Trades(s.control.order)
    ensures s.receipts != []
    ensures var e := EventOf(u, s, step).value; var r := s.receipts[|s.receipts| - 1];
            IsCall(e) && LetThrough(r) && e.cid == ReceiptCid(r.hash) && Records(u, r.decision, e.decision)
  {
    hide ReceiptCid, Records, Check;
  }

  lemma OnlyCallsCall(u: Setup, s: State, step: Step)
    requires Enabled(u, s, step)
    ensures var e := EventOf(u, s, step);
            && (e.Some? && IsCall(e.value) <==> step.CallLive? || step.CallSimulated?)
            && (e == Some(Decided) <==> step.Decide?)
            && (!step.Decide? ==> Effect(u, s, step).receipts == s.receipts)
            && (step.Decide? ==> Effect(u, s, step).receipts == s.receipts + [NextReceipt(u.H, s.receipts, step.draft)])
  {
    hide ReceiptCid, Records, Check, NextReceipt;
  }

  lemma CallsGrow(u: Setup, h: seq<Event>, receipts: seq<Receipt>, e: Event, more: seq<Receipt>)
    requires |receipts| == DecisionsIn(h) && CallsCommitted(u, h, receipts) && receipts <= more
    requires |more| == DecisionsIn(h + [e])
    requires IsCall(e) ==>
               && more == receipts != [] && LetThrough(receipts[|receipts| - 1])
               && e.cid == ReceiptCid(receipts[|receipts| - 1].hash)
               && Records(u, receipts[|receipts| - 1].decision, e.decision)
    ensures CallsCommitted(u, h + [e], more)
  {
    hide ReceiptCid, Records, LetThrough, DecisionsIn;
    var g := h + [e];
    forall j | 0 <= j < |g| && IsCall(g[j]) ensures CallCommitted(u, g, more, j) {
      assert g[..j] == h[..j];
      if j < |h| {
        assert CallCommitted(u, h, receipts, j);
      } else {
        assert h[..j] == h;
      }
    }
  }

  lemma CallsKept(u: Setup, s: State, step: Step)
    requires CallsOk(u, s) && Enabled(u, s, step)
    requires s.control.Recorded? || s.control.Staged? ==> OrderRecorded(u, s, s.control.order)
    requires s.control.Staged? ==> Trades(s.control.order)
    ensures CallsOk(u, Apply(u, s, step))
  {
    hide ReceiptCid, Check, NextReceipt, Records, LetThrough, DecisionsIn, CallsCommitted, OrderRecorded,
      Effect, EventOf;
    OnlyCallsCall(u, s, step);
    var e := EventOf(u, s, step);
    if e.Some? {
      FoldAppend(s.history, e.value);
      if IsCall(e.value) { CallNamesHead(u, s, step); }
      CallsGrow(u, s.history, s.receipts, e.value, Effect(u, s, step).receipts);
    }
  }

  lemma TallyStep(u: Setup, s: State, step: Step, all: Tally, run: Tally)
    requires Tallied(s, all, run) && Enabled(u, s, step)
    ensures var e := EventOf(u, s, step); var s' := Effect(u, s, step);
            if e.None? then Tallied(s', all, run)
            else if e.value == RunStarted then Tallied(s', TallyAfter(all, e.value), Tally(0, 0, 0))
            else Tallied(s', TallyAfter(all, e.value), TallyAfter(run, e.value))
  {
    hide ReceiptCid, Check, NextReceipt, Records, Trades, WellFormed, VerdictText;
  }

  lemma CountsKept(u: Setup, s: State, step: Step)
    requires CountsOk(s) && Enabled(u, s, step)
    ensures CountsOk(Apply(u, s, step))
  {
    hide Effect, EventOf, Enabled, TallyOf, ThisRun, TallyAfter;
    TallyStep(u, s, step, TallyOf(s.history), TallyOf(ThisRun(s.history)));
    var e := EventOf(u, s, step);
    if e.Some? {
      FoldAppend(s.history, e.value);
      FoldAppend(ThisRun(s.history), e.value);
      NothingCounted();
      var h := s.history + [e.value];
      SameTally(Effect(u, s, step), Apply(u, s, step), TallyOf(h), TallyOf(ThisRun(h)));
    } else {
      SameTally(Effect(u, s, step), Apply(u, s, step), TallyOf(s.history), TallyOf(ThisRun(s.history)));
    }
  }

  lemma NothingCounted()
    ensures TallyOf([]) == Tally(0, 0, 0)
  {
  }

  lemma SameTally(s: State, t: State, all: Tally, run: Tally)
    requires Tallied(s, all, run) && s.control == t.control && s.restarts == t.restarts
    ensures Tallied(t, all, run)
  {
  }

  // ---- the state file and the control point

  predicate Progress(step: Step) {
    || step.Hold? || step.Answer? || step.LogExecution? || step.SkipLog? || step.Return?
    || step.Stage? || step.CallLive? || step.CallSimulated?
  }

  lemma StageFits(u: Setup, s: State, step: Step, t: Told)
    requires Fits(u, s, t) && Enabled(u, s, step) && step.Stage?
    ensures FitsAfter(u, s, step, t)
  {
    hide ReceiptCid, Records, Trades, VerdictText, WellFormed, Allowed, IsTrade, Check;
  }

  lemma CallFits(u: Setup, s: State, step: Step, t: Told)
    requires Fits(u, s, t) && Enabled(u, s, step) && (step.CallLive? || step.CallSimulated?)
    ensures FitsAfter(u, s, step, t)
  {
    hide ReceiptCid, Records, Trades, VerdictText, WellFormed, Allowed, IsTrade, Check;
  }

  lemma ProgressFits(u: Setup, s: State, step: Step, t: Told)
    requires Fits(u, s, t) && Enabled(u, s, step) && Progress(step)
    ensures FitsAfter(u, s, step, t)
  {
    if step.Stage? {
      hide *;
      StageFits(u, s, step, t);
    } else if step.CallLive? || step.CallSimulated? {
      hide *;
      CallFits(u, s, step, t);
    } else {
      hide ReceiptCid, Records, Trades, VerdictText, WellFormed, Allowed, IsTrade, Check, NextReceipt;
    }
  }

  lemma DecideFits(u: Setup, s: State, step: Step, t: Told)
    requires Fits(u, s, t) && Enabled(u, s, step) && step.Decide?
    ensures FitsAfter(u, s, step, t)
  {
    hide ReceiptCid, Check, NextReceipt, VerdictText, OrderRecorded, Records;
    DecisionRecorded(u, s, step);
    assert s.mem.(pending := None) == s.mem == s.disk;
  }

  lemma DecisionRecorded(u: Setup, s: State, step: Step)
    requires Enabled(u, s, step) && step.Decide?
    ensures OrderRecorded(u, Effect(u, s, step), Effect(u, s, step).control.order)
  {
    hide ReceiptCid, Check, NextReceipt, VerdictText, Records;
  }

  lemma OtherStepFits(u: Setup, s: State, step: Step, t: Told)
    requires Fits(u, s, t) && Enabled(u, s, step) && !Progress(step) && !step.Decide?
    ensures FitsAfter(u, s, step, t)
  {
    hide OrderRecorded, Trades;
  }

  // The step logs what is legal, and leaves a state that fits.
  predicate FitsAfter(u: Setup, s: State, step: Step, t: Told)
    requires Enabled(u, s, step)
  {
    match EventOf(u, s, step)
    case None => Fits(u, Effect(u, s, step), t)
    case Some(e) => Legal(u, t, e) && Fits(u, Effect(u, s, step), ToldAfter(t, e))
  }

  lemma HistoryApart(u: Setup, s: State, h: seq<Event>, t: Told)
    requires Fits(u, s, t)
    ensures Fits(u, s.(history := h), t)
  {
    hide Trades, Records, VerdictText;
  }

  lemma StepTracked(u: Setup, s: State, step: Step)
    requires Tracked(u, s) && Enabled(u, s, step)
    ensures Tracked(u, Apply(u, s, step))
  {
    hide Effect, EventOf, Enabled, Fits, ToldBy, ToldAfter, Legal, LegalHistory;
    var t := ToldBy(s.history);
    if step.Decide? {
      DecideFits(u, s, step, t);
    } else if Progress(step) {
      ProgressFits(u, s, step, t);
    } else {
      OtherStepFits(u, s, step, t);
    }
    match EventOf(u, s, step)
    case None =>
      HistoryApart(u, Effect(u, s, step), s.history, t);
    case Some(e) =>
      FoldAppend(s.history, e);
      LegalAppend(u, s.history, e);
      HistoryApart(u, Effect(u, s, step), s.history + [e], ToldAfter(t, e));
  }

  lemma LogsApart(u: Setup, s: State, h: seq<Event>)
    requires LogsAgree(u, s)
    ensures LogsAgree(u, s.(history := h))
  {
    hide ChainValid, Numbered, AllSourced;
  }

  lemma OrderHolds(u: Setup, s: State)
    requires Tracked(u, s)
    ensures s.control.Recorded? || s.control.Staged? || s.control.Answered? ==> OrderRecorded(u, s, s.control.order)
    ensures s.control.Staged? || s.control.Answered? ==> Trades(s.control.order)
  {
    hide LegalHistory, OrderRecorded, Trades, ToldBy;
  }

  lemma StepKeepsInv(u: Setup, s: State, step: Step)
    requires Inv(u, s) && Enabled(u, s, step)
    ensures Inv(u, Apply(u, s, step))
  {
    hide LogsAgree, CallsOk, CountsOk, Tracked, Effect, EventOf, Enabled, OrderRecorded, Trades;
    OrderHolds(u, s);
    LogsKept(u, s, step);
    LogsApart(u, Effect(u, s, step), Apply(u, s, step).history);
    CallsKept(u, s, step);
    CountsKept(u, s, step);
    StepTracked(u, s, step);
  }

  lemma {:induction false} InvHolds(u: Setup, steps: seq<Step>)
    requires Possible(u, steps)
    ensures Inv(u, After(u, steps))
  {
    hide LogsAgree, CallsOk, CountsOk, Tracked, Effect, EventOf, Enabled;
    if steps != [] {
      InvHolds(u, steps[..|steps| - 1]);
      StepKeepsInv(u, After(u, steps[..|steps| - 1]), steps[|steps| - 1]);
    } else {
      InvAtStart(u);
    }
  }

  lemma InvAtStart(u: Setup)
    ensures Inv(u, Init())
  {
  }

  // ---------------------------------------------------------------- over every run

  lemma {:induction false} LegalAt(u: Setup, h: seq<Event>, j: nat)
    requires LegalHistory(u, h) && j < |h|
    ensures LegalHistory(u, h[..j]) && Legal(u, ToldBy(h[..j]), h[j])
    ensures h[..j + 1] == h[..j] + [h[j]]
  {
    if j < |h| - 1 {
      LegalAt(u, h[..|h| - 1], j);
      assert h[..|h| - 1][..j] == h[..j];
    }
  }

  lemma HistoryIsLegal(u: Setup, steps: seq<Step>)
    requires Possible(u, steps)
    ensures LegalHistory(u, After(u, steps).history)
  {
    InvHolds(u, steps);
  }

  // Deciding, staging, or calling the executor.
  predicate Acts(e: Event) {
    e.Decided? || e.IntentStaged? || e.LiveCall?
  }

  // Event `i` does not act, and intent `n` is still orphaned after it.
  predicate Waits(h: seq<Event>, n: nat, i: nat) {
    i < |h| && !Acts(h[i]) && PhaseOf(h[..i + 1]) == Orphaned(n)
  }

  lemma {:induction false} ReconciledJustBefore(h: seq<Event>)
    requires ToldBy(h).reconciled
    ensures h != [] && h[|h| - 1] == Reconciled
  {
  }

  /** From an orphaned intent to the next live call there is a clearing of the flag, and nothing is decided
      before it. */
  lemma {:induction false} ClearedBeforeCall(u: Setup, h: seq<Event>, n: nat, m: nat, j: nat) returns (k: nat)
    requires LegalHistory(u, h) && m <= j < |h| && h[j].LiveCall? && PhaseOf(h[..m]) == Orphaned(n)
    ensures m <= k < j && h[k] == FlagCleared(n) && (u.reconciles ==> k > 0 && h[k - 1] == Reconciled)
    ensures forall i | m <= i < k :: Waits(h, n, i)
    decreases j - m
  {
    hide ToldBy, LegalHistory;
    LegalAt(u, h, m);
    FoldAppend(h[..m], h[m]);
    if h[m].FlagCleared? {
      k := m;
      if u.reconciles { ReconciledJustBefore(h[..m]); }
    } else {
      assert Waits(h, n, m);
      k := ClearedBeforeCall(u, h, n, m + 1, j);
    }
  }

  lemma {:induction false} StillInTick(u: Setup, h: seq<Event>, n: nat, i: nat, d: nat)
    requires LegalHistory(u, h) && i <= d <= |h| && PhaseOf(h[..i]) == InTick(n)
    requires forall m | i <= m < d :: h[m] != TickWritten && h[m] != Died
    ensures PhaseOf(h[..d]) == InTick(n)
  {
    hide ToldBy, LegalHistory;
    if d > i {
      StillInTick(u, h, n, i, d - 1);
      LegalAt(u, h, d - 1);
      FoldAppend(h[..d - 1], h[d - 1]);
    }
  }

  // The intent in progress when a life dies is orphaned.
  lemma DeathOrphans(u: Setup, h: seq<Event>, n: nat, i: nat, d: nat)
    requires LegalHistory(u, h) && i < d < |h| && h[d] == Died
    requires ToldAfter(ToldBy(h[..i]), h[i]).phase == InTick(n)
    requires forall m | i < m < d :: h[m] != TickWritten && h[m] != Died
    ensures PhaseOf(h[..d + 1]) == Orphaned(n)
  {
    hide ToldBy, LegalHistory;
    LegalAt(u, h, i);
    FoldAppend(h[..i], h[i]);
    StillInTick(u, h, n, i + 1, d);
    LegalAt(u, h, d);
    FoldAppend(h[..d], h[d]);
  }

  /** No re-fire. If a life dies after staging intent `n` and before its end-of-tick write, then before any
      later call of the executor some iteration reconciled from chain and, right after it, cleared the
      flag of that very intent; until then nothing was decided, staged or sent, through any number of
      failed reads and further deaths. */
  lemma NoRefire(u: Setup, steps: seq<Step>, i: nat, d: nat, j: nat) returns (k: nat)
    requires Possible(u, steps) && u.reconciles
    requires var h := After(u, steps).history;
             && i < d < j < |h| && h[i].IntentStaged? && h[d] == Died && h[j].LiveCall?
             && forall m | i < m < d :: h[m] != TickWritten && h[m] != Died
    ensures var h := After(u, steps).history;
            && d < k < j && h[k] == FlagCleared(h[i].seqNo) && h[k - 1] == Reconciled
            && forall m | d < m < k :: Waits(h, h[i].seqNo, m)
  {
    hide After, Possible, ToldBy, Legal, LegalHistory;
    HistoryIsLegal(u, steps);
    var h := After(u, steps).history;
    DeathOrphans(u, h, h[i].seqNo, i, d);
    hide PhaseOf, ToldAfter;
    k := ClearedBeforeCall(u, h, h[i].seqNo, d + 1, j);
  }

  /** While an intent is orphaned it is the pending intent on disk, in every reachable state. */
  lemma OrphanStaysOnDisk(u: Setup, steps: seq<Step>)
    requires Possible(u, steps)
    ensures var s := After(u, steps);
            match PhaseOf(s.history)
            case Settled => s.disk.pending == None
            case InTick(n) => s.disk.intentSeq == n && s.disk.pending.Some? && s.disk.pending.value.seqNo == n
            case Orphaned(n) => s.disk.intentSeq == n && s.disk.pending.Some? && s.disk.pending.value.seqNo == n
  {
    InvHolds(u, steps);
  }

  /** When the executor is called live, the intent it is called for, with this number, decision and
      amount, is already on disk, and the receipt that records this very decision is in the chain. */
  lemma CallFindsIntentOnDisk(u: Setup, steps: seq<Step>)
    requires Possible(u, steps) && Enabled(u, After(u, steps), CallLive)
    ensures var s := After(u, steps);
            var o := s.control.order;
            var t := Apply(u, s, CallLive);
            && t.history == s.history + [LiveCall(s.disk.intentSeq, ReceiptCid(o.receipt.hash), o.decision)]
            && s.disk.pending == Some(Pending(s.disk.intentSeq, o.decision, o.verdict.amount))
            && o.receipt in s.receipts && LetThrough(o.receipt) && Records(u, o.receipt.decision, o.decision)
  {
    hide Possible, After, LogsAgree, CallsOk, CountsOk, LegalHistory, ToldBy, Records;
    InvHolds(u, steps);
  }

  lemma {:induction false} CallsBelowLast(u: Setup, h: seq<Event>)
    requires LegalHistory(u, h)
    ensures forall i | 0 <= i < |h| && h[i].LiveCall? :: h[i].seqNo <= ToldBy(h).lastCall
    ensures forall i, j | 0 <= i < j < |h| && h[i].LiveCall? && h[j].LiveCall? :: h[i].seqNo < h[j].seqNo
  {
    if h != [] {
      var g := h[..|h| - 1];
      CallsBelowLast(u, g);
      forall i, j | 0 <= i < j < |h| && h[i].LiveCall? && h[j].LiveCall? ensures h[i].seqNo < h[j].seqNo {
        assert g[i] == h[i];
        if j < |g| { assert g[j] == h[j]; }
      }
      forall i | 0 <= i < |h| && h[i].LiveCall? ensures h[i].seqNo <= ToldBy(h).lastCall {
        if i < |g| { assert g[i] == h[i]; }
      }
    }
  }

  /** Over any number of runs, lives and crashes no two live calls share an intent number: the numbers
      strictly increase. */
  lemma IntentNumbersIncrease(u: Setup, steps: seq<Step>, i: nat, j: nat)
    requires Possible(u, steps)
    requires var h := After(u, steps).history; i < j < |h| && h[i].LiveCall? && h[j].LiveCall?
    ensures var h := After(u, steps).history; h[i].seqNo < h[j].seqNo
  {
    hide Possible, After, LegalHistory, ToldBy;
    HistoryIsLegal(u, steps);
    CallsBelowLast(u, After(u, steps).history);
  }

  /** Live calls whose tick never reached its end-of-tick write number at most the deaths; within one run of
      the watchdog, counting the one in flight, at most four. After an exception the watchdog starts another
      life exactly if it was the third death of the run or an earlier one; a kill, and the kill file, end the run. */
  lemma LostCallsBounded(u: Setup, steps: seq<Step>)
    requires Possible(u, steps)
    ensures var all, run := TallyOf(After(u, steps).history), TallyOf(ThisRun(After(u, steps).history));
            && all.lost <= all.deaths && all.open <= 1 && run.lost + run.open <= 4 && run.deaths <= 4
            && (Enabled(u, After(u, steps), RaiseError) ==>
                  var c := Apply(u, After(u, steps), RaiseError).control;
                  if run.deaths + 1 <= 3 then c == Watching else c == Idle)
            && (Enabled(u, After(u, steps), KillProcess) ==> Apply(u, After(u, steps), KillProcess).control == Idle)
            && (Enabled(u, After(u, steps), StopWatching) ==> Apply(u, After(u, steps), StopWatching).control == Idle)
            && (Enabled(u, After(u, steps), ExitLoop) ==> Apply(u, After(u, steps), ExitLoop).control == Idle)
  {
    hide Possible, After, LogsAgree, CallsOk, Tracked, TallyOf, ThisRun;
    InvHolds(u, steps);
  }

  // The lives of a run.
  function LivesIn(h: seq<Event>): nat {
    if h == [] then 0 else LivesIn(h[..|h| - 1]) + if h[|h| - 1] == LifeStarted then 1 else 0
  }

  // A life is over by an exception, while the watchdog watches, and but for the present one while the loop runs.
  predicate Lived(s: State, lives: nat) {
    match s.control
    case Idle => lives <= MAX_RESTARTS + 1 && lives <= s.restarts + 1
    case Watching => lives == s.restarts <= MAX_RESTARTS
    case _ => lives == s.restarts + 1 <= MAX_RESTARTS + 1
  }

  lemma LivesAppend(h: seq<Event>, e: Event)
    ensures LivesIn(h + [e]) == LivesIn(h) + if e == LifeStarted then 1 else 0
    ensures LivesIn([]) == 0
  {
    assert (h + [e])[..|h|] == h;
  }

  function LivesAfter(lives: nat, step: Step): nat {
    if step.StartRun? then 0 else if step.StartLife? then lives + 1 else lives
  }

  lemma EffectLived(u: Setup, s: State, step: Step, lives: nat)
    requires Enabled(u, s, step) && Lived(s, lives)
    ensures Lived(Effect(u, s, step), LivesAfter(lives, step))
  {
    hide Check, NextReceipt, Trades, ReceiptCid, Records, VerdictText, WellFormed;
  }

  lemma EventKinds(u: Setup, s: State, step: Step)
    requires Enabled(u, s, step)
    ensures EventOf(u, s, step) == Some(RunStarted) <==> step.StartRun?
    ensures EventOf(u, s, step) == Some(LifeStarted) <==> step.StartLife?
  {
    hide Check, Trades, ReceiptCid, Records, VerdictText, WellFormed;
  }

  lemma EventLives(u: Setup, s: State, step: Step)
    requires Enabled(u, s, step)
    ensures LivesIn(ThisRun(Apply(u, s, step).history)) == LivesAfter(LivesIn(ThisRun(s.history)), step)
    ensures Apply(u, s, step).control == Effect(u, s, step).control
    ensures Apply(u, s, step).restarts == Effect(u, s, step).restarts
  {
    EventKinds(u, s, step);
    LivesWith(s.history, EventOf(u, s, step));
    hide Enabled, EventOf, ThisRun, LivesIn, Effect;
  }

  lemma LivesWith(h: seq<Event>, e: Option<Event>)
    ensures LivesIn(ThisRun(if e.Some? then h + [e.value] else h))
         == if e == Some(RunStarted) then 0
            else if e == Some(LifeStarted) then LivesIn(ThisRun(h)) + 1
            else LivesIn(ThisRun(h))
  {
    hide ThisRun, LivesIn;
    if e.Some? {
      FoldAppend(h, e.value);
      LivesAppend(ThisRun(h), e.value);
    }
  }

  lemma StepLived(u: Setup, s: State, step: Step)
    requires Enabled(u, s, step) && Lived(s, LivesIn(ThisRun(s.history)))
    ensures var t := Apply(u, s, step); Lived(t, LivesIn(ThisRun(t.history)))
  {
    EffectLived(u, s, step, LivesIn(ThisRun(s.history)));
    EventLives(u, s, step);
    hide Enabled, Effect, Apply, ThisRun, LivesIn, LivesAfter;
  }

  /** A run has at most four lives, and each but the first follows the death of another. */
  lemma {:induction false} LivesBounded(u: Setup, steps: seq<Step>)
    requires Possible(u, steps)
    ensures var s := After(u, steps);
            var lives, deaths := LivesIn(ThisRun(s.history)), TallyOf(ThisRun(s.history)).deaths;
            lives <= 4 && lives <= deaths + 1 && Lived(s, lives)
  {
    hide Apply, Enabled, Lived, TallyOf, LogsAgree, CallsOk, Tracked;
    if steps == [] {
      NotLived();
    } else {
      LivesBounded(u, steps[..|steps| - 1]);
      StepLived(u, After(u, steps[..|steps| - 1]), steps[|steps| - 1]);
    }
    InvHolds(u, steps);
    LivedMeans(After(u, steps), LivesIn(ThisRun(After(u, steps).history)));
  }

  lemma NotLived()
    ensures Lived(Init(), LivesIn(ThisRun(Init().history)))
  {
  }

  lemma LivedMeans(s: State, lives: nat)
    requires Lived(s, lives)
    ensures lives <= 4 && lives <= s.restarts + 1
  {
  }

  // Between two calls there is a decision.
  lemma {:induction false} CallsTakeDecisions(u: Setup, h: seq<Event>, i: nat, j: nat)
    requires LegalHistory(u, h) && i < j <= |h| && IsCall(h[i])
    ensures DecisionsIn(h[..j]) > DecisionsIn(h[..i])
         || (DecisionsIn(h[..j]) == DecisionsIn(h[..i]) && ToldBy(h[..j]).calls > 0)
  {
    hide ToldBy, DecisionsIn, LegalHistory, Legal;
    LegalAt(u, h, j - 1);
    FoldAppend(h[..j - 1], h[j - 1]);
    if j > i + 1 { CallsTakeDecisions(u, h, i, j - 1); }
  }

  // The receipts can be told apart by their order ids.
  predicate DistinctIds(receipts: seq<Receipt>) {
    forall i, j | 0 <= i < j < |receipts| :: ReceiptCid(receipts[i].hash) != ReceiptCid(receipts[j].hash)
  }

  /** No order id is ever sent twice, by live or simulated calls, over any runs, lives and crashes: not more
      than one call belongs to a receipt. */
  lemma OrderIdsSentOnce(u: Setup, steps: seq<Step>, i: nat, j: nat)
    requires Possible(u, steps) && DistinctIds(After(u, steps).receipts)
    requires var h := After(u, steps).history; i < j < |h| && IsCall(h[i]) && IsCall(h[j])
    ensures var h := After(u, steps).history; h[i].cid != h[j].cid
  {
    hide Possible, After, LogsAgree, CountsOk, LegalHistory, ToldBy, Fits, Records, LetThrough, DecisionsIn, ReceiptCid;
    InvHolds(u, steps);
    var s := After(u, steps);
    CallsTakeDecisions(u, s.history, i, j);
    LegalAt(u, s.history, j);
    assert CallCommitted(u, s.history, s.receipts, i) && CallCommitted(u, s.history, s.receipts, j);
  }

  /** In every reachable state, after a crash at any step too, the logs on disk pass both public verifiers:
      the receipt chain is intact and every receipt references the committed policy, every logged order
      is bound to a let-through receipt, and so was every order id ever handed to the executor, together
      with the decision it was handed for. */
  lemma LogsAlwaysVerify(u: Setup, steps: seq<Step>)
    requires Possible(u, steps)
    requires var rs := After(u, steps).receipts; Readable(rs) ==> SoundOn(u.H, Preimages(rs))
    ensures var s := After(u, steps);
            && ChainValid(u.H, s.receipts)
            && (forall i | 0 <= i < |s.receipts| :: References(s.receipts[i], Some(u.policyHash)))
            && AllBound(s.executions, s.receipts)
            && CallsCommitted(u, s.history, s.receipts)
  {
    hide Possible, After, ChainValid, Numbered, AllBound, AllSourced, SoundOn, Tracked, CountsOk, CallsCommitted;
    InvHolds(u, steps);
    var s := After(u, steps);
    ReadableChain(u, s.receipts);
    ProducedLogsAreBound(u.H, s.executions, s.receipts);
  }

  lemma ReadableChain(u: Setup, receipts: seq<Receipt>)
    requires ChainValid(u.H, receipts)
    ensures Readable(receipts)
  {
  }

  // ---------------------------------------------------------------- why reconciling matters

  lemma Extend(u: Setup, steps: seq<Step>, step: Step)
    requires Possible(u, steps) && Enabled(u, After(u, steps), step)
    ensures Possible(u, steps + [step]) && After(u, steps + [step]) == Apply(u, After(u, steps), step)
  {
    assert (steps + [step])[..|steps|] == steps;
  }

  predicate AtTop(u: Setup, steps: seq<Step>, h: seq<Event>, disk: Snapshot, restarts: nat) {
    && Possible(u, steps)
    && var s := After(u, steps); s.control == Top && s.restarts == restarts && s.history == h && s.mem == s.disk == disk
  }

  // In the middle of a live call, with the intent on disk.
  predicate InCall(u: Setup, steps: seq<Step>, h: seq<Event>, n: nat, restarts: nat) {
    && Possible(u, steps)
    && var s := After(u, steps);
       s.control.Calling? && s.restarts == restarts && s.history == h
       && s.disk.intentSeq == n && s.disk.pending.Some? && s.disk.pending.value.seqNo == n
  }

  predicate TradingDecision(u: Setup, decide: Step) {
    && decide.Decide? && WellFormed(decide.draft.decision) && Records(u, decide.draft.decision, decide.decision)
    && decide.draft.policyHash == u.policyHash
    && var v := Check(u.cfg, decide.decision, decide.view, decide.dataAge);
       decide.draft.verdict == VerdictText(v) && Allowed(v) && IsTrade(decide.decision)
  }

  // One tick of a loop that does not reconcile, up to the call of the executor.
  lemma UnreconciledTick(u: Setup, before: seq<Step>, h: seq<Event>, n: nat, restarts: nat, decide: Step)
    returns (steps: seq<Step>, call: Event)
    requires !u.reconciles && u.live && AtTop(u, before, h, Snapshot(n, None), restarts) && TradingDecision(u, decide)
    ensures InCall(u, steps, h + [Decided, IntentStaged(n + 1), call], n + 1, restarts)
    ensures call.LiveCall? && call.decision == decide.decision
  {
    hide Possible, After, Check, NextReceipt, VerdictText, ReceiptCid, Records;
    Extend(u, before, SkipReconcile);
    Extend(u, before + [SkipReconcile], decide);
    var s2 := before + [SkipReconcile] + [decide];
    Extend(u, s2, Stage);
    Extend(u, s2 + [Stage], CallLive);
    steps := s2 + [Stage] + [CallLive];
    var s := After(u, steps);
    call := s.history[|s.history| - 1];
    assert s.history == h + [Decided, IntentStaged(n + 1), call];
  }

  // A death in the call, and the next life clears the flag without a read of the chain.
  lemma UnreconciledRecovery(u: Setup, before: seq<Step>, h: seq<Event>, n: nat) returns (steps: seq<Step>)
    requires !u.reconciles && InCall(u, before, h, n, 0)
    ensures AtTop(u, steps, h + [Died, LifeStarted, FlagCleared(n)], Snapshot(n, None), 1)
  {
    hide Possible, After, Check, NextReceipt, VerdictText, ReceiptCid, Records;
    Extend(u, before, RaiseError);
    Extend(u, before + [RaiseError], StartLife);
    var s3 := before + [RaiseError] + [StartLife];
    Extend(u, s3, SkipReconcile);
    Extend(u, s3 + [SkipReconcile], DropFlag);
    var s4 := s3 + [SkipReconcile] + [DropFlag];
    Extend(u, s4, WriteCleared);
    steps := s4 + [WriteCleared];
    assert After(u, steps).history == h + [Died, LifeStarted, FlagCleared(n)];
  }

  // A life dies after its live call at `c`, before the end of that tick, and the same decision is sent again
  // at `j` with no read of the chain in between.
  ghost predicate Refires(h: seq<Event>, c: nat, d: nat, j: nat) {
    && c < d < j < |h| && h[c].LiveCall? && h[d] == Died && h[j].LiveCall? && h[j].decision == h[c].decision
    && (forall m | c < m < d :: h[m] != TickWritten && h[m] != Died)
    && (forall m | d < m < j :: h[m] != Reconciled)
  }

  ghost predicate RefiresIn(u: Setup, steps: seq<Step>, c: nat, d: nat, j: nat) {
    Possible(u, steps) && Refires(After(u, steps).history, c, d, j)
  }

  /** Without a configured reconcile the protection is gone: for every set-up in which the engine lets some
      trade through there is a run in which a life dies right after its live call, the next one clears the
      flag of that intent without any read of the chain, and then sends the very same decision again. */
  lemma RefiresWithoutReconcile(u: Setup, decide: Step) returns (steps: seq<Step>)
    requires !u.reconciles && u.live && TradingDecision(u, decide)
    ensures Possible(u, steps)
    ensures var h := After(u, steps).history;
            && |h| == 11 && h[3] == IntentStaged(1) && h[4].LiveCall? && h[4].decision == decide.decision
            && h[5] == Died && h[7] == FlagCleared(1)
            && h[9] == IntentStaged(2) && h[10].LiveCall? && h[10].decision == decide.decision
            && Reconciled !in h
    ensures RefiresIn(u, steps, 4, 5, 10)
  {
    InitialRun(u);
    hide Possible, After, TradingDecision, Refires;
    Extend(u, [], StartRun);
    Extend(u, [] + [StartRun], StartLife);
    var s1 := [] + [StartRun] + [StartLife];
    var h1 := [RunStarted, LifeStarted];
    assert After(u, s1).history == h1;
    var s2, c1 := UnreconciledTick(u, s1, h1, 0, 0, decide);
    var h2 := h1 + [Decided, IntentStaged(1), c1];
    var s3 := UnreconciledRecovery(u, s2, h2, 1);
    var h3 := h2 + [Died, LifeStarted, FlagCleared(1)];
    var c2;
    steps, c2 := UnreconciledTick(u, s3, h3, 1, 1, decide);
    var h4 := h3 + [Decided, IntentStaged(2), c2];
    assert After(u, steps).history == h4;
    SameCallAgain(h4, c1, c2);
  }

  lemma SameCallAgain(h: seq<Event>, c1: Event, c2: Event)
    requires c1.LiveCall? && c2.LiveCall? && c1.decision == c2.decision
    requires h == [RunStarted, LifeStarted] + [Decided, IntentStaged(1), c1] + [Died, LifeStarted, FlagCleared(1)]
                  + [Decided, IntentStaged(2), c2]
    ensures |h| == 11 && h[3] == IntentStaged(1) && h[4] == c1 && h[5] == Died && h[7] == FlagCleared(1)
    ensures h[9] == IntentStaged(2) && h[10] == c2 && Reconciled !in h && Refires(h, 4, 5, 10)
  {
    assert h == [RunStarted, LifeStarted, Decided, IntentStaged(1), c1, Died, LifeStarted, FlagCleared(1), Decided,
                 IntentStaged(2), c2];
  }

  lemma InitialRun(u: Setup)
    ensures Possible(u, []) && After(u, []) == Init()
  {
  }

  // The engine lets some trade through.
  ghost predicate CanTrade(u: Setup) {
    exists decide :: TradingDecision(u, decide)
  }

  // Whatever was recorded as a trade or sent live could be.
  ghost predicate TradesPossible(u: Setup, s: State) {
    && (s.control.Recorded? && Trades(s.control.order) ==> CanTrade(u))
    && (s.control.Staged? ==> u.live && CanTrade(u))
    && (forall e | e in s.history && e.LiveCall? :: u.live && CanTrade(u))
  }

  lemma DecideTradesPossible(u: Setup, s: State, step: Step)
    requires TradesPossible(u, s) && Enabled(u, s, step) && step.Decide?
    ensures TradesPossible(u, Apply(u, s, step))
  {
    hide Check, NextReceipt, VerdictText, Records, CanTrade;
    var t := Apply(u, s, step);
    if Trades(t.control.order) {
      ATradingDecision(u, step);
    }
    assert t.history == s.history + [Decided];
  }

  lemma ATradingDecision(u: Setup, step: Step)
    requires TradingDecision(u, step)
    ensures CanTrade(u)
  {
  }

  lemma StepTradesPossible(u: Setup, s: State, step: Step)
    requires TradesPossible(u, s) && Enabled(u, s, step)
    ensures TradesPossible(u, Apply(u, s, step))
  {
    hide Check, NextReceipt, VerdictText, Records, CanTrade, Trades, ReceiptCid, WellFormed;
    if step.Decide? { DecideTradesPossible(u, s, step); }
  }

  lemma {:induction false} LiveCallsPossible(u: Setup, steps: seq<Step>)
    requires Possible(u, steps)
    ensures TradesPossible(u, After(u, steps))
  {
    hide TradesPossible, Apply, Enabled;
    if steps != [] {
      LiveCallsPossible(u, steps[..|steps| - 1]);
      StepTradesPossible(u, After(u, steps[..|steps| - 1]), steps[|steps| - 1]);
    } else {
      StartTradesPossible(u);
    }
  }

  lemma StartTradesPossible(u: Setup)
    ensures TradesPossible(u, Init())
  {
  }

  lemma ReconciledBetween(u: Setup, h: seq<Event>, c: nat, d: nat, j: nat) returns (k: nat)
    requires u.reconciles && LegalHistory(u, h)
    requires c < d < j < |h| && h[c].LiveCall? && h[d] == Died && h[j].LiveCall?
    requires forall m | c < m < d :: h[m] != TickWritten && h[m] != Died
    ensures d < k < j && h[k] == Reconciled
  {
    hide ToldBy, LegalHistory;
    var n := h[c].seqNo;
    LegalAt(u, h, c);
    DeathOrphans(u, h, n, c, d);
    hide PhaseOf, ToldAfter, Waits;
    k := ClearedBeforeCall(u, h, n, d + 1, j);
    k := k - 1;
  }

  lemma NoRefireWhenReconciling(u: Setup, steps: seq<Step>, c: nat, d: nat, j: nat)
    requires RefiresIn(u, steps, c, d, j)
    ensures !u.reconciles
  {
    hide After, Possible, ToldBy, LegalHistory;
    HistoryIsLegal(u, steps);
    if u.reconciles { var k := ReconciledBetween(u, After(u, steps).history, c, d, j); }
  }

  /** A trade can be sent again unread exactly when no reconcile is configured, the executor is live, and the
      engine lets some trade through at all. */
  lemma RefireCondition(u: Setup)
    ensures (exists steps, c: nat, d: nat, j: nat :: RefiresIn(u, steps, c, d, j))
        <==> !u.reconciles && u.live && CanTrade(u)
  {
    hide Possible, After, TradingDecision;
    if exists steps, c: nat, d: nat, j: nat :: RefiresIn(u, steps, c, d, j) {
      var steps, c: nat, d: nat, j: nat :| RefiresIn(u, steps, c, d, j);
      NoRefireWhenReconciling(u, steps, c, d, j);
      LiveCallsPossible(u, steps);
      assert After(u, steps).history[c] in After(u, steps).history;
    }
    if !u.reconciles && u.live && CanTrade(u) {
      var decide :| TradingDecision(u, decide);
      var steps := RefiresWithoutReconcile(u, decide);
    }
  }
}
