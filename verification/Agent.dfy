/** The live loop with its ledger: the transition system of `LiveLoop` in which each iteration has a market, the
    ledger is reconciled, marked and booked, and what is decided is the strategy's proposal on it
    (agent/run_live.py:139-214, agent/core.py:85-219). */
module Agent {
  import opened Wrappers
  import opened Canonical
  import opened Receipts
  import opened Engine
  import Survival
  import Signals
  import Ledger
  import NavFloor
  import Loop = LiveLoop

  // `seed` is what an offline ledger starts with; `first` is the ledger in the state file before any run.
  datatype Site = Site(u: Loop.Setup, seed: real, first: Ledger.Book)

  predicate Sound(site: Site) {
    Survival.Coherent(site.u.cfg)
  }

  // The balances last read from chain, the ledger they replaced, and when.
  datatype Read = Read(bals: seq<Ledger.Balance>, before: Ledger.Book, now: real)

  // The protocol's state, the three ledgers beside its three snapshots, and this iteration's market.
  datatype State = State(
    loop: Loop.State,
    mem: Ledger.Book,
    next: Ledger.Book,
    disk: Ledger.Book,
    pass: NavFloor.Pass,
    read: Option<Read>)

  // A step of the protocol; for the head of an iteration, the market it fetched and the balances it read.
  datatype Move = Move(step: Loop.Step, pass: NavFloor.Pass, bals: seq<Ledger.Balance>)

  const NO_PASS := NavFloor.Pass([], 0.0, 0.0, 0, 0.0, false)

  function Init(site: Site): State {
    State(Loop.Init(), site.first, site.first, site.first, NO_PASS, None)
  }

  function Prices(x: NavFloor.Pass): Ledger.Prices {
    Signals.PriceMap(x.views)
  }

  function Stables(cfg: Config): set<Token> {
    set q | q in cfg.quoteTokens
  }

  // Without a reconcile an empty ledger is seeded, and then marked.
  function Seeded(site: Site, b: Ledger.Book): Ledger.Book {
    if b.stable == 0.0 && b.positions == [] then b.(stable := site.seed) else b
  }

  function Offline(site: Site, b: Ledger.Book, x: NavFloor.Pass): Ledger.Book {
    Ledger.Marked(Seeded(site, b), Prices(x))
  }

  // With one, the ledger is overwritten from the balances, and then marked.
  function FromChain(site: Site, r: Read, x: NavFloor.Pass): Ledger.Book {
    Ledger.Marked(Ledger.Synced(r.before, r.bals, Prices(x), Stables(site.u.cfg), r.now), Prices(x))
  }

  function ViewOn(b: Ledger.Book, x: NavFloor.Pass): PortfolioView {
    Survival.ViewOf(NavFloor.PortfolioOf(b, Prices(x), x.since), x.tradesLastHour)
  }

  // A decision is the strategy's proposal on the ledger, judged on the same ledger.
  predicate Can(site: Site, a: State, mv: Move)
    requires Sound(site)
  {
    && Loop.Enabled(site.u, a.loop, mv.step)
    && (mv.step.Decide? ==>
          && mv.step.decision == NavFloor.Proposal(site.u.cfg, a.mem, a.pass)
          && mv.step.view == ViewOn(a.mem, a.pass) && mv.step.dataAge == a.pass.dataAge)
  }

  function Done(site: Site, a: State, mv: Move): State
    requires Sound(site) && Can(site, a, mv)
  {
    var b := a.(loop := Loop.Apply(site.u, a.loop, mv.step));
    match mv.step
    case StartLife => b.(mem := a.disk)
    case Reconcile =>
      var r := Read(mv.bals, a.mem, mv.pass.now);
      b.(mem := FromChain(site, r, mv.pass), pass := mv.pass, read := Some(r))
    case SkipReconcile => b.(mem := Offline(site, a.mem, mv.pass), pass := mv.pass)
    case Decide(_, _, _, _) => b.(next := a.mem)
    case Stage => b.(disk := a.next)
    case Answer(executed) =>
      var o := a.loop.control.order;
      if executed then
        b.(next := Ledger.Filled(a.next, o.decision, o.verdict.amount, Prices(a.pass), a.pass.now))
      else b
    case Return => b.(mem := Ledger.Marked(a.next, Prices(a.pass)))
    case WriteUnreadable => b.(disk := a.mem)
    case WriteCleared => b.(disk := a.mem)
    case WriteTick => b.(disk := a.mem)
    case _ => b
  }

  predicate Feasible(site: Site, moves: seq<Move>)
    requires Sound(site)
    decreases |moves|, 0
  {
    moves == [] ||
    (Feasible(site, moves[..|moves| - 1]) && Can(site, After(site, moves[..|moves| - 1]), moves[|moves| - 1]))
  }

  function After(site: Site, moves: seq<Move>): State
    requires Sound(site) && Feasible(site, moves)
    decreases |moves|, 1
  {
    if moves == [] then Init(site) else Done(site, After(site, moves[..|moves| - 1]), moves[|moves| - 1])
  }

  function StepsOf(moves: seq<Move>): seq<Loop.Step> {
    if moves == [] then [] else StepsOf(moves[..|moves| - 1]) + [moves[|moves| - 1].step]
  }

  /** Leaving the ledger aside, what is left is a run of the protocol: whatever is proved of those runs holds. */
  lemma {:induction false} ProtocolRuns(site: Site, moves: seq<Move>)
    requires Sound(site) && Feasible(site, moves)
    ensures Loop.Possible(site.u, StepsOf(moves)) && Loop.After(site.u, StepsOf(moves)) == After(site, moves).loop
  {
    hide Loop.Possible, Loop.After, Loop.Apply, Loop.Enabled, Sound;
    if moves == [] {
      Loop.InitialRun(site.u);
    } else {
      var before, mv := moves[..|moves| - 1], moves[|moves| - 1];
      ProtocolRuns(site, before);
      Loop.Extend(site.u, StepsOf(before), mv.step);
    }
  }

  // ---------------------------------------------------------------- decisions are taken on chain truth

  // The ledger is what the balances last read make it, at this iteration's prices.
  predicate OnChain(site: Site, a: State) {
    a.read.Some? && a.mem == FromChain(site, a.read.value, a.pass)
  }

  // From the mark to the executor's answer the ledger is the one decided on.
  predicate Deciding(c: Loop.Control) {
    c.Marked? || c.Clearing? || c.Recorded? || c.Staged? || c.Calling? || c.Answered?
  }

  predicate OrderOn(site: Site, a: State, o: Loop.Order)
    requires Sound(site)
  {
    && o.decision == NavFloor.Proposal(site.u.cfg, a.mem, a.pass)
    && o.verdict == NavFloor.VerdictOn(site.u.cfg, a.mem, a.pass)
  }

  predicate Grounded(site: Site, a: State)
    requires Sound(site)
  {
    && (site.u.reconciles && Deciding(a.loop.control) ==> OnChain(site, a))
    && (a.loop.control.Recorded? || a.loop.control.Staged? || a.loop.control.Calling? ==>
          OrderOn(site, a, a.loop.control.order) && a.next == a.mem)
    && (a.loop.control.Staged? ==> a.disk == a.mem)
  }

  lemma DecisionGrounded(site: Site, a: State, mv: Move)
    requires Sound(site) && Can(site, a, mv) && Grounded(site, a) && mv.step.Decide?
    ensures Grounded(site, Done(site, a, mv))
  {
    hide Survival.Coherent, FromChain, Offline, NavFloor.Proposal, Check, NextReceipt, Loop.Records, Loop.Trades,
      Loop.VerdictText, WellFormed, Loop.EventOf, NavFloor.PortfolioOf, ReceiptCid;
    var b := Done(site, a, mv);
    assert b.loop.control.order.verdict == Check(site.u.cfg, mv.step.decision, mv.step.view, mv.step.dataAge);
  }

  predicate Entering(step: Loop.Step) {
    step.Reconcile? || step.SkipReconcile?
  }

  lemma EnteringGrounded(site: Site, a: State, mv: Move)
    requires Sound(site) && Can(site, a, mv) && Entering(mv.step)
    ensures Grounded(site, Done(site, a, mv))
  {
    hide Sound, FromChain, Offline, NavFloor.Proposal, NavFloor.VerdictOn, OrderOn, Check;
  }

  // The other steps keep the ledger from the mark to the executor's answer.
  lemma OtherGrounded(site: Site, a: State, mv: Move)
    requires Sound(site) && Can(site, a, mv) && Grounded(site, a) && !mv.step.Decide? && !Entering(mv.step)
    ensures Grounded(site, Done(site, a, mv))
  {
    hide Sound, FromChain, Offline, OrderOn, NextReceipt, Loop.Trades, Loop.EventOf, Ledger.Filled, Ledger.Marked,
      Prices;
    var b := Done(site, a, mv);
    if site.u.reconciles && Deciding(b.loop.control) { assert OnChain(site, a); }
    if b.loop.control.Recorded? || b.loop.control.Staged? || b.loop.control.Calling? {
      SameOrder(site, a, b, b.loop.control.order);
    }
  }

  lemma SameOrder(site: Site, a: State, b: State, o: Loop.Order)
    requires Sound(site) && a.mem == b.mem && a.pass == b.pass
    ensures OrderOn(site, a, o) <==> OrderOn(site, b, o)
  {
  }

  lemma StepGrounded(site: Site, a: State, mv: Move)
    requires Sound(site) && Can(site, a, mv) && Grounded(site, a)
    ensures Grounded(site, Done(site, a, mv))
  {
    hide Sound, Can, Done, Grounded;
    if mv.step.Decide? {
      DecisionGrounded(site, a, mv);
    } else if Entering(mv.step) {
      EnteringGrounded(site, a, mv);
    } else {
      OtherGrounded(site, a, mv);
    }
  }

  lemma {:induction false} AlwaysGrounded(site: Site, moves: seq<Move>)
    requires Sound(site) && Feasible(site, moves)
    ensures Grounded(site, After(site, moves))
  {
    hide Sound, Can, Done, Grounded;
    if moves == [] {
      InitGrounded(site);
    } else {
      AlwaysGrounded(site, moves[..|moves| - 1]);
      StepGrounded(site, After(site, moves[..|moves| - 1]), moves[|moves| - 1]);
    }
  }

  lemma InitGrounded(site: Site)
    requires Sound(site)
    ensures Grounded(site, Init(site))
  {
    hide Sound;
  }

  /** With a reconcile configured, in every state that decides, records, stages or calls, through any deaths
      before it, the ledger is the synced and marked one of the balances last read; and what is about to be
      sent is the strategy's proposal on that ledger, let through by the engine on the same. */
  lemma CallFollowsChain(site: Site, moves: seq<Move>)
    requires Sound(site) && Feasible(site, moves) && site.u.reconciles
    ensures var a := After(site, moves);
            && (Deciding(a.loop.control) ==> OnChain(site, a))
            && (a.loop.control.Staged? ==>
                  OrderOn(site, a, a.loop.control.order) && Loop.Trades(a.loop.control.order) && a.disk == a.mem)
  {
    hide Sound, Feasible, After, OnChain, OrderOn, Loop.Possible, Loop.After, Loop.Trades, Loop.LogsAgree, Loop.CallsOk,
      Loop.CountsOk, Loop.LegalHistory, Loop.ToldBy, Loop.OrderRecorded;
    AlwaysGrounded(site, moves);
    ProtocolRuns(site, moves);
    Loop.InvHolds(site.u, StepsOf(moves));
  }

  /** A crash leaves no trace. Whatever two agents did before, however many lives were lost after however many
      broadcasts, and whatever their ledgers had been: once both decide on the same balances and prices,
      they decide on the same cash, the same holdings and the same NAV. */
  lemma CrashLeavesNoTrace(site1: Site, moves1: seq<Move>, site2: Site, moves2: seq<Move>)
    requires Sound(site1) && Feasible(site1, moves1) && Sound(site2) && Feasible(site2, moves2)
    requires site1.u.reconciles && site2.u.reconciles && Stables(site1.u.cfg) == Stables(site2.u.cfg)
    requires var a1, a2 := After(site1, moves1), After(site2, moves2);
             && Deciding(a1.loop.control) && Deciding(a2.loop.control) && Prices(a1.pass) == Prices(a2.pass)
             && (a1.read.Some? && a2.read.Some? ==> a1.read.value.bals == a2.read.value.bals)
    ensures var m1, m2 := After(site1, moves1).mem, After(site2, moves2).mem;
            m1.stable == m2.stable && m1.nav == m2.nav && Ledger.SameHoldings(m1.positions, m2.positions)
  {
    hide Sound, Feasible, After, Deciding, Prices, Stables, Ledger.SameHoldings, Ledger.Reconciled, Ledger.Marked;
    AlwaysGrounded(site1, moves1);
    AlwaysGrounded(site2, moves2);
    var r1, r2 := After(site1, moves1).read.value, After(site2, moves2).read.value;
    var x := After(site1, moves1).pass;
    Ledger.ReconcileForgetsDrift(r1.before, r2.before, r1.bals, Prices(x), Stables(site1.u.cfg), r1.now, r2.now);
  }

  /** The NAV that is decided on is the value on chain, up to a dollar of dust for each risky symbol. */
  lemma DecidesOnChainValue(site: Site, moves: seq<Move>)
    requires Sound(site) && Feasible(site, moves) && site.u.reconciles && Deciding(After(site, moves).loop.control)
    requires var a := After(site, moves);
             && Ledger.PositivePrices(Prices(a.pass))
             && (a.read.Some? ==> forall i | 0 <= i < |a.read.value.bals| :: a.read.value.bals[i].qty >= 0.0)
    ensures var a := After(site, moves);
            && a.read.Some?
            && var bals := a.read.value.bals;
               var chain := Ledger.ChainValue(bals, Prices(a.pass), Stables(site.u.cfg));
               var risky := Ledger.RiskySymbols(bals, Stables(site.u.cfg));
               a.mem.nav <= chain && chain - a.mem.nav <= risky as real * Ledger.DUST_USD
  {
    hide Sound, Feasible, After, Prices, Stables, Ledger.Reconciled, Ledger.Marked, Ledger.ChainValue,
      Ledger.RiskySymbols, Ledger.PositivePrices, Ledger.ChainCash;
    AlwaysGrounded(site, moves);
    var a := After(site, moves);
    var r := a.read.value;
    Ledger.ReconciledNavIsChainValue(r.before, r.bals, Prices(a.pass), Stables(site.u.cfg), r.now);
  }

  // ---------------------------------------------------------------- without a reconcile the strategy itself re-fires

  lemma Extend(site: Site, moves: seq<Move>, mv: Move)
    requires Sound(site) && Feasible(site, moves) && Can(site, After(site, moves), mv)
    ensures Feasible(site, moves + [mv]) && After(site, moves + [mv]) == Done(site, After(site, moves), mv)
  {
    hide Can, Done, Sound;
    assert (moves + [mv])[..|moves|] == moves;
  }

  // A receipt can be drafted for the proposal on ledger `b`, which the engine lets through.
  predicate TradesOn(site: Site, b: Ledger.Book, x: NavFloor.Pass, draft: Draft)
    requires Sound(site)
  {
    var d, v := NavFloor.Proposal(site.u.cfg, b, x), NavFloor.VerdictOn(site.u.cfg, b, x);
    && Allowed(v) && IsTrade(d) && draft.verdict == Loop.VerdictText(v) && draft.policyHash == site.u.policyHash
    && WellFormed(draft.decision) && Loop.Records(site.u, draft.decision, d)
  }

  // At the head of the loop, with nothing pending and the ledger `b` in memory and on disk.
  predicate AtTop(site: Site, moves: seq<Move>, h: seq<Loop.Event>, n: nat, restarts: nat, b: Ledger.Book)
    requires Sound(site)
  {
    && Feasible(site, moves)
    && var a := After(site, moves);
       && a.loop.control == Loop.Top && a.loop.restarts == restarts && a.loop.history == h
       && a.loop.mem == a.loop.disk == Loop.Snapshot(n, None) && a.mem == a.disk == b
  }

  // In the middle of a live call, with the intent and the ledger `b` on disk.
  predicate InCall(site: Site, moves: seq<Move>, h: seq<Loop.Event>, n: nat, restarts: nat, b: Ledger.Book)
    requires Sound(site)
  {
    && Feasible(site, moves)
    && var a := After(site, moves);
       && a.loop.control.Calling? && a.loop.restarts == restarts && a.loop.history == h && a.disk == b
       && a.loop.disk.intentSeq == n && a.loop.disk.pending.Some? && a.loop.disk.pending.value.seqNo == n
  }

  function Plain(step: Loop.Step): Move {
    Move(step, NO_PASS, [])
  }

  lemma Tick(
    site: Site, before: seq<Move>, h: seq<Loop.Event>, n: nat, restarts: nat, b: Ledger.Book, x: NavFloor.Pass,
    draft: Draft)
    returns (moves: seq<Move>, call: Loop.Event)
    requires Sound(site) && !site.u.reconciles && site.u.live && AtTop(site, before, h, n, restarts, b)
    requires TradesOn(site, Offline(site, b, x), x, draft)
    ensures var h' := h + [Loop.Decided, Loop.IntentStaged(n + 1), call];
            InCall(site, moves, h', n + 1, restarts, Offline(site, b, x))
    ensures call.LiveCall? && call.decision == NavFloor.Proposal(site.u.cfg, Offline(site, b, x), x)
  {
    hide Feasible, After, Survival.Coherent, Check, NextReceipt, Loop.VerdictText, ReceiptCid, Loop.Records, Offline,
      NavFloor.Proposal, NavFloor.PortfolioOf, WellFormed;
    var m := Offline(site, b, x);
    var decide := Plain(Loop.Decide(NavFloor.Proposal(site.u.cfg, m, x), ViewOn(m, x), x.dataAge, draft));
    Extend(site, before, Move(Loop.SkipReconcile, x, []));
    var s1 := before + [Move(Loop.SkipReconcile, x, [])];
    Extend(site, s1, decide);
    var s2 := s1 + [decide];
    Extend(site, s2, Plain(Loop.Stage));
    Extend(site, s2 + [Plain(Loop.Stage)], Plain(Loop.CallLive));
    moves := s2 + [Plain(Loop.Stage)] + [Plain(Loop.CallLive)];
    var s := After(site, moves).loop;
    call := s.history[|s.history| - 1];
    assert s.history == h + [Loop.Decided, Loop.IntentStaged(n + 1), call];
  }

  lemma Recovery(
    site: Site, before: seq<Move>, h: seq<Loop.Event>, n: nat, b: Ledger.Book, x: NavFloor.Pass)
    returns (moves: seq<Move>)
    requires Sound(site) && !site.u.reconciles && InCall(site, before, h, n, 0, b)
    ensures AtTop(site, moves, h + [Loop.Died, Loop.LifeStarted, Loop.FlagCleared(n)], n, 1, Offline(site, b, x))
  {
    hide Feasible, After, Sound, Check, NextReceipt, Loop.VerdictText, ReceiptCid, Loop.Records, Offline,
      NavFloor.Proposal, NavFloor.PortfolioOf;
    Extend(site, before, Plain(Loop.RaiseError));
    Extend(site, before + [Plain(Loop.RaiseError)], Plain(Loop.StartLife));
    var s3 := before + [Plain(Loop.RaiseError)] + [Plain(Loop.StartLife)];
    var enter := Move(Loop.SkipReconcile, x, []);
    Extend(site, s3, enter);
    Extend(site, s3 + [enter], Plain(Loop.DropFlag));
    var s4 := s3 + [enter] + [Plain(Loop.DropFlag)];
    Extend(site, s4, Plain(Loop.WriteCleared));
    moves := s4 + [Plain(Loop.WriteCleared)];
    assert After(site, moves).loop.history == h + [Loop.Died, Loop.LifeStarted, Loop.FlagCleared(n)];
  }

  lemma OfflineTwice(site: Site, b: Ledger.Book, x: NavFloor.Pass, y: NavFloor.Pass)
    requires Prices(x) == Prices(y)
    ensures Offline(site, Offline(site, b, x), y) == Offline(site, b, x)
  {
    hide Prices;
  }

  /** Without a configured reconcile the strategy itself sends its trade twice. Wherever it would trade on what
      the market `x` shows, and would propose the same once more on a later look at the same prices, a life
      that dies in its call is followed by one that finds the ledger of before the trade on disk, clears the
      flag unread, and calls the executor for the very same decision. */
  lemma StrategyRefires(
    site: Site, before: seq<Move>, h: seq<Loop.Event>, n: nat, b: Ledger.Book,
    x: NavFloor.Pass, draft: Draft, y: NavFloor.Pass, again: Draft)
    returns (moves: seq<Move>)
    requires Sound(site) && !site.u.reconciles && site.u.live && AtTop(site, before, h, n, 0, b)
    requires TradesOn(site, Offline(site, b, x), x, draft)
    requires Prices(x) == Prices(y) && TradesOn(site, Offline(site, b, x), y, again)
    requires NavFloor.Proposal(site.u.cfg, Offline(site, b, x), y)
          == NavFloor.Proposal(site.u.cfg, Offline(site, b, x), x)
    ensures Feasible(site, moves)
    ensures Loop.Refires(After(site, moves).loop.history, |h| + 2, |h| + 3, |h| + 8)
  {
    hide Feasible, After, Sound, AtTop, InCall, TradesOn, Offline, NavFloor.Proposal, Prices;
    var m := Offline(site, b, x);
    OfflineTwice(site, b, x, y);
    var s1, c1 := Tick(site, before, h, n, 0, b, x, draft);
    var h1 := h + [Loop.Decided, Loop.IntentStaged(n + 1), c1];
    var s2 := Recovery(site, s1, h1, n + 1, m, y);
    var h2 := h1 + [Loop.Died, Loop.LifeStarted, Loop.FlagCleared(n + 1)];
    var c2;
    moves, c2 := Tick(site, s2, h2, n + 1, 1, m, y, again);
    InCallMeans(site, moves, h2 + [Loop.Decided, Loop.IntentStaged(n + 2), c2], n + 2, 1, m);
    SentAgain(h, n, c1, c2);
  }

  lemma InCallMeans(site: Site, moves: seq<Move>, h: seq<Loop.Event>, n: nat, restarts: nat, b: Ledger.Book)
    requires Sound(site) && InCall(site, moves, h, n, restarts, b)
    ensures Feasible(site, moves) && After(site, moves).loop.history == h
  {
    hide Sound, Feasible, After;
  }

  lemma SentAgain(h: seq<Loop.Event>, n: nat, c1: Loop.Event, c2: Loop.Event)
    requires c1.LiveCall? && c2.LiveCall? && c1.decision == c2.decision
    ensures Loop.Refires(
              h + [Loop.Decided, Loop.IntentStaged(n + 1), c1] + [Loop.Died, Loop.LifeStarted, Loop.FlagCleared(n + 1)]
                + [Loop.Decided, Loop.IntentStaged(n + 2), c2],
              |h| + 2, |h| + 3, |h| + 8)
  {
  }

  // ---------------------------------------------------------------- it happens

  // The dictionary of the sample's decision, with the entry's confidence.
  function SampleMembers(u: Loop.Setup): seq<Member> {
    Loop.TradeMembers(u, NavFloor.SAMPLE_DECISION) + [Member("confidence", Number("0.7")), Member("rationale", Str(""))]
  }

  function SampleDraft(u: Loop.Setup): Draft {
    Draft("", u.policyHash, "trade", Obj(SampleMembers(u)), "allow", "within policy", "")
  }

  lemma SampleKeys(u: Loop.Setup)
    ensures UniqueKeys(SampleMembers(u))
  {
    var ms := SampleMembers(u);
    assert |ms| == 7 && |ms[0].key| == 4 && |ms[1].key| == 5 && |ms[2].key| == 10 && |ms[3].key| == 8;
    assert |ms[4].key| == 10 && |ms[5].key| == 10 && |ms[6].key| == 9;
    assert ms[2].key[0] == 'f' && ms[4].key[0] == 'a' && ms[5].key[0] == 'c';
    hide Loop.TradeMembers, SampleMembers;
  }

  lemma SampleLexeme()
    ensures NumberLexeme("0.7")
  {
  }

  lemma SampleDrafted(u: Loop.Setup)
    requires NumberLexeme(u.repr(30.0))
    ensures WellFormed(SampleDraft(u).decision)
    ensures Loop.Records(u, SampleDraft(u).decision, NavFloor.SAMPLE_DECISION)
  {
    SampleKeys(u);
    SampleLexeme();
    hide UniqueKeys, NumberLexeme;
    assert SampleMembers(u)[..5] == Loop.TradeMembers(u, NavFloor.SAMPLE_DECISION);
  }

  lemma SampleTrades(site: Site)
    requires site.u.cfg == NavFloor.SAMPLE && NumberLexeme(site.u.repr(30.0)) && site.first == NavFloor.SAMPLE_BOOK
    ensures Sound(site) && Offline(site, site.first, NavFloor.SAMPLE_PASS) == site.first
    ensures TradesOn(site, site.first, NavFloor.SAMPLE_PASS, SampleDraft(site.u))
  {
    SampleDrafted(site.u);
    NavFloor.SampleProposal();
    hide NavFloor.Proposal, NavFloor.VerdictOn, Ledger.Marked, Signals.PriceMap, WellFormed, Loop.Records,
      SampleMembers, Survival.Coherent;
  }

  /** The engine lets trades of the strategy through: on the sample configuration a live agent can trade. */
  lemma SampleCanTrade(u: Loop.Setup)
    requires u.cfg == NavFloor.SAMPLE && NumberLexeme(u.repr(30.0))
    ensures Loop.CanTrade(u)
  {
    SampleDrafted(u);
    NavFloor.SampleVerdict();
    hide Check, WellFormed, Loop.Records, SampleMembers;
    var decide := Loop.Decide(NavFloor.SAMPLE_DECISION, PortfolioView(1000.0, 0.0, 0.0, 0, 0.0), 0.0, SampleDraft(u));
    Loop.ATradingDecision(u, decide);
  }

  /** And a live agent without a reconcile, begun with the sample's thousand dollars, does send it twice. */
  lemma SampleRefires(site: Site) returns (moves: seq<Move>)
    requires site.u.cfg == NavFloor.SAMPLE && NumberLexeme(site.u.repr(30.0)) && site.first == NavFloor.SAMPLE_BOOK
    requires site.u.live && !site.u.reconciles
    ensures Sound(site) && Feasible(site, moves) && Loop.Refires(After(site, moves).loop.history, 4, 5, 10)
  {
    SampleTrades(site);
    var start := Begin(site);
    hide Feasible, After, Sound, AtTop, TradesOn, Offline, NavFloor.Proposal, Prices,
      SampleDraft;
    var x := NavFloor.SAMPLE_PASS;
    moves := StrategyRefires(
      site, start, [Loop.RunStarted, Loop.LifeStarted], 0, site.first, x, SampleDraft(site.u), x, SampleDraft(site.u));
  }

  lemma Begin(site: Site) returns (moves: seq<Move>)
    requires Sound(site)
    ensures AtTop(site, moves, [Loop.RunStarted, Loop.LifeStarted], 0, 0, site.first)
    ensures moves == [Plain(Loop.StartRun), Plain(Loop.StartLife)]
  {
    hide Sound;
    var start, life := Plain(Loop.StartRun), Plain(Loop.StartLife);
    Extend(site, [], start);
    Extend(site, [] + [start], life);
    moves := [] + [start] + [life];
    assert After(site, moves).loop.history == [Loop.RunStarted, Loop.LifeStarted];
  }
}
