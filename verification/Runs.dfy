/** What runs of the live agent keep of the ledger, over any number of ticks, deaths and restarts
    (agent/run_live.py:139-214): the floor under the NAV, and the entries of the positions. */
module Runs {
  import opened Ladder
  import opened Canonical
  import opened Receipts
  import opened Engine
  import opened Agent
  import opened Ticks
  import Survival
  import Signals
  import Ledger
  import Booking
  import NavFloor
  import Loop = LiveLoop

  // ---------------------------------------------------------------- sane ledgers

  // Every market that an iteration sees has positive prices.
  predicate PositiveMarkets(moves: seq<Move>) {
    forall mv | mv in moves && Entering(mv.step) :: NavFloor.PositiveMarket(mv.pass)
  }

  // The agent keeps its own ledger, on a prudent configuration.
  predicate Offgrid(site: Site) {
    Sound(site) && NavFloor.Prudent(site.u.cfg) && !site.u.reconciles && site.seed >= 0.0
  }

  predicate AllSane(site: Site, a: State) {
    && NavFloor.Sane(site.u.cfg, a.mem) && NavFloor.Sane(site.u.cfg, a.next) && NavFloor.Sane(site.u.cfg, a.disk)
    && NavFloor.PositiveMarket(a.pass)
  }

  // What an order is for: nothing negative, and a buy only of a token of the universe.
  lemma OrderIsSane(site: Site, a: State, o: Loop.Order)
    requires Offgrid(site) && NavFloor.Sane(site.u.cfg, a.mem) && OrderOn(site, a, o)
    ensures o.verdict.amount >= 0.0 && (o.decision.side == Buy ==> o.decision.to in site.u.cfg.universe)
  {
    var cfg := site.u.cfg;
    NavFloor.ProposedBuysTakeRisk(cfg, a.mem, a.pass);
    NavFloor.AmountNonNegative(cfg, NavFloor.Proposal(cfg, a.mem, a.pass), ViewOn(a.mem, a.pass), a.pass.dataAge);
    hide Survival.DecideIntent, Check, NavFloor.PortfolioOf, NavFloor.Proposal;
  }

  /** The answer makes the tick book a buy. */
  predicate BooksBuy(a: State, mv: Move) {
    && mv.step == Loop.Answer(true) && a.loop.control.Calling? && a.loop.control.order.decision.side == Buy
    && Ledger.BuyBooks(
         a.next, a.loop.control.order.decision.to, a.loop.control.order.verdict.amount, Prices(a.pass))
  }

  // A fill of a sane order.
  lemma FillSane(site: Site, b: Ledger.Book, o: Loop.Order, x: NavFloor.Pass)
    requires Offgrid(site) && NavFloor.Sane(site.u.cfg, b) && NavFloor.PositiveMarket(x) && o.verdict.amount >= 0.0
    requires o.decision.side == Buy ==> o.decision.to in site.u.cfg.universe
    ensures var c := Ledger.Filled(b, o.decision, o.verdict.amount, Prices(x), x.now);
            && NavFloor.Sane(site.u.cfg, c)
            && (!(o.decision.side == Buy && Ledger.BuyBooks(b, o.decision.to, o.verdict.amount, Prices(x))) ==>
                  c.stable >= b.stable)
  {
    NavFloor.FillKeepsSane(site.u.cfg, b, o.decision, o.verdict.amount, Prices(x), x.now);
    hide Sound, NavFloor.Prudent, NavFloor.Sane, Ledger.Filled, Ledger.BuyBooks, Signals.PriceMap;
  }

  lemma CallGrounded(site: Site, a: State)
    requires Sound(site) && Grounded(site, a) && a.loop.control.Calling?
    ensures OrderOn(site, a, a.loop.control.order) && a.next == a.mem
  {
    hide Sound, OrderOn, OnChain;
  }

  lemma AnswerSane(site: Site, a: State, mv: Move)
    requires Offgrid(site) && Can(site, a, mv) && Grounded(site, a) && AllSane(site, a) && mv.step.Answer?
    ensures AllSane(site, Done(site, a, mv))
    ensures !BooksBuy(a, mv) ==> Done(site, a, mv).next.stable >= a.next.stable
  {
    AnswersCall(site, a, mv);
    CallGrounded(site, a);
    OrderIsSane(site, a, a.loop.control.order);
    FillSane(site, a.next, a.loop.control.order, a.pass);
    FromCall(site, a, mv);
    hide Sound, Can, Done, NavFloor.Prudent, OrderOn, Grounded, NavFloor.Sane, Ledger.Filled, Ledger.BuyBooks, Prices;
  }

  lemma AnswersCall(site: Site, a: State, mv: Move)
    requires Sound(site) && Can(site, a, mv) && mv.step.Answer?
    ensures a.loop.control.Calling?
  {
  }

  // From the decision to the end of the tick the new ledger is in the making.
  predicate InTheMaking(c: Loop.Control) {
    c.Recorded? || c.Staged? || c.Calling? || c.Answered? || c.Finishing?
  }

  // Where the ledgers come from in every step but a reconcile and the executor's answer.
  lemma OtherLedgers(site: Site, a: State, mv: Move)
    requires Sound(site) && Can(site, a, mv) && !mv.step.Answer? && !mv.step.Reconcile?
    ensures var b := Done(site, a, mv);
            && (|| b.mem == a.mem || b.mem == a.disk
                || (mv.step.SkipReconcile? && b.mem == Offline(site, a.mem, mv.pass))
                || (a.loop.control.Finishing? && b.mem == Ledger.Marked(a.next, Prices(a.pass))))
            && (b.disk == a.disk || b.disk == a.mem || (a.loop.control.Recorded? && b.disk == a.next))
            && (b.next == a.next || b.next == a.mem)
            && (InTheMaking(b.loop.control) ==>
                  b.next == a.mem || (InTheMaking(a.loop.control) && b.next == a.next))
            && (b.pass == a.pass || (mv.step.SkipReconcile? && b.pass == mv.pass))
  {
    hide Sound, Ledger.Marked, Prices, Check, NextReceipt, Loop.EventOf, Loop.Trades, NavFloor.Proposal, FromChain,
      Offline;
  }

  lemma NeverReconciles(site: Site, a: State, mv: Move)
    requires Sound(site) && Can(site, a, mv) && !site.u.reconciles
    ensures !mv.step.Reconcile?
  {
  }

  // A mark, and the seeding of an empty ledger, keep it sane.
  lemma OfflineSane(site: Site, b: Ledger.Book, x: NavFloor.Pass)
    requires NavFloor.Sane(site.u.cfg, b)
    ensures NavFloor.Sane(site.u.cfg, Offline(site, b, x))
    ensures NavFloor.Sane(site.u.cfg, Ledger.Marked(b, Prices(x)))
  {
    hide Prices, Ledger.MarkedRisk;
  }

  lemma OtherSane(site: Site, a: State, mv: Move)
    requires Offgrid(site) && Can(site, a, mv) && AllSane(site, a) && !mv.step.Answer?
    requires Entering(mv.step) ==> NavFloor.PositiveMarket(mv.pass)
    ensures AllSane(site, Done(site, a, mv))
  {
    OfflineSane(site, a.mem, mv.pass);
    OfflineSane(site, a.next, a.pass);
    NeverReconciles(site, a, mv);
    OtherLedgers(site, a, mv);
    hide Sound, Can, Done, NavFloor.Prudent, NavFloor.Sane, NavFloor.PositiveMarket, Ledger.Marked, Offline, Prices;
  }

  lemma {:induction false} AlwaysSane(site: Site, moves: seq<Move>)
    requires Offgrid(site) && Feasible(site, moves) && PositiveMarkets(moves) && NavFloor.Sane(site.u.cfg, site.first)
    ensures AllSane(site, After(site, moves))
  {
    hide Sound, NavFloor.Prudent, Can, Done, AllSane, NavFloor.Sane;
    if moves == [] {
      StartSane(site);
    } else {
      var before, mv := moves[..|moves| - 1], moves[|moves| - 1];
      assert forall m | m in before :: m in moves;
      AlwaysSane(site, before);
      AlwaysGrounded(site, before);
      assert mv in moves;
      if mv.step.Answer? {
        AnswerSane(site, After(site, before), mv);
      } else {
        OtherSane(site, After(site, before), mv);
      }
    }
  }

  lemma StartSane(site: Site)
    requires NavFloor.Sane(site.u.cfg, site.first)
    ensures AllSane(site, Init(site))
  {
  }

  // ---------------------------------------------------------------- the floor under the NAV, over runs

  // The cash of a ledger once an iteration has begun on it.
  function CashOf(site: Site, b: Ledger.Book): real {
    Seeded(site, b).stable
  }

  // Whatever is loaded from disk in place of memory has at least as much cash, until a tick is over.
  predicate Even(site: Site, a: State) {
    && (a.loop.control.Top? ==> a.mem == a.disk)
    && (Deciding(a.loop.control) && !a.loop.control.Answered? ==>
          Seeded(site, a.mem) == a.mem && CashOf(site, a.disk) >= a.mem.stable)
  }

  lemma OfflineEven(site: Site, b: Ledger.Book, x: NavFloor.Pass)
    ensures Seeded(site, Offline(site, b, x)) == Offline(site, b, x) && Offline(site, b, x).stable == CashOf(site, b)
    ensures CashOf(site, Ledger.Marked(b, Prices(x))) == CashOf(site, b)
  {
    hide Prices, Ledger.MarkedRisk;
  }

  lemma StepEven(site: Site, a: State, mv: Move)
    requires Offgrid(site) && Can(site, a, mv) && Grounded(site, a) && Even(site, a)
    requires a.loop.control.Unreadable? ==> site.u.reconciles
    ensures Even(site, Done(site, a, mv)) && (Done(site, a, mv).loop.control.Unreadable? ==> site.u.reconciles)
  {
    OfflineEven(site, a.mem, mv.pass);
    SeededIsIts(site, a.mem);
    hide Sound, NavFloor.Prudent, OrderOn, OnChain, Ledger.Marked, Ledger.Filled, Offline, Prices, Check, NextReceipt,
      Loop.EventOf, Loop.Trades, NavFloor.Proposal, FromChain, Seeded, CashOf;
  }

  lemma SeededIsIts(site: Site, b: Ledger.Book)
    ensures Seeded(site, b) == b ==> CashOf(site, b) == b.stable
  {
  }

  lemma {:induction false} AlwaysEven(site: Site, moves: seq<Move>)
    requires Offgrid(site) && Feasible(site, moves)
    ensures Even(site, After(site, moves)) && (After(site, moves).loop.control.Unreadable? ==> site.u.reconciles)
  {
    hide Sound, NavFloor.Prudent, Can, Done, Even;
    if moves == [] {
      StartEven(site);
    } else {
      var before := moves[..|moves| - 1];
      AlwaysEven(site, before);
      AlwaysGrounded(site, before);
      StepEven(site, After(site, before), moves[|moves| - 1]);
    }
  }

  lemma StartEven(site: Site)
    ensures Even(site, Init(site))
  {
  }

  // All three ledgers have at least this much cash.
  predicate Above(site: Site, floor: real, a: State) {
    CashOf(site, a.mem) >= floor && CashOf(site, a.next) >= floor && CashOf(site, a.disk) >= floor
  }

  lemma AnswerAbove(site: Site, floor: real, a: State, mv: Move)
    requires Offgrid(site) && Can(site, a, mv) && Grounded(site, a) && AllSane(site, a) && Even(site, a)
    requires mv.step.Answer? && !BooksBuy(a, mv) && Above(site, floor, a)
    ensures Above(site, floor, Done(site, a, mv))
  {
    AnswerSane(site, a, mv);
    AnswersCall(site, a, mv);
    CallGrounded(site, a);
    FromCall(site, a, mv);
    hide Sound, Can, Done, NavFloor.Prudent, OrderOn, Grounded, AllSane, BooksBuy, Ledger.Filled, Prices;
  }

  lemma OtherAbove(site: Site, floor: real, a: State, mv: Move)
    requires Offgrid(site) && Can(site, a, mv) && !mv.step.Answer? && Above(site, floor, a)
    ensures Above(site, floor, Done(site, a, mv))
  {
    OfflineEven(site, a.mem, mv.pass);
    OfflineEven(site, a.next, a.pass);
    NeverReconciles(site, a, mv);
    OtherLedgers(site, a, mv);
    SeededCash(site, a.mem, Offline(site, a.mem, mv.pass));
    hide Sound, Can, Done, NavFloor.Prudent, Ledger.Marked, Offline, Prices, CashOf;
  }

  lemma SeededCash(site: Site, b: Ledger.Book, c: Ledger.Book)
    requires Seeded(site, c) == c && c.stable == CashOf(site, b)
    ensures CashOf(site, c) == CashOf(site, b)
  {
  }

  // No buy is booked in `later`.
  predicate NoBuysIn(site: Site, before: seq<Move>, later: seq<Move>)
    requires Sound(site)
  {
    forall n | 0 <= n < |later| ::
      Feasible(site, before + later[..n]) && !BooksBuy(After(site, before + later[..n]), later[n])
  }

  lemma {:induction false} StaysAbove(site: Site, floor: real, before: seq<Move>, later: seq<Move>, n: nat)
    requires Offgrid(site) && NavFloor.Sane(site.u.cfg, site.first) && n <= |later|
    requires Feasible(site, before) && Feasible(site, before + later) && PositiveMarkets(before + later)
    requires NoBuysIn(site, before, later) && Above(site, floor, After(site, before))
    ensures Feasible(site, before + later[..n]) && Above(site, floor, After(site, before + later[..n]))
  {
    hide Sound, NavFloor.Prudent, Feasible, After, Can, Done, Above, BooksBuy, AllSane, Even, Grounded, NavFloor.Sane,
      NavFloor.PositiveMarket;
    if n == 0 {
      assert before + later[..0] == before;
    } else {
      StaysAbove(site, floor, before, later, n - 1);
      var upTo, mv := before + later[..n - 1], later[n - 1];
      LastMove(site, before, later, n);
      assert PositiveMarkets(upTo) by {
        assert forall m | m in upTo :: m in before + later;
      }
      AlwaysSane(site, upTo);
      AlwaysEven(site, upTo);
      AlwaysGrounded(site, upTo);
      if mv.step.Answer? {
        AnswerAbove(site, floor, After(site, upTo), mv);
      } else {
        OtherAbove(site, floor, After(site, upTo), mv);
      }
    }
  }

  // The pass of `NavFloor` that the tick makes once the executor has reported the trade.
  lemma CallBooksBuy(site: Site, a: State, mv: Move)
    requires Offgrid(site) && Grounded(site, a) && Lawful(site, a) && BooksBuy(a, mv)
    ensures var m, x := a.mem, a.pass.(executed := true);
            && Ledger.Marked(m, Prices(x)) == m && NavFloor.BooksBuy(site.u.cfg, m, x)
            && NavFloor.VerdictOn(site.u.cfg, m, x) == a.loop.control.order.verdict
            && NavFloor.AfterPass(site.u.cfg, m, x) == Ledger.Marked(Booked(site, m, x), Prices(x))
  {
    CallGrounded(site, a);
    SameProposal(site, a.mem, a.pass, true);
    hide Sound, NavFloor.Prudent, Ledger.Filled, Ledger.BuyBooks, Signals.PriceMap, NavFloor.Proposal,
      NavFloor.VerdictOn, Ledger.Marked;
  }

  /** A buy booked from a call leaves the floor in every ledger: in the one booked, in the one decided on, and in the
      one that a life would find if the process died before the tick is over. */
  lemma BuyLeavesFloor(site: Site, a: State, mv: Move, rung: LadderEntry)
    requires Offgrid(site) && Can(site, a, mv) && Grounded(site, a) && Lawful(site, a) && AllSane(site, a)
    requires Even(site, a) && BooksBuy(a, mv)
    requires rung in site.u.cfg.ladder && Blocks(rung.action) && rung.atPct <= 100.0 && a.mem.hwm > 0.0
    ensures Above(site, NavFloor.Floor(site.u.cfg, rung, a.mem.hwm), Done(site, a, mv))
  {
    var m, x, o := a.mem, a.pass.(executed := true), a.loop.control.order;
    var cfg := site.u.cfg;
    CallBooksBuy(site, a, mv);
    CallGrounded(site, a);
    OrderIsSane(site, a, o);
    LawfulCall(site, a);
    BookedMeans(site, a, o);
    FromCall(site, a, mv);
    SaneParts(site, a);
    NavFloor.BuyLeavesFloor(cfg, m, x, rung);
    NavFloor.BookedBuyCash(cfg, m, x);
    var floor, b := NavFloor.Floor(cfg, rung, m.hwm), Done(site, a, mv);
    assert b.next.stable >= floor && m.stable >= floor by {
      hide Sound, Can, Done, Even, Grounded, Lawful, AllSane, NavFloor.Prudent, NavFloor.AfterPass, NavFloor.Floor,
        NavFloor.BooksBuy, NavFloor.VerdictOn, Booked, Ledger.Filled, Ledger.MarkedRisk, OrderOn, Prices;
    }
    EvenCall(site, a);
    hide Sound, Can, Done, Even, Grounded, Lawful, AllSane, NavFloor.Prudent, NavFloor.AfterPass, NavFloor.Floor,
      NavFloor.BooksBuy, NavFloor.VerdictOn, Booked, Ledger.Filled, Ledger.Marked, OrderOn, Prices;
  }

  lemma LawfulCall(site: Site, a: State)
    requires Lawful(site, a) && a.loop.control.Calling?
    ensures Loop.Trades(a.loop.control.order)
  {
  }

  lemma SaneParts(site: Site, a: State)
    requires AllSane(site, a)
    ensures NavFloor.Sane(site.u.cfg, a.mem) && NavFloor.PositiveMarket(a.pass)
    ensures NavFloor.PositiveMarket(a.pass.(executed := true))
  {
    hide NavFloor.Sane;
  }

  lemma EvenCall(site: Site, a: State)
    requires Even(site, a) && a.loop.control.Calling?
    ensures CashOf(site, a.mem) == a.mem.stable && CashOf(site, a.disk) >= a.mem.stable
  {
  }

  /** The NAV floor over runs. After a live or simulated call whose answer books a buy, through any further steps of
      the protocol, deaths and restarts included, until another buy is booked, the NAV that an iteration marks at
      any positive prices is at least (1 - T)(1 - cap) times the high-water mark at that buy, less half a cent. */
  lemma FloorHoldsOverRuns(
    site: Site, before: seq<Move>, answer: Move, later: seq<Move>, rung: LadderEntry, x: NavFloor.Pass)
    requires Offgrid(site) && NavFloor.Sane(site.u.cfg, site.first)
    requires Feasible(site, before) && Feasible(site, before + [answer]) && Feasible(site, before + [answer] + later)
    requires PositiveMarkets(before + [answer] + later) && NavFloor.PositiveMarket(x)
    requires BooksBuy(After(site, before), answer) && NoBuysIn(site, before + [answer], later)
    requires rung in site.u.cfg.ladder && Blocks(rung.action) && rung.atPct <= 100.0
    requires After(site, before).mem.hwm > 0.0
    ensures Offline(site, After(site, before + [answer] + later).mem, x).nav
         >= NavFloor.Floor(site.u.cfg, rung, After(site, before).mem.hwm)
  {
    hide Sound, NavFloor.Prudent, Feasible, After, Can, Done, Above, BooksBuy, AllSane, Even, Grounded, Lawful,
      NoBuysIn, NavFloor.Sane, NavFloor.PositiveMarket, PositiveMarkets, NavFloor.Floor, Offline, Blocks;
    assert before + [answer] + later == before + ([answer] + later);
    FewerMarkets(before, [answer] + later);
    AboveAfterBuy(site, before, answer, rung);
    var floor, start := NavFloor.Floor(site.u.cfg, rung, After(site, before).mem.hwm), before + [answer];
    StaysAbove(site, floor, start, later, |later|);
    assert start + later[..|later|] == start + later;
    AlwaysSane(site, start + later);
    NavAbove(site, floor, After(site, start + later), x);
  }

  lemma FewerMarkets(before: seq<Move>, later: seq<Move>)
    requires PositiveMarkets(before + later)
    ensures PositiveMarkets(before)
  {
    assert forall m | m in before :: m in before + later;
  }

  lemma AboveAfterBuy(site: Site, before: seq<Move>, answer: Move, rung: LadderEntry)
    requires Offgrid(site) && NavFloor.Sane(site.u.cfg, site.first)
    requires Feasible(site, before) && Feasible(site, before + [answer]) && PositiveMarkets(before)
    requires BooksBuy(After(site, before), answer)
    requires rung in site.u.cfg.ladder && Blocks(rung.action) && rung.atPct <= 100.0
    requires After(site, before).mem.hwm > 0.0
    ensures Above(
              site, NavFloor.Floor(site.u.cfg, rung, After(site, before).mem.hwm), After(site, before + [answer]))
  {
    hide Sound, NavFloor.Prudent, Feasible, After, Can, Done, Above, BooksBuy, AllSane, Even, Grounded, Lawful,
      NavFloor.Sane, NavFloor.PositiveMarket, PositiveMarkets, NavFloor.Floor, Blocks;
    AlwaysSane(site, before);
    AlwaysEven(site, before);
    AlwaysGrounded(site, before);
    AlwaysLawful(site, before);
    LastMove(site, before, [answer], 1);
    assert before + [answer][..0] == before && before + [answer][..1] == before + [answer];
    BuyLeavesFloor(site, After(site, before), answer, rung);
  }

  lemma NavAbove(site: Site, floor: real, a: State, x: NavFloor.Pass)
    requires Offgrid(site) && AllSane(site, a) && Above(site, floor, a) && NavFloor.PositiveMarket(x)
    ensures Offline(site, a.mem, x).nav >= floor
  {
    hide Sound, NavFloor.Prudent, Signals.PriceMap;
    NavFloor.RiskNonNegative(site.u.cfg, a.mem.positions, Prices(x));
  }

  // The sample's iteration, from the head of the loop to the call.
  lemma SampleEnters(site: Site, a: State)
    requires Sound(site) && !site.u.reconciles && a.loop.control == Loop.Top
    requires Offline(site, a.mem, NavFloor.SAMPLE_PASS) == a.mem
    ensures var mv := Move(Loop.SkipReconcile, NavFloor.SAMPLE_PASS, []);
            && Can(site, a, mv)
            && var b := Done(site, a, mv);
               b.loop.control == Loop.Marked && b.mem == a.mem && b.pass == NavFloor.SAMPLE_PASS
               && b.loop.mem == a.loop.mem
  {
    hide Sound, Offline;
  }

  function SampleDecide(site: Site, b: Ledger.Book): Move
    requires Sound(site)
  {
    var x := NavFloor.SAMPLE_PASS;
    Plain(Loop.Decide(NavFloor.Proposal(site.u.cfg, b, x), ViewOn(b, x), x.dataAge, SampleDraft(site.u)))
  }

  lemma SampleDecides(site: Site, a: State)
    requires Sound(site) && a.loop.control == Loop.Marked && a.pass == NavFloor.SAMPLE_PASS && a.loop.mem.pending.None?
    requires TradesOn(site, a.mem, a.pass, SampleDraft(site.u))
    ensures var mv := SampleDecide(site, a.mem);
            && Can(site, a, mv)
            && var b := Done(site, a, mv);
               && b.loop.control.Recorded? && Loop.Trades(b.loop.control.order) && b.mem == b.next == a.mem
               && b.pass == a.pass && OrderOn(site, b, b.loop.control.order)
  {
    hide Survival.Coherent, Check, NextReceipt, Loop.VerdictText, Loop.Records, NavFloor.Proposal, SampleDraft,
      NavFloor.PortfolioOf, WellFormed;
  }

  lemma SampleCalls(site: Site, a: State)
    requires Sound(site) && !site.u.live && a.loop.control.Recorded? && Loop.Trades(a.loop.control.order)
    ensures var mv := Plain(Loop.CallSimulated);
            && Can(site, a, mv)
            && var b := Done(site, a, mv);
               && b.loop.control == Loop.Calling(a.loop.control.order) && b.mem == a.mem && b.next == a.next
               && b.pass == a.pass && Can(site, b, Plain(Loop.Answer(true)))
  {
    hide Sound, Check, NextReceipt, Loop.Trades, NavFloor.Proposal;
  }

  lemma SampleBooks(site: Site, a: State)
    requires site.u.cfg == NavFloor.SAMPLE && Sound(site) && a.loop.control.Calling? && a.pass == NavFloor.SAMPLE_PASS
    requires a.mem == a.next == NavFloor.SAMPLE_BOOK && OrderOn(site, a, a.loop.control.order)
    ensures BooksBuy(a, Plain(Loop.Answer(true))) && a.mem.hwm == 1000.0
  {
    NavFloor.SampleProposal();
    NavFloor.SamplePrice();
    hide Sound, NavFloor.Proposal, NavFloor.VerdictOn, Signals.PriceMap;
  }

  lemma SampleMarkets(start: seq<Move>, decide: Move)
    requires start == [Plain(Loop.StartRun), Plain(Loop.StartLife)] && decide.step.Decide?
    ensures PositiveMarkets(
              start + [Move(Loop.SkipReconcile, NavFloor.SAMPLE_PASS, [])] + [decide] + [Plain(Loop.CallSimulated)])
  {
    NavFloor.SampleBuys();
    hide NavFloor.PositiveMarket, NavFloor.Prudent, NavFloor.Sane, NavFloor.BooksBuy;
    var enter, call := Move(Loop.SkipReconcile, NavFloor.SAMPLE_PASS, []), Plain(Loop.CallSimulated);
    var moves := start + [enter] + [decide] + [call];
    assert moves == [start[0], start[1], enter, decide, call];
    forall mv | mv in moves && Entering(mv.step) ensures mv == enter {
    }
  }

  /** It is about something: an agent begun with the sample's thousand dollars reaches a call whose answer books a
      buy, at a positive high-water mark. */
  lemma SampleRunBuys(site: Site) returns (moves: seq<Move>)
    requires site.u.cfg == NavFloor.SAMPLE && NumberLexeme(site.u.repr(30.0)) && site.first == NavFloor.SAMPLE_BOOK
    requires !site.u.live && !site.u.reconciles && site.seed >= 0.0
    ensures Offgrid(site) && NavFloor.Sane(site.u.cfg, site.first) && Feasible(site, moves) && PositiveMarkets(moves)
    ensures Can(site, After(site, moves), Plain(Loop.Answer(true)))
    ensures BooksBuy(After(site, moves), Plain(Loop.Answer(true))) && After(site, moves).mem.hwm == 1000.0
  {
    SampleTrades(site);
    NavFloor.SampleBuys();
    var start := Begin(site);
    var enter, decide := Move(Loop.SkipReconcile, NavFloor.SAMPLE_PASS, []), SampleDecide(site, site.first);
    var a := After(site, start);
    SampleEnters(site, a);
    Extend(site, start, enter);
    var s1 := start + [enter];
    SampleDecides(site, After(site, s1));
    Extend(site, s1, decide);
    var s2 := s1 + [decide];
    var recorded := After(site, s2);
    SampleCalls(site, recorded);
    Extend(site, s2, Plain(Loop.CallSimulated));
    moves := s2 + [Plain(Loop.CallSimulated)];
    SampleMarkets(start, decide);
    SameOrder(site, recorded, After(site, moves), recorded.loop.control.order);
    SampleBooks(site, After(site, moves));
    hide Sound, NavFloor.Prudent, NavFloor.Sane, Feasible, After, Can, Done, PositiveMarkets, BooksBuy, TradesOn,
      Offline, OrderOn, Loop.Trades;
  }

  // ---------------------------------------------------------------- the entries of the positions

  datatype Mark = Mark(price: real, ts: real)

  // The ledger holds `t`, entered at this price and time.
  predicate Entered(b: Ledger.Book, t: Token, e: Mark) {
    exists i | 0 <= i < |b.positions| ::
      Booking.FirstIn(b.positions, t, i) && b.positions[i].entryPrice == e.price && b.positions[i].entryTs == e.ts
  }

  // The move does not end what the ledger holds of `t`: a balance of `t` that is read counts, and no trade in `t` is
  // reported as executed.
  predicate Leaves(site: Site, a: State, mv: Move, t: Token) {
    && (mv.step.Reconcile? ==> exists j | 0 <= j < |mv.bals| ::
          mv.bals[j].symbol == t && Booking.Counts(mv.bals[j], Prices(mv.pass), Stables(site.u.cfg)))
    && (mv.step == Loop.Answer(true) && a.loop.control.Calling? ==>
          var d := a.loop.control.order.decision;
          (d.side == Buy ==> d.to != t) && (d.side == Sell ==> d.from != t))
  }

  predicate AllEntered(a: State, t: Token, e: Mark) {
    Entered(a.mem, t, e) && Entered(a.disk, t, e) && (InTheMaking(a.loop.control) ==> Entered(a.next, t, e))
  }

  lemma SyncKeepsEntry(
    b: Ledger.Book, bals: seq<Ledger.Balance>, price: Ledger.Prices, stables: set<Token>, now: real, t: Token,
    e: Mark, j: nat)
    requires Entered(b, t, e) && j < |bals| && bals[j].symbol == t && Booking.Counts(bals[j], price, stables)
    ensures Entered(Ledger.Synced(b, bals, price, stables, now), t, e)
  {
    hide Entered, Ledger.Synced, Booking.Rebuilt, Booking.Counts, Booking.FirstIn;
    var c := Ledger.Synced(b, bals, price, stables, now);
    var k := Booking.SyncedTo(b, bals, price, stables, now, j);
    RebuiltEntry(c.positions[k], bals[j], b, price, stables, now, t, e);
    var i := Ledger.Find(c.positions, t);
    Booking.FindMeans(c.positions, t);
    var m := Booking.SyncedFrom(b, bals, price, stables, now, i);
    RebuiltEntry(c.positions[i], bals[m], b, price, stables, now, t, e);
    EnteredAt(c, i, t, e);
  }

  lemma RebuiltEntry(
    p: Survival.Position, x: Ledger.Balance, b: Ledger.Book, price: Ledger.Prices, stables: set<Token>, now: real,
    t: Token, e: Mark)
    requires Booking.Rebuilt(p, x, b.positions, price, stables, now) && Entered(b, t, e)
    ensures p.symbol == x.symbol && (p.symbol == t ==> p.entryPrice == e.price && p.entryTs == e.ts)
  {
    hide Booking.Counts, Booking.FirstIn;
  }

  lemma EnteredAt(b: Ledger.Book, i: nat, t: Token, e: Mark)
    requires i < |b.positions| && Booking.FirstIn(b.positions, t, i)
    requires b.positions[i].entryPrice == e.price && b.positions[i].entryTs == e.ts
    ensures Entered(b, t, e)
  {
  }

  lemma MarkKeepsEntry(site: Site, b: Ledger.Book, price: Ledger.Prices, t: Token, e: Mark)
    requires Entered(b, t, e)
    ensures Entered(Ledger.Marked(b, price), t, e) && Seeded(site, b) == b
  {
  }

  lemma BuyLeavesOthers(b: Ledger.Book, to: Token, amount: real, px: real, now: real)
    requires px > 0.0
    ensures var c := Ledger.BuyFilled(b, to, amount, px, now);
            && |c.positions| >= |b.positions|
            && forall k | 0 <= k < |b.positions| ::
                 && c.positions[k].symbol == b.positions[k].symbol
                 && (b.positions[k].symbol != to ==> c.positions[k] == b.positions[k])
  {
    var i := Ledger.Find(b.positions, to);
    if i < |b.positions| { assert Ledger.Averaged(b.positions[i], amount / px, px).symbol == to; }
    hide Ledger.Averaged;
  }

  // A fill in another token.
  lemma FillKeepsEntry(b: Ledger.Book, d: Decision, amount: real, price: Ledger.Prices, now: real, t: Token, e: Mark)
    requires Entered(b, t, e) && (d.side == Buy ==> d.to != t) && (d.side == Sell ==> d.from != t)
    ensures Entered(Ledger.Filled(b, d, amount, price, now), t, e)
  {
    var i :| 0 <= i < |b.positions| && Booking.FirstIn(b.positions, t, i)
             && b.positions[i].entryPrice == e.price && b.positions[i].entryTs == e.ts;
    var c := Ledger.Filled(b, d, amount, price, now);
    if d.side == Buy && c != b {
      BuyLeavesOthers(b, d.to, amount, Ledger.PriceOr(price, d.to, 0.0), now);
      hide Ledger.BuyFilled, Ledger.PriceOr, Ledger.BuyBooks;
      EnteredAt(c, i, t, e);
    } else if d.side == Sell && c != b {
      hide Ledger.SoldQty, Ledger.PriceOr;
      var k := Ledger.Find(b.positions, d.from);
      var j := if |c.positions| < |b.positions| && k < i then i - 1 else i;
      assert c.positions[j] == b.positions[i] && Booking.FirstIn(c.positions, t, j);
    }
  }

  lemma ReconcileKeepsEntry(site: Site, a: State, mv: Move, t: Token, e: Mark)
    requires Sound(site) && Can(site, a, mv) && mv.step.Reconcile? && AllEntered(a, t, e) && Leaves(site, a, mv, t)
    ensures AllEntered(Done(site, a, mv), t, e)
  {
    var j :| 0 <= j < |mv.bals| && mv.bals[j].symbol == t
             && Booking.Counts(mv.bals[j], Prices(mv.pass), Stables(site.u.cfg));
    var now := mv.pass.now;
    SyncKeepsEntry(a.mem, mv.bals, Prices(mv.pass), Stables(site.u.cfg), now, t, e, j);
    var synced := Ledger.Synced(a.mem, mv.bals, Prices(mv.pass), Stables(site.u.cfg), now);
    MarkKeepsEntry(site, synced, Prices(mv.pass), t, e);
    hide Sound, Entered, Booking.Counts, Ledger.Synced, Ledger.Marked, Stables, Prices;
  }

  lemma AnswerKeepsEntry(site: Site, a: State, mv: Move, t: Token, e: Mark)
    requires Sound(site) && Can(site, a, mv) && mv.step.Answer? && AllEntered(a, t, e) && Leaves(site, a, mv, t)
    ensures AllEntered(Done(site, a, mv), t, e)
  {
    AnswersCall(site, a, mv);
    FromCall(site, a, mv);
    var o := a.loop.control.order;
    if mv.step.executed {
      FillKeepsEntry(a.next, o.decision, o.verdict.amount, Prices(a.pass), a.pass.now, t, e);
    }
    hide Sound, Can, Done, Entered, Ledger.Filled, Prices;
  }

  lemma OtherKeepsEntry(site: Site, a: State, mv: Move, t: Token, e: Mark)
    requires Sound(site) && Can(site, a, mv) && AllEntered(a, t, e) && !mv.step.Answer? && !mv.step.Reconcile?
    ensures AllEntered(Done(site, a, mv), t, e)
  {
    MarkKeepsEntry(site, a.mem, Prices(mv.pass), t, e);
    if Entered(a.next, t, e) { MarkKeepsEntry(site, a.next, Prices(a.pass), t, e); }
    OtherLedgers(site, a, mv);
    hide Sound, Can, Done, Entered, Ledger.Marked, Prices, Seeded;
  }

  // No move of `later` ends what the ledgers hold of `t`.
  predicate LeavesIn(site: Site, before: seq<Move>, later: seq<Move>, t: Token)
    requires Sound(site)
  {
    forall n | 0 <= n < |later| ::
      Feasible(site, before + later[..n]) && Leaves(site, After(site, before + later[..n]), later[n], t)
  }

  /** A position keeps its entry. Through any steps of the protocol, reconciles, fills of other tokens, deaths and
      restarts included, as long as every read of the chain finds a balance of the token that counts and no trade in
      it is executed, the ledger holds it with the price and the time of its entry: so these are what the stop, the
      target and the time limit of `Cascade.ExitRule` are taken from. */
  lemma {:induction false} EntryIsKept(site: Site, before: seq<Move>, later: seq<Move>, t: Token, e: Mark, n: nat)
    requires Sound(site) && Feasible(site, before) && Feasible(site, before + later) && n <= |later|
    requires AllEntered(After(site, before), t, e) && LeavesIn(site, before, later, t)
    ensures Feasible(site, before + later[..n]) && AllEntered(After(site, before + later[..n]), t, e)
  {
    hide Sound, Feasible, After, Can, Done, AllEntered, Leaves;
    if n == 0 {
      assert before + later[..0] == before;
    } else {
      EntryIsKept(site, before, later, t, e, n - 1);
      LastMove(site, before, later, n);
      var a, mv := After(site, before + later[..n - 1]), later[n - 1];
      if mv.step.Answer? {
        AnswerKeepsEntry(site, a, mv, t, e);
      } else if mv.step.Reconcile? {
        ReconcileKeepsEntry(site, a, mv, t, e);
      } else {
        OtherKeepsEntry(site, a, mv, t, e);
      }
    }
  }
}
