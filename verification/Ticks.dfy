/** What whole ticks, and whole runs, do to the ledger of the live agent (agent/run_live.py:160-214,
    agent/core.py:85-219): a tick that ends leaves the ledger that `NavFloor` says, so that the floor under the NAV
    holds over runs of the protocol, deaths included; and a position keeps its entry through them. */
module Ticks {
  import opened Canonical
  import opened Receipts
  import opened Engine
  import opened Agent
  import Survival
  import Signals
  import Ledger
  import Booking
  import NavFloor
  import Loop = LiveLoop

  // ---------------------------------------------------------------- on the way through a tick

  // At the head of the loop memory and disk agree. From the mark on the ledger is a marked one, and a trade is staged
  // or sent only if the engine lets it through.
  predicate Lawful(site: Site, a: State) {
    && (a.loop.control.Top? ==> a.mem == a.disk)
    && (Deciding(a.loop.control) ==> a.mem == Ledger.Marked(a.mem, Prices(a.pass)))
    && (a.loop.control.Staged? || a.loop.control.Calling? ==> Loop.Trades(a.loop.control.order))
  }

  lemma StepLawful(site: Site, a: State, mv: Move)
    requires Sound(site) && Can(site, a, mv) && Lawful(site, a)
    ensures Lawful(site, Done(site, a, mv))
  {
    hide Sound, Check, NextReceipt, Loop.Trades, Loop.EventOf, Ledger.Filled, Ledger.Marked, Prices, NavFloor.Proposal;
    if mv.step.Reconcile? || mv.step.SkipReconcile? { MarkedOnEntering(site, a, mv); }
  }

  lemma MarkedOnEntering(site: Site, a: State, mv: Move)
    requires Sound(site) && Can(site, a, mv) && Entering(mv.step)
    ensures var b := Done(site, a, mv); b.mem == Ledger.Marked(b.mem, Prices(b.pass))
  {
    hide Sound, Prices, Ledger.Reconciled, Ledger.ChainCash, Ledger.MarkedRisk;
  }

  lemma {:induction false} AlwaysLawful(site: Site, moves: seq<Move>)
    requires Sound(site) && Feasible(site, moves)
    ensures Lawful(site, After(site, moves))
  {
    hide Sound, Can, Done, Lawful;
    if moves == [] {
      InitLawful(site);
    } else {
      AlwaysLawful(site, moves[..|moves| - 1]);
      StepLawful(site, After(site, moves[..|moves| - 1]), moves[|moves| - 1]);
    }
  }

  lemma InitLawful(site: Site)
    ensures Lawful(site, Init(site))
  {
  }

  // The ledger `m` after the fill, if there is one.
  function Booked(site: Site, m: Ledger.Book, x: NavFloor.Pass): Ledger.Book
    requires Sound(site)
  {
    if NavFloor.Executes(site.u.cfg, m, x) then
      Ledger.Filled(
        m, NavFloor.Proposal(site.u.cfg, m, x), NavFloor.VerdictOn(site.u.cfg, m, x).amount, Prices(x), x.now)
    else m
  }

  // The order is the proposal on the ledger `m`, which is still in place.
  predicate Pends(site: Site, m: Ledger.Book, a: State, o: Loop.Order)
    requires Sound(site)
  {
    a.mem == a.next == m && OrderOn(site, a, o)
  }

  // The tick that decides on the ledger `m` and the market `x`; `executed` is what the executor reported so far.
  predicate OnTheWay(site: Site, m: Ledger.Book, x: NavFloor.Pass, executed: bool, a: State)
    requires Sound(site)
  {
    && a.pass == x
    && match a.loop.control
       case Recorded(o) => !executed && Pends(site, m, a, o)
       case Staged(o) => !executed && Pends(site, m, a, o) && Loop.Trades(o)
       case Calling(o) => !executed && Pends(site, m, a, o) && Loop.Trades(o)
       case Answered(o, e) => executed == e && a.next == Booked(site, m, x.(executed := executed))
       case Finishing => a.next == Booked(site, m, x.(executed := executed))
       case Ending => a.mem == Ledger.Marked(Booked(site, m, x.(executed := executed)), Prices(x))
       case Top => a.mem == a.disk == Ledger.Marked(Booked(site, m, x.(executed := executed)), Prices(x))
       case _ => false
  }

  // Only the executor's report depends on whether the executor reported a trade.
  lemma SameProposal(site: Site, m: Ledger.Book, x: NavFloor.Pass, e: bool)
    requires Sound(site)
    ensures var y := x.(executed := e);
            && NavFloor.Proposal(site.u.cfg, m, y) == NavFloor.Proposal(site.u.cfg, m, x)
            && NavFloor.VerdictOn(site.u.cfg, m, y) == NavFloor.VerdictOn(site.u.cfg, m, x) && Prices(y) == Prices(x)
  {
    hide Sound, Survival.DecideIntent, Check, Signals.PriceMap, NavFloor.PortfolioOf;
  }

  // What the tick books of an order on the ledger it decided on.
  lemma BookedMeans(site: Site, a: State, o: Loop.Order)
    requires Sound(site) && OrderOn(site, a, o)
    ensures Booked(site, a.mem, a.pass.(executed := false)) == a.mem
    ensures Loop.Trades(o) ==>
              Booked(site, a.mem, a.pass.(executed := true))
              == Ledger.Filled(a.mem, o.decision, o.verdict.amount, Prices(a.pass), a.pass.now)
  {
    SameProposal(site, a.mem, a.pass, true);
    hide Sound, Prices, Ledger.Filled, NavFloor.Proposal, NavFloor.VerdictOn;
  }

  predicate Dying(step: Loop.Step) {
    step.RaiseError? || step.KillProcess?
  }

  // What the steps up to the executor's answer do.
  lemma FromRecorded(site: Site, a: State, mv: Move)
    requires Sound(site) && Can(site, a, mv) && !Dying(mv.step) && a.loop.control.Recorded?
    ensures var b, o := Done(site, a, mv), a.loop.control.order;
            && b.mem == a.mem && b.next == a.next && b.pass == a.pass && mv.step != Loop.Answer(true)
            && if Loop.Trades(o) then
                 (if site.u.live then b.loop.control.Staged? else b.loop.control.Calling?) && b.loop.control.order == o
               else b.loop.control.Finishing?
  {
    hide Sound, Check, NextReceipt, Loop.EventOf, Ledger.Filled, Ledger.Marked, Loop.Trades, NavFloor.Proposal;
  }

  lemma FromStaged(site: Site, a: State, mv: Move)
    requires Sound(site) && Can(site, a, mv) && !Dying(mv.step) && a.loop.control.Staged?
    ensures var b, o := Done(site, a, mv), a.loop.control.order;
            && b.mem == a.mem && b.next == a.next && b.pass == a.pass && mv.step != Loop.Answer(true)
            && b.loop.control.Calling? && b.loop.control.order == o
  {
    hide Sound, Check, NextReceipt, Loop.EventOf, Ledger.Filled, Ledger.Marked, Loop.Trades, NavFloor.Proposal;
  }

  lemma FromCall(site: Site, a: State, mv: Move)
    requires Sound(site) && Can(site, a, mv) && !Dying(mv.step) && a.loop.control.Calling?
    ensures var b, o := Done(site, a, mv), a.loop.control.order;
            && mv.step.Answer? && b.loop.control.Answered?
            && b.mem == a.mem && b.disk == a.disk && b.pass == a.pass
            && b.loop.control.order == o && b.loop.control.executed == mv.step.executed
            && b.next == if mv.step.executed then
                           Ledger.Filled(a.next, o.decision, o.verdict.amount, Prices(a.pass), a.pass.now)
                         else a.next
  {
    hide Sound, Check, NextReceipt, Loop.EventOf, Ledger.Filled, Ledger.Marked, Loop.Trades, NavFloor.Proposal;
  }

  lemma StepOnTheWay(site: Site, m: Ledger.Book, x: NavFloor.Pass, executed: bool, a: State, mv: Move)
    requires Sound(site) && Can(site, a, mv) && !Dying(mv.step)
    requires OnTheWay(site, m, x, executed, a) && !a.loop.control.Top?
    ensures OnTheWay(site, m, x, executed || mv.step == Loop.Answer(true), Done(site, a, mv))
  {
    hide *;
    if a.loop.control.Recorded? || a.loop.control.Staged? {
      StepToCall(site, m, x, executed, a, mv);
    } else if a.loop.control.Calling? {
      StepAtCall(site, m, x, executed, a, mv);
    } else {
      ControlOnTheWay(site, m, x, executed, a);
      StepFromCall(site, m, x, executed, a, mv);
    }
  }

  lemma ControlOnTheWay(site: Site, m: Ledger.Book, x: NavFloor.Pass, executed: bool, a: State)
    requires Sound(site) && OnTheWay(site, m, x, executed, a)
    ensures a.loop.control.Recorded? || a.loop.control.Staged? || a.loop.control.Calling? || a.loop.control.Answered?
         || a.loop.control.Finishing? || a.loop.control.Ending? || a.loop.control.Top?
  {
  }

  // The order stays pending as long as the ledgers stay as they are.
  lemma StillPending(site: Site, m: Ledger.Book, x: NavFloor.Pass, a: State, o: Loop.Order, b: State)
    requires Sound(site) && Pends(site, m, a, o) && Loop.Trades(o) && a.pass == b.pass == x
    requires b.mem == a.mem && b.next == a.next
    requires (b.loop.control.Staged? || b.loop.control.Calling?) && b.loop.control.order == o
    ensures OnTheWay(site, m, x, false, b)
  {
    SameOrder(site, a, b, o);
    hide Sound, Booked, OrderOn, Ledger.Filled, Loop.Trades, Ledger.Marked, Prices;
  }

  lemma NothingBooked(site: Site, m: Ledger.Book, x: NavFloor.Pass, b: State)
    requires Sound(site) && b.next == m && b.pass == x && b.loop.control.Finishing?
    ensures OnTheWay(site, m, x, false, b)
  {
    hide Sound, Ledger.Filled, Ledger.Marked, Prices, NavFloor.Proposal, NavFloor.VerdictOn;
  }

  lemma StepToCall(site: Site, m: Ledger.Book, x: NavFloor.Pass, executed: bool, a: State, mv: Move)
    requires Sound(site) && Can(site, a, mv) && !Dying(mv.step) && OnTheWay(site, m, x, executed, a)
    requires a.loop.control.Recorded? || a.loop.control.Staged?
    ensures OnTheWay(site, m, x, executed || mv.step == Loop.Answer(true), Done(site, a, mv))
  {
    var b, o := Done(site, a, mv), a.loop.control.order;
    OrderPends(site, m, x, executed, a);
    hide Sound, Can, Done, OnTheWay, Pends, Loop.Trades;
    if a.loop.control.Recorded? {
      FromRecorded(site, a, mv);
      if !Loop.Trades(o) {
        NothingBooked(site, m, x, b);
        return;
      }
    } else {
      FromStaged(site, a, mv);
    }
    StillPending(site, m, x, a, o, b);
  }

  lemma OrderPends(site: Site, m: Ledger.Book, x: NavFloor.Pass, executed: bool, a: State)
    requires Sound(site) && OnTheWay(site, m, x, executed, a)
    requires a.loop.control.Recorded? || a.loop.control.Staged? || a.loop.control.Calling?
    ensures Pends(site, m, a, a.loop.control.order) && !executed && a.pass == x && a.next == m
    ensures !a.loop.control.Recorded? ==> Loop.Trades(a.loop.control.order)
  {
    hide Sound, OrderOn, Loop.Trades;
  }

  lemma FillBooked(site: Site, m: Ledger.Book, x: NavFloor.Pass, b: State)
    requires Sound(site) && b.pass == x && b.loop.control.Answered?
    requires b.next == Booked(site, m, x.(executed := b.loop.control.executed))
    ensures OnTheWay(site, m, x, b.loop.control.executed, b)
  {
    hide Sound, Booked, Prices;
  }

  lemma StepAtCall(site: Site, m: Ledger.Book, x: NavFloor.Pass, executed: bool, a: State, mv: Move)
    requires Sound(site) && Can(site, a, mv) && !Dying(mv.step) && OnTheWay(site, m, x, executed, a)
    requires a.loop.control.Calling?
    ensures OnTheWay(site, m, x, executed || mv.step == Loop.Answer(true), Done(site, a, mv))
  {
    var b, o := Done(site, a, mv), a.loop.control.order;
    OrderPends(site, m, x, executed, a);
    PendsMeans(site, m, a, o);
    FromCall(site, a, mv);
    BookedMeans(site, a, o);
    hide Sound, Can, Done, OnTheWay, Pends, Booked, Ledger.Filled, Loop.Trades, OrderOn, Prices;
    FillBooked(site, m, x, b);
  }

  lemma PendsMeans(site: Site, m: Ledger.Book, a: State, o: Loop.Order)
    requires Sound(site) && Pends(site, m, a, o)
    ensures a.mem == a.next == m && OrderOn(site, a, o)
  {
    hide Sound, OrderOn;
  }

  lemma StepFromCall(site: Site, m: Ledger.Book, x: NavFloor.Pass, executed: bool, a: State, mv: Move)
    requires Sound(site) && Can(site, a, mv) && !Dying(mv.step) && OnTheWay(site, m, x, executed, a)
    requires a.loop.control.Answered? || a.loop.control.Finishing? || a.loop.control.Ending?
    ensures OnTheWay(site, m, x, executed || mv.step == Loop.Answer(true), Done(site, a, mv))
  {
    hide Sound, Check, NextReceipt, Loop.EventOf, Ledger.Filled, Ledger.Marked, Prices, NavFloor.Proposal,
      NavFloor.VerdictOn, Loop.Records, Booked;
  }

  lemma DecidesOnTheWay(site: Site, a: State, mv: Move)
    requires Sound(site) && Can(site, a, mv) && mv.step.Decide?
    ensures OnTheWay(site, a.mem, a.pass, false, Done(site, a, mv))
  {
    hide Survival.Coherent, NavFloor.Proposal, Check, NextReceipt, Loop.Records, Loop.Trades, Loop.VerdictText,
      WellFormed, Loop.EventOf, NavFloor.PortfolioOf, ReceiptCid;
    var b := Done(site, a, mv);
    assert b.loop.control.order.verdict == Check(site.u.cfg, mv.step.decision, mv.step.view, mv.step.dataAge);
  }

  // What the executor reported last.
  function Reported(moves: seq<Move>): bool {
    moves != [] && (Reported(moves[..|moves| - 1]) || moves[|moves| - 1].step == Loop.Answer(true))
  }

  lemma FeasiblePrefix(site: Site, moves: seq<Move>, n: nat)
    requires Sound(site) && Feasible(site, moves) && n <= |moves|
    ensures Feasible(site, moves[..n])
    decreases |moves|
  {
    hide Sound, Can;
    if n < |moves| {
      FeasiblePrefix(site, moves[..|moves| - 1], n);
      assert moves[..|moves| - 1][..n] == moves[..n];
    } else {
      assert moves[..n] == moves;
    }
  }

  // A decision, and then no death and no new iteration before the last of the moves.
  predicate IsTick(site: Site, before: seq<Move>, tick: seq<Move>)
    requires Sound(site)
  {
    && Feasible(site, before + tick) && tick != [] && tick[0].step.Decide?
    && (forall i | 0 <= i < |tick| :: !Dying(tick[i].step))
    && forall n | 0 < n < |tick| ::
         Feasible(site, before + tick[..n]) && !After(site, before + tick[..n]).loop.control.Top?
  }

  lemma LastMove(site: Site, before: seq<Move>, tick: seq<Move>, n: nat)
    requires Sound(site) && Feasible(site, before + tick) && 0 < n <= |tick|
    ensures Feasible(site, before + tick[..n - 1]) && Feasible(site, before + tick[..n])
    ensures var a := After(site, before + tick[..n - 1]);
            Can(site, a, tick[n - 1]) && After(site, before + tick[..n]) == Done(site, a, tick[n - 1])
  {
    hide Sound, Can, Done;
    var moves := before + tick[..n];
    assert moves == (before + tick)[..|before| + n];
    FeasiblePrefix(site, before + tick, |before| + n);
    assert moves[..|moves| - 1] == before + tick[..n - 1] && moves[|moves| - 1] == tick[n - 1];
  }

  lemma ReportedSoFar(tick: seq<Move>, n: nat)
    requires 0 < n <= |tick|
    ensures Reported(tick[..n]) <==> Reported(tick[..n - 1]) || tick[n - 1].step == Loop.Answer(true)
    ensures !Reported(tick[..0])
  {
    assert tick[..n][..n - 1] == tick[..n - 1];
  }

  lemma {:induction false} TickSoFar(site: Site, before: seq<Move>, tick: seq<Move>, n: nat)
    requires Sound(site) && Feasible(site, before) && IsTick(site, before, tick) && 0 < n <= |tick|
    ensures Feasible(site, before + tick[..n])
    ensures var a := After(site, before);
            OnTheWay(site, a.mem, a.pass, Reported(tick[..n]), After(site, before + tick[..n]))
  {
    hide Sound, Feasible, After, Can, Done, OnTheWay, Reported;
    LastMove(site, before, tick, n);
    ReportedSoFar(tick, n);
    assert before + tick[..0] == before;
    if n == 1 {
      DecidesOnTheWay(site, After(site, before), tick[0]);
    } else {
      TickSoFar(site, before, tick, n - 1);
      var a := After(site, before);
      StepOnTheWay(site, a.mem, a.pass, Reported(tick[..n - 1]), After(site, before + tick[..n - 1]), tick[n - 1]);
    }
  }

  /** A tick that ends, whatever course it takes and whatever came before it, leaves in memory and on disk the
      ledger that a pass of `NavFloor` makes of the one it decided on: the fill is booked exactly if the
      executor reported the trade as executed. */
  lemma TickBooks(site: Site, before: seq<Move>, tick: seq<Move>)
    requires Sound(site) && Feasible(site, before) && IsTick(site, before, tick)
    requires After(site, before + tick).loop.control.Top?
    ensures var a, b := After(site, before), After(site, before + tick);
            b.mem == b.disk == NavFloor.AfterPass(site.u.cfg, a.mem, a.pass.(executed := Reported(tick)))
  {
    hide Sound, Feasible, After, Can, Done, Reported, IsTick;
    TickIsNotEmpty(site, before, tick);
    assert tick[..|tick|] == tick;
    TickSoFar(site, before, tick, |tick|);
    AlwaysLawful(site, before);
    var a, b := After(site, before), After(site, before + tick);
    TickEnds(site, a, Reported(tick), b);
  }

  lemma TickIsNotEmpty(site: Site, before: seq<Move>, tick: seq<Move>)
    requires Sound(site) && Feasible(site, before) && IsTick(site, before, tick)
    ensures tick != [] && Deciding(After(site, before).loop.control)
  {
    hide Sound, Feasible, After, Can, Done;
    LastMove(site, before, tick, 1);
    assert before + tick[..0] == before;
    DecidesWhenMarked(site, After(site, before), tick[0]);
  }

  lemma DecidesWhenMarked(site: Site, a: State, mv: Move)
    requires Sound(site) && Can(site, a, mv) && mv.step.Decide?
    ensures Deciding(a.loop.control)
  {
    hide Sound, Check, Loop.Records, Loop.VerdictText, WellFormed, NavFloor.Proposal;
  }

  lemma TickEnds(site: Site, a: State, executed: bool, b: State)
    requires Sound(site) && Lawful(site, a) && Deciding(a.loop.control)
    requires OnTheWay(site, a.mem, a.pass, executed, b) && b.loop.control.Top?
    ensures b.mem == b.disk == NavFloor.AfterPass(site.u.cfg, a.mem, a.pass.(executed := executed))
  {
    hide Sound, Ledger.Marked, Ledger.Filled, NavFloor.Executes, NavFloor.Proposal, NavFloor.VerdictOn,
      Signals.PriceMap;
  }

  // Between the executor's answer and the log the new ledger holds the fill exactly if the answer says so.
  predicate AnswerTold(site: Site, a: State) {
    a.loop.control.Answered? ==>
      var o := a.loop.control.order;
      a.next == if a.loop.control.executed then
                  Ledger.Filled(a.mem, o.decision, o.verdict.amount, Prices(a.pass), a.pass.now)
                else a.mem
  }

  lemma StepTells(site: Site, a: State, mv: Move)
    requires Sound(site) && Can(site, a, mv) && Grounded(site, a)
    ensures AnswerTold(site, Done(site, a, mv))
  {
    if a.loop.control.Calling? && !Dying(mv.step) {
      FromCall(site, a, mv);
      CallPends(site, a);
      hide Sound, Can, Done, Grounded, Ledger.Filled, Prices;
    } else {
      OnlyCallsAnswer(site, a, mv);
    }
  }

  lemma CallPends(site: Site, a: State)
    requires Sound(site) && Grounded(site, a) && a.loop.control.Calling?
    ensures a.next == a.mem
  {
    hide Sound, OrderOn, OnChain;
  }

  lemma OnlyCallsAnswer(site: Site, a: State, mv: Move)
    requires Sound(site) && Can(site, a, mv) && (!a.loop.control.Calling? || Dying(mv.step))
    ensures !Done(site, a, mv).loop.control.Answered?
  {
    hide Sound, Check, NextReceipt, Loop.EventOf, Loop.Trades, NavFloor.Proposal;
  }

  /** Log and ledger agree. When an order is written to the execution log, the record bears the number, hash and
      time of its receipt and says whether it was executed; and the ledger of the tick has the fill exactly if it
      says so. */
  lemma LogTellsFill(site: Site, before: seq<Move>, mv: Move)
    requires Sound(site) && Feasible(site, before) && Can(site, After(site, before), mv) && mv.step.LogExecution?
    ensures var a, b := After(site, before), Done(site, After(site, before), mv);
            && a.loop.control.Answered? && |b.loop.executions| == |a.loop.executions| + 1
            && b.loop.executions[..|a.loop.executions|] == a.loop.executions
            && var o, e := a.loop.control.order, b.loop.executions[|a.loop.executions|];
               && e.receiptSeq == o.receipt.seqNo && e.receiptHash == o.receipt.hash && e.ts == o.receipt.ts
               && e.cid == ReceiptCid(o.receipt.hash) && e.detail == mv.step.detail
               && b.next == if e.executed then
                              Ledger.Filled(a.mem, o.decision, o.verdict.amount, Prices(a.pass), a.pass.now)
                            else a.mem
  {
    hide Sound, Feasible, After, Check, NextReceipt, Loop.EventOf, Loop.Trades, NavFloor.Proposal, ReceiptCid,
      Ledger.Filled, Prices;
    AlwaysTold(site, before);
  }

  lemma AlwaysTold(site: Site, moves: seq<Move>)
    requires Sound(site) && Feasible(site, moves)
    ensures AnswerTold(site, After(site, moves))
  {
    hide Sound, Can, Done, AnswerTold;
    if moves == [] {
      NothingTold(site);
    } else {
      AlwaysGrounded(site, moves[..|moves| - 1]);
      StepTells(site, After(site, moves[..|moves| - 1]), moves[|moves| - 1]);
    }
  }

  lemma NothingTold(site: Site)
    ensures AnswerTold(site, Init(site))
  {
  }

  // What an iteration begins with: the balances read, or the agent's own ledger, seeded if it is empty.
  function LedgerRead(site: Site, b: Ledger.Book, enter: Move): Ledger.Book {
    if site.u.reconciles then
      Ledger.Synced(b, enter.bals, Prices(enter.pass), (set q | q in site.u.cfg.quoteTokens), enter.pass.now)
    else if b.stable == 0.0 && b.positions == [] then Ledger.Book([], site.seed, b.nav, b.hwm)
    else b
  }

  lemma PassIgnoresMark(site: Site, b: Ledger.Book, x: NavFloor.Pass)
    requires Sound(site)
    ensures NavFloor.AfterPass(site.u.cfg, Ledger.Marked(b, Prices(x)), x) == NavFloor.AfterPass(site.u.cfg, b, x)
  {
    Booking.MarkedTwice(b, Prices(x));
    hide Sound, Ledger.Marked, Ledger.Filled, NavFloor.Executes, NavFloor.Proposal, NavFloor.VerdictOn,
      Signals.PriceMap;
  }

  lemma EntersMarked(site: Site, a: State, enter: Move)
    requires Sound(site) && Can(site, a, enter) && Entering(enter.step)
    ensures var b := Done(site, a, enter);
            b.pass == enter.pass && b.mem == Ledger.Marked(LedgerRead(site, a.mem, enter), Prices(enter.pass))
  {
    hide Sound, Prices, Ledger.Marked, Ledger.Synced;
  }

  /** A whole iteration, from the head of the loop to the end of its tick, makes the pass of `NavFloor` on the ledger
      it began with: the one read from chain, or the agent's own. */
  lemma IterationBooks(site: Site, before: seq<Move>, enter: Move, tick: seq<Move>)
    requires Sound(site) && Feasible(site, before) && Feasible(site, before + [enter]) && Entering(enter.step)
    requires IsTick(site, before + [enter], tick) && After(site, before + [enter] + tick).loop.control.Top?
    ensures var a, b := After(site, before), After(site, before + [enter] + tick);
            var x := enter.pass.(executed := Reported(tick));
            b.mem == b.disk == NavFloor.AfterPass(site.u.cfg, LedgerRead(site, a.mem, enter), x)
  {
    hide Sound, Feasible, After, Can, Done, Reported, IsTick, LedgerRead, NavFloor.AfterPass, Prices, Ledger.Marked;
    LastMove(site, before, [enter], 1);
    assert before + [enter][..0] == before && before + [enter][..1] == before + [enter];
    EntersMarked(site, After(site, before), enter);
    TickBooks(site, before + [enter], tick);
    var x := enter.pass.(executed := Reported(tick));
    SameMarket(enter.pass, Reported(tick));
    PassIgnoresMark(site, LedgerRead(site, After(site, before).mem, enter), x);
  }

  lemma SameMarket(x: NavFloor.Pass, e: bool)
    ensures Prices(x.(executed := e)) == Prices(x)
  {
  }
}
