/** The drawdown ladder that the strategy, the policy engine and the backtest champion each scan. */
module Ladder {
  datatype Rung = NoRung | HalveSize | NoNewRisk | StablecoinMode
  datatype LadderEntry = LadderEntry(atPct: real, action: Rung)

  function Severity(r: Rung): nat {
    match r
    case NoRung => 0
    case HalveSize => 1
    case NoNewRisk => 2
    case StablecoinMode => 3
  }

  // Rungs at which no new risk may be taken.
  predicate Blocks(r: Rung) {
    r == NoNewRisk || r == StablecoinMode
  }

  /** The last entry of the list that the drawdown has reached. */
  function LastReached(entries: seq<LadderEntry>, drawdown: real): Rung {
    if entries == [] then NoRung
    else
      var n := |entries| - 1;
      if drawdown >= entries[n].atPct then entries[n].action else LastReached(entries[..n], drawdown)
  }

  method ScanLadder(entries: seq<LadderEntry>, drawdown: real) returns (rung: Rung)
    ensures rung == LastReached(entries, drawdown)
  {
    rung := NoRung;
    var i := 0;
    while i < |entries|
      invariant 0 <= i <= |entries|
      invariant rung == LastReached(entries[..i], drawdown)
    {
      assert entries[..i + 1][..i] == entries[..i];
      if drawdown >= entries[i].atPct {
        rung := entries[i].action;
      }
      i := i + 1;
    }
    assert entries[..i] == entries;
  }

  function InsertEntry(e: LadderEntry, entries: seq<LadderEntry>): (r: seq<LadderEntry>)
    ensures multiset(r) == multiset(entries) + multiset{e}
  {
    if entries == [] then [e]
    else
      assert entries == [entries[0]] + entries[1..];
      if e.atPct <= entries[0].atPct then [e] + entries
      else [entries[0]] + InsertEntry(e, entries[1..])
  }

  /** Stable sort by threshold. */
  function SortLadder(entries: seq<LadderEntry>): (r: seq<LadderEntry>)
    ensures multiset(r) == multiset(entries)
  {
    if entries == [] then []
    else
      assert entries == [entries[0]] + entries[1..];
      InsertEntry(entries[0], SortLadder(entries[1..]))
  }

  predicate Ascending(entries: seq<LadderEntry>) {
    forall i, j | 0 <= i < j < |entries| :: entries[i].atPct <= entries[j].atPct
  }

  lemma {:induction false} InsertAscending(e: LadderEntry, entries: seq<LadderEntry>)
    requires Ascending(entries)
    ensures Ascending(InsertEntry(e, entries))
  {
    if entries != [] && e.atPct > entries[0].atPct {
      var rest := InsertEntry(e, entries[1..]);
      InsertAscending(e, entries[1..]);
      forall i | 0 <= i < |rest| ensures entries[0].atPct <= rest[i].atPct {
        assert rest[i] in multiset(rest);
        assert rest[i] == e || rest[i] in entries[1..];
      }
    }
  }

  lemma {:induction false} SortAscending(entries: seq<LadderEntry>)
    ensures Ascending(SortLadder(entries))
  {
    if entries != [] {
      SortAscending(entries[1..]);
      InsertAscending(entries[0], SortLadder(entries[1..]));
    }
  }

  function RungAt(ladder: seq<LadderEntry>, drawdown: real): Rung {
    LastReached(SortLadder(ladder), drawdown)
  }

  lemma {:induction false} LastReachedAppend(xs: seq<LadderEntry>, ys: seq<LadderEntry>, drawdown: real)
    ensures LastReached(xs + ys, drawdown)
         == if exists y | y in ys :: drawdown >= y.atPct then LastReached(ys, drawdown) else LastReached(xs, drawdown)
    decreases |ys|
  {
    if ys == [] {
      assert xs + ys == xs;
    } else {
      var n := |ys| - 1;
      assert (xs + ys)[..|xs| + n] == xs + ys[..n];
      assert ys == ys[..n] + [ys[n]];
      LastReachedAppend(xs, ys[..n], drawdown);
    }
  }

  lemma OneEntry(e: LadderEntry, drawdown: real)
    ensures LastReached([e], drawdown) == if drawdown >= e.atPct then e.action else NoRung
    ensures LastReached([], drawdown) == NoRung
  {
    assert [e][..0] == [];
  }

  // Some threshold lies between `from` and the drawdown.
  predicate ReachedFrom(entries: seq<LadderEntry>, from: real, drawdown: real) {
    exists x | x in entries :: drawdown >= x.atPct >= from
  }

  // What the scan finds of `entries` with one more entry `e`.
  function WithEntry(e: LadderEntry, entries: seq<LadderEntry>, drawdown: real): Rung {
    if drawdown < e.atPct || ReachedFrom(entries, e.atPct, drawdown) then LastReached(entries, drawdown) else e.action
  }

  lemma ReachedInFront(e: LadderEntry, entries: seq<LadderEntry>, drawdown: real)
    requires forall x | x in entries :: e.atPct <= x.atPct
    ensures LastReached([e] + entries, drawdown) == WithEntry(e, entries, drawdown)
  {
    hide LastReached;
    LastReachedAppend([e], entries, drawdown);
    OneEntry(e, drawdown);
    LastReachedAppend([], entries, drawdown);
    assert [] + entries == entries;
  }

  lemma ReachedBehind(
    e: LadderEntry, f: LadderEntry, rest: seq<LadderEntry>, more: seq<LadderEntry>, drawdown: real)
    requires f.atPct < e.atPct && (forall x :: x in more <==> x == e || x in rest)
    requires LastReached(more, drawdown) == WithEntry(e, rest, drawdown)
    ensures LastReached([f] + more, drawdown) == WithEntry(e, [f] + rest, drawdown)
  {
    hide LastReached;
    LastReachedAppend([f], rest, drawdown);
    LastReachedAppend([f], more, drawdown);
  }

  lemma {:induction false} ReachedAfterInsert(e: LadderEntry, entries: seq<LadderEntry>, drawdown: real)
    requires Ascending(entries)
    ensures LastReached(InsertEntry(e, entries), drawdown) == WithEntry(e, entries, drawdown)
  {
    hide LastReached, WithEntry;
    if entries == [] || e.atPct <= entries[0].atPct {
      ReachedInFront(e, entries, drawdown);
      assert [e] + [] == [e];
    } else {
      var rest := entries[1..];
      ReachedAfterInsert(e, rest, drawdown);
      forall x ensures x in InsertEntry(e, rest) <==> x == e || x in rest {
        assert x in multiset(InsertEntry(e, rest)) <==> x == e || x in multiset(rest);
      }
      ReachedBehind(e, entries[0], rest, InsertEntry(e, rest), drawdown);
      assert entries == [entries[0]] + rest;
    }
  }

  lemma RungOfMore(ladder: seq<LadderEntry>, drawdown: real)
    requires ladder != []
    ensures RungAt(ladder, drawdown)
         == if drawdown < ladder[0].atPct || ReachedFrom(ladder[1..], ladder[0].atPct, drawdown)
            then RungAt(ladder[1..], drawdown) else ladder[0].action
  {
    var rest := ladder[1..];
    SortAscending(rest);
    ReachedAfterInsert(ladder[0], SortLadder(rest), drawdown);
    hide InsertEntry, LastReached;
    forall x ensures x in SortLadder(rest) <==> x in rest {
      assert x in multiset(SortLadder(rest)) <==> x in multiset(rest);
    }
  }

  // The entry at `i` is reached, and no reached one has a greater threshold, or the same and comes later.
  predicate DeepestReached(ladder: seq<LadderEntry>, drawdown: real, i: nat)
    requires i < |ladder|
  {
    && drawdown >= ladder[i].atPct
    && forall j | 0 <= j < |ladder| && drawdown >= ladder[j].atPct ::
         ladder[j].atPct < ladder[i].atPct || (ladder[j].atPct == ladder[i].atPct && j <= i)
  }

  /** Whatever the ladder, and in whatever order it is written: the rung is the action of the deepest threshold
      reached, of equal thresholds the last one written, and none exactly if no threshold is reached. */
  lemma {:induction false} RungIsDeepest(ladder: seq<LadderEntry>, drawdown: real)
    ensures forall i | 0 <= i < |ladder| && DeepestReached(ladder, drawdown, i) ::
              RungAt(ladder, drawdown) == ladder[i].action
    ensures if exists e | e in ladder :: drawdown >= e.atPct
            then exists i | 0 <= i < |ladder| :: DeepestReached(ladder, drawdown, i)
            else RungAt(ladder, drawdown) == NoRung
  {
    hide RungAt, DeepestReached, ReachedFrom;
    if ladder == [] {
      NothingReached(drawdown);
    } else {
      var rest := ladder[1..];
      RungIsDeepest(rest, drawdown);
      RungOfMore(ladder, drawdown);
      DeepestFirst(ladder, drawdown);
      forall i | 0 <= i < |rest| ensures rest[i] == ladder[i + 1] {
        DeepestLater(ladder, drawdown, i);
      }
      if exists i | 0 <= i < |rest| :: DeepestReached(rest, drawdown, i) {
        var i :| 0 <= i < |rest| && DeepestReached(rest, drawdown, i);
        DeepestLater(ladder, drawdown, i);
        assert DeepestReached(ladder, drawdown, 0) || DeepestReached(ladder, drawdown, i + 1);
      }
      forall i | 0 <= i < |ladder| && DeepestReached(ladder, drawdown, i)
        ensures RungAt(ladder, drawdown) == ladder[i].action
      {
        if i > 0 { DeepestLater(ladder, drawdown, i - 1); }
      }
    }
  }

  lemma NothingReached(drawdown: real)
    ensures RungAt([], drawdown) == NoRung
  {
  }

  lemma DeepestFirst(ladder: seq<LadderEntry>, drawdown: real)
    requires ladder != []
    ensures DeepestReached(ladder, drawdown, 0) <==>
            drawdown >= ladder[0].atPct && !ReachedFrom(ladder[1..], ladder[0].atPct, drawdown)
    ensures (exists x | x in ladder :: drawdown >= x.atPct) <==>
            drawdown >= ladder[0].atPct || exists x | x in ladder[1..] :: drawdown >= x.atPct
    ensures ReachedFrom(ladder[1..], ladder[0].atPct, drawdown) ==> exists x | x in ladder[1..] :: drawdown >= x.atPct
  {
    assert ladder == [ladder[0]] + ladder[1..];
  }

  lemma DeepestLater(ladder: seq<LadderEntry>, drawdown: real, i: nat)
    requires i < |ladder| - 1
    ensures DeepestReached(ladder, drawdown, i + 1) <==>
            && DeepestReached(ladder[1..], drawdown, i)
            && (drawdown < ladder[0].atPct || ReachedFrom(ladder[1..], ladder[0].atPct, drawdown))
  {
    var rest := ladder[1..];
    assert forall j | 0 <= j < |rest| :: rest[j] == ladder[j + 1];
  }

  /** Deeper thresholds carry actions at least as severe. */
  predicate Escalating(ladder: seq<LadderEntry>) {
    forall i, j | 0 <= i < |ladder| && 0 <= j < |ladder| && ladder[i].atPct <= ladder[j].atPct ::
      Severity(ladder[i].action) <= Severity(ladder[j].action)
  }

  lemma {:induction false} LastReachedIsTop(entries: seq<LadderEntry>, drawdown: real)
    requires Ascending(entries) && Escalating(entries)
    ensures var r := LastReached(entries, drawdown);
            && (forall e | e in entries && drawdown >= e.atPct :: Severity(e.action) <= Severity(r))
            && (r == NoRung || exists e | e in entries :: drawdown >= e.atPct && e.action == r)
  {
    if entries != [] {
      var n := |entries| - 1;
      LastReachedIsTop(entries[..n], drawdown);
      assert entries == entries[..n] + [entries[n]];
      if drawdown >= entries[n].atPct {
        assert entries[n] in entries;
      }
    }
  }

  /** On an escalating ladder the scan over the sorted list finds the most severe rung reached. */
  lemma RungIsMostSevere(ladder: seq<LadderEntry>, drawdown: real)
    requires Escalating(ladder)
    ensures forall e | e in ladder && drawdown >= e.atPct :: Severity(e.action) <= Severity(RungAt(ladder, drawdown))
    ensures RungAt(ladder, drawdown) == NoRung
         || exists e | e in ladder :: drawdown >= e.atPct && e.action == RungAt(ladder, drawdown)
  {
    var sorted := SortLadder(ladder);
    SortAscending(ladder);
    forall e ensures e in sorted <==> e in ladder {
      assert e in multiset(sorted) <==> e in multiset(ladder);
    }
    forall i, j | 0 <= i < |sorted| && 0 <= j < |sorted| && sorted[i].atPct <= sorted[j].atPct
      ensures Severity(sorted[i].action) <= Severity(sorted[j].action)
    {
      assert sorted[i] in ladder && sorted[j] in ladder;
    }
    LastReachedIsTop(sorted, drawdown);
  }

  lemma DeeperIsMoreSevere(ladder: seq<LadderEntry>, shallow: real, deep: real)
    requires Escalating(ladder) && shallow <= deep
    ensures Severity(RungAt(ladder, shallow)) <= Severity(RungAt(ladder, deep))
  {
    RungIsMostSevere(ladder, shallow);
    RungIsMostSevere(ladder, deep);
  }
}
