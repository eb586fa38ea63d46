/** Local nonce reservation with chain reconciliation (agent/ops/nonce.py). A chain reply is a number, or
    nothing when the call or its parsing raises. */
module Nonce {
  import opened Wrappers

  // The confirmed and failed sets are records only; no operation reads them.
  datatype Nonces = Nonces(next: Option<int>, reserved: set<int>, confirmed: set<int>, failed: set<int>, gapped: bool)

  datatype Reserved = Nonce(n: int) | GapError | ChainError

  function Between(lo: int, hi: int): (r: set<int>)
    ensures forall x :: x in r <==> lo <= x < hi
    decreases hi - lo
  {
    if lo >= hi then {} else Between(lo, hi - 1) + {hi - 1}
  }

  // `chain <= min(open) < next`, of a set that may be empty.
  predicate LowestBetween(open: set<int>, chain: int, next: int) {
    (forall x | x in open :: chain <= x) && (exists x | x in open :: x < next)
  }

  function Synced(s: Nonces, chain: int): Nonces {
    if s.next.None? then s.(next := Some(chain))
    else
      var t :=
        if chain > s.next.value then
          s.(confirmed := s.confirmed + Between(s.next.value, chain),
             reserved := s.reserved - Between(s.next.value, chain),
             next := Some(chain))
        else s;
      if LowestBetween(t.reserved, chain, t.next.value) then t.(gapped := true) else t
  }

  // An exception leaves the state as it was when the call was made.
  function SyncedIf(s: Nonces, reply: Option<int>): Nonces {
    if reply.Some? then Synced(s, reply.value) else s
  }

  function ReserveFrom(s: Nonces, reply: Option<int>): (Nonces, Reserved) {
    if s.gapped then (s, GapError)
    else
      var t := if s.next.None? then SyncedIf(s, reply) else s;
      if t.next.None? then (t, ChainError)
      else (t.(reserved := t.reserved + {t.next.value}, next := Some(t.next.value + 1)), Nonce(t.next.value))
  }

  function Confirmed(s: Nonces, n: int, reply: Option<int>): Nonces {
    var open := s.reserved - {n};
    SyncedIf(s.(confirmed := s.confirmed + {n}, reserved := open,
                gapped := s.gapped || exists x | x in open :: x < n), reply)
  }

  function Failed(s: Nonces, n: int, reply: Option<int>): Nonces {
    SyncedIf(s.(failed := s.failed + {n}, reserved := s.reserved - {n},
                gapped := s.gapped || s.next.None? || n < s.next.value), reply)
  }

  class NonceManager {
    var next: Option<int>
    var reserved: set<int>
    var confirmed: set<int>
    var failed: set<int>
    var gapped: bool

    ghost function State(): Nonces
      reads this
    {
      Nonces(next, reserved, confirmed, failed, gapped)
    }

    constructor ()
      ensures State() == Nonces(None, {}, {}, {}, false)
    {
      next, reserved, confirmed, failed, gapped := None, {}, {}, {}, false;
    }

    method Sync(reply: Option<int>) returns (ok: bool)
      modifies this
      ensures ok <==> reply.Some?
      ensures State() == SyncedIf(old(State()), reply)
    {
      if reply.None? {
        return false;
      }
      var chain := reply.value;
      if next.None? {
        next := Some(chain);
        return true;
      }
      if chain > next.value {
        confirmed := confirmed + Between(next.value, chain);
        reserved := reserved - Between(next.value, chain);
        next := Some(chain);
      }
      if LowestBetween(reserved, chain, next.value) {
        gapped := true;
      }
      return true;
    }

    method Reserve(reply: Option<int>) returns (r: Reserved)
      modifies this
      ensures (State(), r) == ReserveFrom(old(State()), reply)
    {
      if gapped {
        return GapError;
      }
      if next.None? {
        var ok := Sync(reply);
        if !ok {
          return ChainError;
        }
      }
      var nonce := next.value;
      reserved := reserved + {nonce};
      next := Some(nonce + 1);
      return Nonce(nonce);
    }

    method OnConfirmed(nonce: int, reply: Option<int>) returns (ok: bool)
      modifies this
      ensures ok <==> reply.Some?
      ensures State() == Confirmed(old(State()), nonce, reply)
    {
      confirmed := confirmed + {nonce};
      reserved := reserved - {nonce};
      if exists x | x in reserved :: x < nonce {
        gapped := true;
      }
      ok := Sync(reply);
    }

    method OnFailed(nonce: int, reply: Option<int>) returns (ok: bool)
      modifies this
      ensures ok <==> reply.Some?
      ensures State() == Failed(old(State()), nonce, reply)
    {
      failed := failed + {nonce};
      reserved := reserved - {nonce};
      if next.None? || nonce < next.value {
        gapped := true;
      }
      ok := Sync(reply);
    }
  }

  // ---------------------------------------------------------------- one call

  /** A sync after the first settles every open nonce that the chain has passed and no other, and moves the next nonce
      up to the chain's; it leaves a gap exactly where there was one or where a nonce is open that the chain waits
      for. */
  lemma SyncedMeans(s: Nonces, chain: int)
    requires s.next.Some? && OpenBelowNext(s)
    ensures var t := Synced(s, chain);
            && t.next == Some(if chain > s.next.value then chain else s.next.value)
            && (forall x :: x in t.reserved <==> x in s.reserved && !(s.next.value <= x < chain))
            && (forall x :: x in t.confirmed <==> x in s.confirmed || s.next.value <= x < chain)
            && t.failed == s.failed
            && (t.gapped <==> s.gapped || (s.reserved != {} && forall x | x in s.reserved :: chain <= x))
  {
    var t := Synced(s, chain);
    assert t.reserved == s.reserved;
    if s.reserved != {} { var x :| x in s.reserved; }
  }

  /** A nonce is handed out exactly when there is no gap and the next one is known or can be read; it is the next one,
      and is open from then on. */
  lemma ReserveMeans(s: Nonces, reply: Option<int>)
    ensures var (t, r) := ReserveFrom(s, reply);
            if s.gapped then r == GapError && t == s
            else if s.next.None? && reply.None? then r == ChainError && t == s
            else
              var n := if s.next.Some? then s.next.value else reply.value;
              && r == Nonce(n) && t.next == Some(n + 1) && t.reserved == s.reserved + {n}
              && t.confirmed == s.confirmed && t.failed == s.failed && !t.gapped
  {
  }

  /** A nonce that failed below the next one leaves a gap, and so does one confirmed above a nonce still open; neither
      call opens a nonce or forgets one but the one it closes. */
  lemma ClosingMeans(s: Nonces, n: int, reply: Option<int>)
    requires OpenBelowNext(s)
    ensures var t := Failed(s, n, reply);
            && n in t.failed && n !in t.reserved && (s.next.None? || n < s.next.value ==> t.gapped)
            && (reply.None? ==> t.reserved == s.reserved - {n} && t.next == s.next && t.confirmed == s.confirmed)
            && (reply.None? ==> (t.gapped <==> s.gapped || s.next.None? || n < s.next.value))
    ensures var t := Confirmed(s, n, reply);
            && n in t.confirmed && n !in t.reserved && ((exists x | x in s.reserved :: x < n) ==> t.gapped)
            && (reply.None? ==> t.reserved == s.reserved - {n} && t.next == s.next && t.failed == s.failed)
            && (reply.None? ==> (t.gapped <==> s.gapped || exists x | x in s.reserved :: x < n))
  {
    var open := s.reserved - {n};
    if exists x | x in s.reserved :: x < n {
      var x :| x in s.reserved && x < n;
      assert x in open;
    }
  }

  // ---------------------------------------------------------------- over any sequence of calls

  datatype Call =
    | CallSync(reply: Option<int>)
    | CallReserve(reply: Option<int>)
    | CallConfirmed(n: int, reply: Option<int>)
    | CallFailed(n: int, reply: Option<int>)

  function Step(s: Nonces, c: Call): Nonces {
    match c
    case CallSync(reply) => SyncedIf(s, reply)
    case CallReserve(reply) => ReserveFrom(s, reply).0
    case CallConfirmed(n, reply) => Confirmed(s, n, reply)
    case CallFailed(n, reply) => Failed(s, n, reply)
  }

  const FRESH: Nonces := Nonces(None, {}, {}, {}, false)

  function After(calls: seq<Call>): Nonces {
    if calls == [] then FRESH else Step(After(calls[..|calls| - 1]), calls[|calls| - 1])
  }

  /** The nonces that `reserve` returned, in order. */
  function Returned(calls: seq<Call>): seq<int> {
    if calls == [] then []
    else
      var before, c := calls[..|calls| - 1], calls[|calls| - 1];
      Returned(before)
      + if c.CallReserve? && ReserveFrom(After(before), c.reply).1.Nonce? then
          [ReserveFrom(After(before), c.reply).1.n]
        else []
  }

  predicate OpenBelowNext(s: Nonces) {
    if s.next.None? then s.reserved == {} else forall x | x in s.reserved :: x < s.next.value
  }

  // Between two calls: the next nonce never decreases, and a gap never closes.
  predicate Advances(s: Nonces, t: Nonces) {
    && (s.next.Some? ==> t.next.Some? && s.next.value <= t.next.value)
    && (s.gapped ==> t.gapped)
  }

  lemma SyncAdvances(s: Nonces, reply: Option<int>)
    requires OpenBelowNext(s)
    ensures OpenBelowNext(SyncedIf(s, reply)) && Advances(s, SyncedIf(s, reply))
  {
  }

  lemma StepAdvances(s: Nonces, c: Call)
    requires OpenBelowNext(s)
    ensures OpenBelowNext(Step(s, c)) && Advances(s, Step(s, c))
  {
    match c
    case CallSync(reply) => SyncAdvances(s, reply);
    case CallReserve(reply) => SyncAdvances(s, reply);
    case CallConfirmed(n, reply) =>
      var open := s.reserved - {n};
      SyncAdvances(s.(confirmed := s.confirmed + {n}, reserved := open,
                      gapped := s.gapped || exists x | x in open :: x < n), reply);
    case CallFailed(n, reply) =>
      SyncAdvances(s.(failed := s.failed + {n}, reserved := s.reserved - {n},
                      gapped := s.gapped || s.next.None? || n < s.next.value), reply);
  }

  /** Over any sequence of calls and chain replies: no nonce is handed out twice, for those handed out
      strictly increase; every open nonce is below the next one. */
  lemma {:induction false} NoncesIncrease(calls: seq<Call>)
    ensures var r := Returned(calls);
            && OpenBelowNext(After(calls))
            && (forall i, j | 0 <= i < j < |r| :: r[i] < r[j])
            && (r != [] ==> After(calls).next.Some? && r[|r| - 1] < After(calls).next.value)
  {
    if calls != [] {
      var before, c := calls[..|calls| - 1], calls[|calls| - 1];
      NoncesIncrease(before);
      StepAdvances(After(before), c);
      var p, r := Returned(before), Returned(calls);
      assert forall i | 0 <= i < |p| :: p[i] <= p[|p| - 1];
      assert |r| > |p| ==> r[..|p|] == p && r[|p|] + 1 == After(calls).next.value;
    }
  }

  /** The gapped state is absorbing, and in it nothing is handed out any more. */
  lemma {:induction false} GapIsAbsorbing(calls: seq<Call>, later: seq<Call>)
    requires After(calls).gapped
    ensures After(calls + later).gapped && Returned(calls + later) == Returned(calls)
    decreases |later|
  {
    if later == [] {
      assert calls + later == calls;
    } else {
      var all := calls + later;
      var n := |later| - 1;
      assert all[..|all| - 1] == calls + later[..n] && all[|all| - 1] == later[n];
      GapIsAbsorbing(calls, later[..n]);
      NoncesIncrease(calls + later[..n]);
      StepAdvances(After(calls + later[..n]), later[n]);
    }
  }

  /** After a later `sync` the manager is gapped exactly if it was so before, or nonces are open and the chain
      has seen none of them: left ungapped, the lowest open nonce is below the chain's. */
  lemma UngappedSyncSawLowest(calls: seq<Call>, chain: int)
    requires After(calls).next.Some?
    ensures var s := Synced(After(calls), chain);
            !s.gapped <==> !After(calls).gapped && (s.reserved == {} || exists x | x in s.reserved :: x < chain)
  {
    NoncesIncrease(calls);
    SyncAdvances(After(calls), Some(chain));
    var s := Synced(After(calls), chain);
    assert s.reserved != {} ==> exists x :: x in s.reserved;
  }
}
