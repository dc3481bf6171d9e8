/** The gate in front of IBKR's Flex service: pacing, back-off, daily failure budget and lock of one token. */
module FlexGate {
  import opened Clock
  import opened Wrappers

  const COOLDOWN: int := MINUTE
  const MAX_BACKOFF: int := 2 * HOUR
  const DAILY_FAILURES: nat := 6

  /** `None` is Go's zero time, or the empty budget day. */
  datatype TokenState = TokenState(
    lastReq: Option<int>, failures: nat, budgetDay: Option<int>, budgetSpent: nat, lockedUntil: Option<int>)

  const NEW_TOKEN := TokenState(None, 0, None, 0, None)

  datatype Answer = Granted | Denied(retryAt: int)

  /** How a claimed request ended; `LockedOut` is IBKR's code 1025. */
  datatype Ending = Succeeded | Failed | LockedOut

  function Pow2(n: nat): nat {
    if n == 0 then 1 else 2 * Pow2(n - 1)
  }

  /** The wait after a number of consecutive failures: doubling to 128 minutes, then the cap of 120. */
  function Wait(failures: nat): int {
    if failures <= 7 then Pow2(failures) * MINUTE else MAX_BACKOFF
  }

  lemma WaitBounds(failures: nat)
    ensures MINUTE <= Wait(failures) <= 128 * MINUTE
  {
    if failures <= 7 {
      Pow2Values();
    }
  }

  lemma Pow2Values()
    ensures Pow2(0) == 1 && Pow2(1) == 2 && Pow2(2) == 4 && Pow2(3) == 8
    ensures Pow2(4) == 16 && Pow2(5) == 32 && Pow2(6) == 64 && Pow2(7) == 128
  {
    assert Pow2(3) == 8;
    assert Pow2(5) == 32;
  }

  method FlexTokenWait(failures: nat) returns (wait: int)
    ensures wait == Wait(failures)
  {
    Pow2Values();
    wait := COOLDOWN;
    var n := 0;
    while n < failures
      invariant n <= failures && n <= 7
      invariant wait == Pow2(n) * MINUTE
    {
      if wait >= MAX_BACKOFF {
        return MAX_BACKOFF;
      }
      wait := wait * 2;
      n := n + 1;
    }
  }

  /** The longest wait is not the last one: the seventh failure waits longer than every later one. */
  lemma BackoffIsNotMonotone(failures: nat)
    ensures failures < 7 ==> Wait(failures) < Wait(failures + 1)
    ensures failures == 7 ==> Wait(failures) > Wait(failures + 1) == MAX_BACKOFF
    ensures failures > 7 ==> Wait(failures) == Wait(failures + 1) == MAX_BACKOFF
  {
    Pow2Values();
  }

  /** One minute, then 2, 4, 8, 16, 32, 64 and 128, and two hours from the eighth failure on; in seconds. */
  lemma WaitIs(failures: nat)
    ensures failures < 8 ==> Wait(failures) == [60, 120, 240, 480, 960, 1920, 3840, 7680][failures] * 1_000_000_000
    ensures failures >= 8 ==> Wait(failures) == 7200 * 1_000_000_000
  {
    Pow2Values();
  }

  function OnDay(st: TokenState, now: int): TokenState {
    if st.budgetDay == Some(UtcDay(now)) then st else st.(budgetDay := Some(UtcDay(now)), budgetSpent := 0)
  }

  /** One claim at `now`: the state it leaves and its answer. */
  function Claim(before: TokenState, now: int): (TokenState, Answer) {
    var st := OnDay(before, now);
    if st.lockedUntil.Some? && now < st.lockedUntil.value then
      (st, Denied(st.lockedUntil.value))
    else if st.budgetSpent >= DAILY_FAILURES then
      (st, Denied(NextUtcDay(now)))
    else if st.lastReq.Some? && now - st.lastReq.value < Wait(st.failures) then
      (st, Denied(st.lastReq.value + Wait(st.failures)))
    else
      (st.(lastReq := Some(now)), Granted)
  }

  /** A claim is granted exactly when the token is not locked at that instant, fewer than six failures have been
      booked on that UTC day, and the wait since its last request has passed; a grant is the new last request. */
  lemma GrantedIff(before: TokenState, now: int)
    ensures var (st, a) := Claim(before, now);
      && (a.Granted? <==>
            && (before.lockedUntil.None? || before.lockedUntil.value <= now)
            && (before.budgetDay != Some(UtcDay(now)) || before.budgetSpent <= 5)
            && (before.lastReq.None? || before.lastReq.value + Wait(before.failures) <= now))
      && st.lastReq == (if a.Granted? then Some(now) else before.lastReq)
      && st.failures == before.failures && st.lockedUntil == before.lockedUntil && st.budgetDay == Some(UtcDay(now))
      && st.budgetSpent == (if before.budgetDay == Some(UtcDay(now)) then before.budgetSpent else 0)
  {
  }

  /** A refusal names a later instant: the end of the lock if there is one, else the next UTC day if the budget is
      spent, else the end of the wait. */
  lemma RefusalNames(before: TokenState, now: int)
    requires Claim(before, now).1.Denied?
    ensures var retryAt, locked := Claim(before, now).1.retryAt, before.lockedUntil.Some? && now < before.lockedUntil.value;
      && now < retryAt
      && (locked ==> Some(retryAt) == before.lockedUntil)
      && (!locked && before.budgetDay == Some(UtcDay(now)) && before.budgetSpent > 5 ==> retryAt == NextUtcDay(now))
      && (!locked && !(before.budgetDay == Some(UtcDay(now)) && before.budgetSpent > 5) ==>
            before.lastReq.Some? && retryAt == before.lastReq.value + Wait(before.failures))
  {
  }

  function Close(st: TokenState, now: int, ending: Ending): TokenState {
    if ending == Succeeded then
      st.(failures := 0)
    else
      var failed := st.(lastReq := Some(now), failures := st.failures + 1, budgetSpent := st.budgetSpent + 1);
      if ending == LockedOut then failed.(lockedUntil := Some(NextUtcDay(now))) else failed
  }

  /** The process-wide token table. */
  class TokenTable {
    var states: map<string, TokenState>

    constructor ()
      ensures states == map[]
    {
      states := map[];
    }

    method ClaimFlexToken(token: string, now: int) returns (a: Answer)
      modifies this
      ensures token in states
      ensures (states[token], a) == Claim(if token in old(states) then old(states)[token] else NEW_TOKEN, now)
      ensures states == old(states)[token := states[token]]
    {
      var st := if token in states then states[token] else NEW_TOKEN;
      if st.budgetDay != Some(UtcDay(now)) {
        st := st.(budgetDay := Some(UtcDay(now)), budgetSpent := 0);
      }
      states := states[token := st];
      if st.lockedUntil.Some? && now < st.lockedUntil.value {
        return Denied(st.lockedUntil.value);
      }
      if st.budgetSpent >= DAILY_FAILURES {
        return Denied(NextUtcDay(now));
      }
      var wait := FlexTokenWait(st.failures);
      if st.lastReq.Some? && now - st.lastReq.value < wait {
        return Denied(st.lastReq.value + wait);
      }
      states := states[token := st.(lastReq := Some(now))];
      return Granted;
    }

    method NoteFlexOutcome(token: string, now: int, ending: Ending)
      modifies this
      ensures states == if token in old(states) then old(states)[token := Close(old(states)[token], now, ending)] else old(states)
    {
      if token !in states {
        return;
      }
      var st := states[token];
      if ending == Succeeded {
        states := states[token := st.(failures := 0)];
        return;
      }
      st := st.(lastReq := Some(now), failures := st.failures + 1, budgetSpent := st.budgetSpent + 1);
      if ending == LockedOut {
        st := st.(lockedUntil := Some(NextUtcDay(now)));
      }
      states := states[token := st];
    }
  }

  // ---------------------------------------------------------------- runs of one token

  /** A claim, or the outcome of the granted claim that is event number `claim` of the run. */
  datatype Event = Claimed(now: int) | Closed(now: int, ending: Ending, claim: nat)

  function Step(st: Option<TokenState>, e: Event): Option<TokenState> {
    match e
    case Claimed(now) => Some(Claim(if st.Some? then st.value else NEW_TOKEN, now).0)
    case Closed(now, ending, _) => if st.Some? then Some(Close(st.value, now, ending)) else None
  }

  /** The token's entry after a run; `None` while nothing has claimed it. */
  function After(run: seq<Event>): Option<TokenState> {
    if run == [] then None else Step(After(run[..|run| - 1]), run[|run| - 1])
  }

  function StateBefore(run: seq<Event>, i: nat): TokenState
    requires i <= |run|
  {
    var st := After(run[..i]);
    if st.Some? then st.value else NEW_TOKEN
  }

  predicate GrantedAt(run: seq<Event>, i: nat)
    requires i < |run|
  {
    run[i].Claimed? && Claim(StateBefore(run, i), run[i].now).1.Granted?
  }

  /** A failure the gate hears of: one reported after the token was first claimed. */
  predicate FailureAt(run: seq<Event>, i: nat)
    requires i < |run|
  {
    run[i].Closed? && run[i].ending != Succeeded && After(run[..i]).Some?
  }

  ghost predicate Monotone(run: seq<Event>) {
    forall i, j :: 0 <= i < j < |run| ==> run[i].now <= run[j].now
  }

  lemma Unroll(run: seq<Event>, k: nat)
    requires k < |run|
    ensures After(run[..k + 1]) == Step(After(run[..k]), run[k])
  {
    assert run[..k + 1][..k] == run[..k];
  }

  /** Instants of one step: what a claim or a closing does to the last request and to the lock. */
  lemma StepMoves(st: Option<TokenState>, e: Event)
    ensures var was, st' := if st.Some? then st.value else NEW_TOKEN, Step(st, e);
      && (st'.Some? ==> st'.value.lastReq == was.lastReq || st'.value.lastReq == Some(e.now))
      && (st'.Some? ==> st'.value.lockedUntil == was.lockedUntil || st'.value.lockedUntil == Some(NextUtcDay(e.now)))
      && (e.Claimed? && Claim(was, e.now).1.Granted? ==> st'.value.lastReq == Some(e.now))
      && (e.Closed? && e.ending != Succeeded && st.Some? ==> st'.value.lastReq == Some(e.now))
      && (e.Closed? && e.ending == LockedOut && st.Some? ==> st'.value.lockedUntil == Some(NextUtcDay(e.now)))
  {
  }

  /** The same along a run. */
  lemma MovesAt(run: seq<Event>, k: nat)
    requires k < |run|
    ensures var was, st, e := StateBefore(run, k), StateBefore(run, k + 1), run[k];
      && (st.lastReq == was.lastReq || st.lastReq == Some(e.now))
      && (st.lockedUntil == was.lockedUntil || st.lockedUntil == Some(NextUtcDay(e.now)))
      && (GrantedAt(run, k) || FailureAt(run, k) ==> st.lastReq == Some(e.now))
      && (FailureAt(run, k) && e.ending == LockedOut ==> st.lockedUntil == Some(NextUtcDay(e.now)))
  {
    Unroll(run, k);
    StepMoves(After(run[..k]), run[k]);
  }

  /** The last request the gate remembers is no earlier than any grant or failure before it. */
  lemma {:induction false} LastRequestCovers(run: seq<Event>, i: nat, k: nat)
    requires Monotone(run) && i < k <= |run| && (GrantedAt(run, i) || FailureAt(run, i))
    ensures StateBefore(run, k).lastReq.Some? && run[i].now <= StateBefore(run, k).lastReq.value
    decreases k
  {
    MovesAt(run, k - 1);
    if i < k - 1 {
      LastRequestCovers(run, i, k - 1);
    }
  }

  /** The lock reaches the midnight after any 1025 before it. */
  lemma {:induction false} LockCovers(run: seq<Event>, i: nat, k: nat)
    requires Monotone(run) && i < k <= |run| && FailureAt(run, i) && run[i].ending == LockedOut
    ensures StateBefore(run, k).lockedUntil.Some? && NextUtcDay(run[i].now) <= StateBefore(run, k).lockedUntil.value
    decreases k
  {
    MovesAt(run, k - 1);
    if i < k - 1 {
      LockCovers(run, i, k - 1);
      DaysAdvance(run[i].now, run[k - 1].now);
    }
  }

  lemma {:induction false} LastRequestIsPast(run: seq<Event>, k: nat)
    requires Monotone(run) && k <= |run|
    ensures var st := StateBefore(run, k);
      st.lastReq.Some? ==> k > 0 && st.lastReq.value <= run[k - 1].now
  {
    if k > 0 {
      MovesAt(run, k - 1);
      LastRequestIsPast(run, k - 1);
    }
  }

  /** A lock never outlives the midnight that follows the last event. */
  lemma {:induction false} LockIsNear(run: seq<Event>, k: nat)
    requires Monotone(run) && k <= |run|
    ensures var st := StateBefore(run, k);
      st.lockedUntil.Some? ==> k > 0 && st.lockedUntil.value <= NextUtcDay(run[k - 1].now)
  {
    if k > 0 {
      MovesAt(run, k - 1);
      LockIsNear(run, k - 1);
      if k > 1 {
        DaysAdvance(run[k - 2].now, run[k - 1].now);
      }
    }
  }

  /** Two grants are at least one minute apart. */
  lemma GrantsArePaced(run: seq<Event>, i: nat, j: nat)
    requires Monotone(run) && i < j < |run| && GrantedAt(run, i) && GrantedAt(run, j)
    ensures run[j].now - run[i].now >= MINUTE
  {
    LastRequestCovers(run, i, j);
    WaitBounds(StateBefore(run, j).failures);
  }

  /** The failures reported since the last success. */
  function TrailingFailures(run: seq<Event>): nat {
    if run == [] then 0
    else
      var n := |run| - 1;
      match run[n]
      case Claimed(_) => TrailingFailures(run[..n])
      case Closed(_, Succeeded, _) => 0
      case Closed(_, _, _) => if After(run[..n]).Some? then TrailingFailures(run[..n]) + 1 else 0
  }

  lemma {:induction false} FailuresAreTrailing(run: seq<Event>)
    ensures StateBefore(run, |run|).failures == TrailingFailures(run)
  {
    assert run[..|run|] == run;
    if run != [] {
      FailuresAreTrailing(run[..|run| - 1]);
      assert run[..|run| - 1][..|run| - 1] == run[..|run| - 1];
    }
  }

  /** After f consecutive failures the next grant comes at least Wait(f) after the last of them. */
  lemma BackoffHolds(run: seq<Event>, i: nat, j: nat)
    requires Monotone(run) && i < j < |run| && FailureAt(run, i) && GrantedAt(run, j)
    ensures run[j].now - run[i].now >= Wait(TrailingFailures(run[..j]))
  {
    LastRequestCovers(run, i, j);
    FailuresAreTrailing(run[..j]);
    assert run[..j][..j] == run[..j];
  }

  /** A 1025 blocks every grant until the next UTC day. */
  lemma LockHolds(run: seq<Event>, i: nat, j: nat)
    requires Monotone(run) && i < j < |run| && FailureAt(run, i) && run[i].ending == LockedOut && GrantedAt(run, j)
    ensures run[j].now >= NextUtcDay(run[i].now)
  {
    LockCovers(run, i, j);
  }

  // ---------------------------------------------------------------- the daily budget

  /** The granted claims whose outcome has not been reported. */
  function Open(run: seq<Event>): set<nat> {
    if run == [] then {}
    else
      var n := |run| - 1;
      match run[n]
      case Claimed(_) => if GrantedAt(run, n) then Open(run[..n]) + {n} else Open(run[..n])
      case Closed(_, _, claim) => Open(run[..n]) - {claim}
  }

  /** Outcomes are those of granted claims, each reported once at most. */
  ghost predicate Proper(run: seq<Event>) {
    forall i: nat :: i < |run| ==> ProperAt(run, i)
  }

  predicate ProperAt(run: seq<Event>, i: nat)
    requires i < |run|
  {
    run[i].Closed? ==> run[i].claim in Open(run[..i])
  }

  /** At no time are more than m requests in flight; refused claims may come at any time. */
  ghost predicate AtMostOpen(run: seq<Event>, m: nat) {
    forall k: nat :: k <= |run| ==> OpenBy(run, k, m)
  }

  predicate OpenBy(run: seq<Event>, k: nat, m: nat)
    requires k <= |run|
  {
    |Open(run[..k])| <= m
  }

  /** The last event is the failure of a request claimed on `day`. */
  predicate EndsInFailure(run: seq<Event>, day: int) {
    run != [] && var e := run[|run| - 1];
    e.Closed? && e.ending != Succeeded && e.claim < |run| && UtcDay(run[e.claim].now) == day
  }

  /** How many requests claimed on `day` have failed. */
  function FailedOn(run: seq<Event>, day: int): nat {
    if run == [] then 0 else FailedOn(run[..|run| - 1], day) + if EndsInFailure(run, day) then 1 else 0
  }

  /** The open requests claimed on `day`. */
  ghost function OpenOn(run: seq<Event>, day: int): set<nat> {
    set i | i in Open(run) && i < |run| && UtcDay(run[i].now) == day
  }

  lemma {:induction false} OpenIsPast(run: seq<Event>)
    ensures forall i :: i in Open(run) ==> i < |run|
    ensures After(run).None? ==> Open(run) == {}
  {
    if run != [] {
      OpenIsPast(run[..|run| - 1]);
    }
  }

  /** A run and the run before its last event. */
  lemma Shorter(run: seq<Event>, m: nat)
    requires run != [] && Monotone(run) && Proper(run) && AtMostOpen(run, m)
    ensures var p := run[..|run| - 1];
      && Monotone(p) && Proper(p) && AtMostOpen(p, m)
      && StateBefore(p, |p|) == StateBefore(run, |p|)
      && |Open(run)| <= m
  {
    var p := run[..|run| - 1];
    forall i: nat | i <= |p|
      ensures OpenBy(p, i, m) && p[..i] == run[..i] && (i < |p| ==> ProperAt(p, i))
    {
      assert p[..i] == run[..i];
      assert OpenBy(run, i, m) && (i < |run| ==> ProperAt(run, i));
    }
    assert run[..|run|] == run && OpenBy(run, |run|, m);
  }

  /** What the budget knows of one day: its spending covers the day's failures while the day lasts, and the
      failures with what may still fail never exceed five and the most requests in flight. */
  ghost predicate BudgetCovers(run: seq<Event>, day: int, m: nat) {
    var st := StateBefore(run, |run|);
    && FailedOn(run, day) + |OpenOn(run, day)| <= DAILY_FAILURES - 1 + m
    && (st.budgetDay.None? ==> FailedOn(run, day) == 0 && OpenOn(run, day) == {})
    && (st.budgetDay.Some? ==>
        && |run| > 0 && st.budgetDay.value <= UtcDay(run[|run| - 1].now)
        && (st.budgetDay.value == day ==> FailedOn(run, day) <= st.budgetSpent)
        && (st.budgetDay.value < day ==> FailedOn(run, day) == 0 && OpenOn(run, day) == {}))
  }

  /** A claim moves the budget to its own day, emptying it when the day is new. */
  lemma ClaimBudget(st: TokenState, now: int)
    ensures var (st', a) := Claim(st, now);
      && st'.budgetDay == Some(UtcDay(now))
      && st'.budgetSpent == (if st.budgetDay == Some(UtcDay(now)) then st.budgetSpent else 0)
      && (a.Granted? ==> st'.budgetSpent < DAILY_FAILURES)
  {
  }

  lemma OpenOnAfterClaim(run: seq<Event>, day: int)
    requires run != [] && run[|run| - 1].Claimed?
    ensures var n := |run| - 1;
      OpenOn(run, day) == OpenOn(run[..n], day) + if GrantedAt(run, n) && UtcDay(run[n].now) == day then {n} else {}
  {
    OpenIsPast(run[..|run| - 1]);
  }

  /** What a claim leaves of the state and of the counts. */
  lemma ClaimCounts(run: seq<Event>, day: int)
    requires run != [] && run[|run| - 1].Claimed?
    ensures var p, e := run[..|run| - 1], run[|run| - 1];
      && StateBefore(run, |run|) == Claim(StateBefore(p, |p|), e.now).0
      && (GrantedAt(run, |p|) <==> Claim(StateBefore(p, |p|), e.now).1 == Granted)
      && FailedOn(run, day) == FailedOn(p, day)
  {
    var n := |run| - 1;
    Unroll(run, n);
    assert run[..n + 1] == run && run[..n][..n] == run[..n];
  }

  lemma BudgetAfterClaim(run: seq<Event>, day: int, m: nat)
    requires run != [] && Monotone(run) && Proper(run) && AtMostOpen(run, m) && run[|run| - 1].Claimed?
    requires BudgetCovers(run[..|run| - 1], day, m)
    ensures BudgetCovers(run, day, m)
  {
    var n := |run| - 1;
    assert |Open(run)| <= m by {
      Shorter(run, m);
    }
    ClaimCounts(run, day);
    ClaimBudget(StateBefore(run[..n], n), run[n].now);
    OpenOnAfterClaim(run, day);
    OpenOnIsOpen(run, day);
    if n > 0 {
      DaysAdvance(run[n - 1].now, run[n].now);
    }
  }

  lemma OpenOnIsOpen(run: seq<Event>, day: int)
    ensures |OpenOn(run, day)| <= |Open(run)|
  {
    var rest := Open(run) - OpenOn(run, day);
    assert Open(run) == OpenOn(run, day) + rest;
    assert |Open(run)| == |OpenOn(run, day)| + |rest|;
  }

  lemma OpenOnAfterClosing(run: seq<Event>, day: int)
    requires run != [] && run[|run| - 1].Closed? && run[|run| - 1].claim in Open(run[..|run| - 1])
    ensures var n := |run| - 1;
      && run[n].claim < n
      && OpenOn(run, day) == OpenOn(run[..n], day) - {run[n].claim}
      && (UtcDay(run[run[n].claim].now) == day <==> run[n].claim in OpenOn(run[..n], day))
  {
    OpenIsPast(run[..|run| - 1]);
  }

  /** A closing turns an open request of its day into a failure, or into nothing. */
  lemma ClosingCounts(run: seq<Event>, day: int)
    requires run != [] && run[|run| - 1].Closed? && run[|run| - 1].claim in Open(run[..|run| - 1])
    ensures var p := run[..|run| - 1];
      var failed := if run[|run| - 1].ending == Succeeded then 0 else 1;
      && FailedOn(run, day) + |OpenOn(run, day)| <= FailedOn(p, day) + |OpenOn(p, day)|
      && FailedOn(run, day) <= FailedOn(p, day) + failed
      && (OpenOn(p, day) == {} ==> FailedOn(run, day) == FailedOn(p, day) && OpenOn(run, day) == {})
  {
    OpenOnAfterClosing(run, day);
  }

  lemma CloseBudget(st: TokenState, now: int, ending: Ending)
    ensures Close(st, now, ending).budgetDay == st.budgetDay
    ensures Close(st, now, ending).budgetSpent == st.budgetSpent + if ending == Succeeded then 0 else 1
  {
  }

  lemma BudgetAfterClosing(run: seq<Event>, day: int, m: nat)
    requires run != [] && Monotone(run) && Proper(run) && AtMostOpen(run, m) && run[|run| - 1].Closed?
    requires BudgetCovers(run[..|run| - 1], day, m)
    ensures BudgetCovers(run, day, m)
  {
    var n := |run| - 1;
    Shorter(run, m);
    OpenIsPast(run[..n]);
    assert ProperAt(run, n);
    ClosingCounts(run, day);
    CloseBudget(StateBefore(run, n), run[n].now, run[n].ending);
    assert StateBefore(run, n + 1) == Close(StateBefore(run, n), run[n].now, run[n].ending) by {
      Unroll(run, n);
    }
    assert run[..n + 1] == run;
    if n > 0 {
      DaysAdvance(run[n - 1].now, run[n].now);
    }
  }

  lemma {:induction false} BudgetIsCovered(run: seq<Event>, day: int, m: nat)
    requires Monotone(run) && Proper(run) && AtMostOpen(run, m)
    ensures BudgetCovers(run, day, m)
  {
    if run != [] {
      Shorter(run, m);
      BudgetIsCovered(run[..|run| - 1], day, m);
      if run[|run| - 1].Claimed? {
        BudgetAfterClaim(run, day, m);
      } else {
        BudgetAfterClosing(run, day, m);
      }
    }
  }

  /** In every run, the requests claimed on one UTC day that fail number at most five more than the requests
      ever in flight together. */
  lemma FailuresAreBounded(run: seq<Event>, day: int, m: nat)
    requires Monotone(run) && Proper(run) && AtMostOpen(run, m)
    ensures FailedOn(run, day) <= 5 + m
  {
    BudgetIsCovered(run, day, m);
  }

  /** With one request in flight at a time, and claims refused at any time, at most six fail. */
  lemma DailyBudgetHolds(run: seq<Event>, day: int)
    requires Monotone(run) && Proper(run) && AtMostOpen(run, 1)
    ensures FailedOn(run, day) <= 6
  {
    FailuresAreBounded(run, day, 1);
  }

  // ---------------------------------------------------------------- the bound is reached

  /** A run on day 0, up to an instant: where it leaves the token, what is open and how many requests failed. */
  ghost predicate Reaches(run: seq<Event>, st: Option<TokenState>, open: set<nat>, failed: nat, m: nat, now: int) {
    && Monotone(run) && Proper(run) && AtMostOpen(run, m)
    && After(run) == st && Open(run) == open && FailedOn(run, 0) == failed
    && Today(run, now)
  }

  /** Every event is on day 0, and none is later than an instant. */
  ghost predicate Today(run: seq<Event>, now: int) {
    forall i :: 0 <= i < |run| ==> run[i].now <= now && UtcDay(run[i].now) == 0
  }

  lemma TodayOneMore(run: seq<Event>, e: Event, before: int)
    requires Today(run, before) && before <= e.now && UtcDay(e.now) == 0
    ensures Today(run + [e], e.now)
  {
  }

  lemma ProperExtends(run: seq<Event>, e: Event)
    requires Proper(run) && (e.Closed? ==> e.claim in Open(run))
    ensures Proper(run + [e])
  {
    var longer := run + [e];
    forall i: nat | i < |longer|
      ensures ProperAt(longer, i)
    {
      assert longer[..i] == run[..i];
      if i < |run| {
        assert ProperAt(run, i);
      } else {
        assert run[..i] == run;
      }
    }
  }

  lemma AtMostOpenExtends(run: seq<Event>, e: Event, m: nat)
    requires AtMostOpen(run, m) && |Open(run + [e])| <= m
    ensures AtMostOpen(run + [e], m)
  {
    var longer := run + [e];
    forall k: nat | k <= |longer|
      ensures OpenBy(longer, k, m)
    {
      if k <= |run| {
        assert longer[..k] == run[..k];
        assert OpenBy(run, k, m);
      } else {
        assert longer[..k] == longer;
      }
    }
  }

  /** One more event keeps a run in order and its outcomes proper. */
  lemma OneMoreEvent(run: seq<Event>, e: Event, m: nat)
    requires Monotone(run) && Proper(run) && AtMostOpen(run, m)
    requires forall i :: 0 <= i < |run| ==> run[i].now <= e.now
    requires e.Closed? ==> e.claim in Open(run)
    requires |Open(run + [e])| <= m
    ensures Monotone(run + [e]) && Proper(run + [e]) && AtMostOpen(run + [e], m)
  {
    ProperExtends(run, e);
    AtMostOpenExtends(run, e, m);
  }

  lemma AfterOf(run: seq<Event>, e: Event)
    ensures After(run + [e]) == Step(After(run), e)
  {
    assert (run + [e])[..|run|] == run;
  }

  lemma OpenOfGrant(run: seq<Event>, now: int)
    requires Claim(if After(run).Some? then After(run).value else NEW_TOKEN, now).1 == Granted
    ensures Open(run + [Claimed(now)]) == Open(run) + {|run|}
  {
    var longer := run + [Claimed(now)];
    assert longer[..|run|] == run;
    assert GrantedAt(longer, |run|);
  }

  lemma OpenOfClosing(run: seq<Event>, e: Event)
    requires e.Closed?
    ensures Open(run + [e]) == Open(run) - {e.claim}
  {
    assert (run + [e])[..|run|] == run;
  }

  lemma FailedOf(run: seq<Event>, e: Event, day: int)
    requires e.Closed? ==> e.claim < |run|
    ensures FailedOn(run + [e], day) == FailedOn(run, day) +
      if e.Closed? && e.ending != Succeeded && UtcDay(run[e.claim].now) == day then 1 else 0
  {
    assert (run + [e])[..|run|] == run;
  }

  lemma AddGrant(run: seq<Event>, st: Option<TokenState>, open: set<nat>, failed: nat, m: nat, before: int, now: int, st': TokenState)
    returns (longer: seq<Event>)
    requires Reaches(run, st, open, failed, m, before) && before <= now && UtcDay(now) == 0 && |open| < m
    requires Claim(if st.Some? then st.value else NEW_TOKEN, now) == (st', Granted)
    ensures |longer| == |run| + 1 && |run| !in open && Reaches(longer, Some(st'), open + {|run|}, failed, m, now)
  {
    var e := Claimed(now);
    OpenIsPast(run);
    assert |open + {|run|}| <= m;
    AfterOf(run, e);
    OpenOfGrant(run, now);
    FailedOf(run, e, 0);
    OneMoreEvent(run, e, m);
    TodayOneMore(run, e, before);
    longer := run + [e];
  }

  lemma AddFailure(run: seq<Event>, st: TokenState, open: set<nat>, failed: nat, m: nat, before: int, now: int, claim: nat)
    returns (longer: seq<Event>)
    requires Reaches(run, Some(st), open, failed, m, before) && before <= now && UtcDay(now) == 0 && claim in open
    ensures |longer| == |run| + 1 && Reaches(longer, Some(Close(st, now, Failed)), open - {claim}, failed + 1, m, now)
  {
    var e := Closed(now, Failed, claim);
    OpenIsPast(run);
    AfterOf(run, e);
    OpenOfClosing(run, e);
    FailedOf(run, e, 0);
    assert OpenBy(run, |run|, m) && run[..|run|] == run;
    OneMoreEvent(run, e, m);
    TodayOneMore(run, e, before);
    longer := run + [e];
  }

  /** When the f-th wait, each doubled, is over. */
  function Paced(f: nat): int {
    (Pow2(f + 1) - 2) * MINUTE
  }

  /** The token after requests one after the other, each claimed as soon as it may be and failing at once. */
  function SpentState(f: nat): Option<TokenState> {
    if f == 0 then None else Some(Failing(Paced(f - 1), f))
  }

  lemma PacedClaim(f: nat)
    requires 0 < f <= 5
    ensures 0 <= (if f == 1 then 0 else Paced(f - 2)) <= Paced(f - 1) < DAY && UtcDay(Paced(f - 1)) == 0
    ensures var st := SpentState(f - 1);
      Claim(if st.Some? then st.value else NEW_TOKEN, Paced(f - 1))
        == (TokenState(Some(Paced(f - 1)), f - 1, Some(0), f - 1, None), Granted)
  {
    Pow2Values();
  }

  lemma OneFailure(run: seq<Event>, st: Option<TokenState>, failed: nat, m: nat, before: int, now: int, st': TokenState)
    returns (longer: seq<Event>)
    requires Reaches(run, st, {}, failed, m, before) && before <= now && UtcDay(now) == 0 && 0 < m
    requires Claim(if st.Some? then st.value else NEW_TOKEN, now) == (st', Granted)
    ensures |longer| == |run| + 2 && Reaches(longer, Some(Close(st', now, Failed)), {}, failed + 1, m, now)
  {
    var claimed := AddGrant(run, st, {}, failed, m, before, now, st');
    assert {} + {|run|} == {|run|};
    longer := AddFailure(claimed, st', {|run|}, failed, m, now, now, |run|);
    assert {|run|} - {|run|} == {};
  }

  lemma NothingYet(m: nat)
    ensures Reaches([], None, {}, 0, m, 0)
  {
    var none: seq<Event> := [];
    assert forall k: nat :: k <= |none| ==> OpenBy(none, k, m);
  }

  lemma {:induction false} SpendBudget(f: nat, m: nat) returns (run: seq<Event>)
    requires f <= 5 && m > 0
    ensures |run| == 2 * f && Reaches(run, SpentState(f), {}, f, m, if f == 0 then 0 else Paced(f - 1))
  {
    if f == 0 {
      run := [];
      NothingYet(m);
    } else {
      var before := SpendBudget(f - 1, m);
      PacedClaim(f);
      var now, st := Paced(f - 1), TokenState(Some(Paced(f - 1)), f - 1, Some(0), f - 1, None);
      assert Some(Close(st, now, Failed)) == SpentState(f);
      run := OneFailure(before, SpentState(f - 1), f - 1, m, if f == 1 then 0 else Paced(f - 2), now, st);
    }
  }

  function RushAt(j: nat): int {
    (30 + 32 * j) * MINUTE
  }

  lemma RushClaim(j: nat)
    requires 0 < j <= 44
    ensures RushAt(j - 1) <= RushAt(j) && UtcDay(RushAt(j)) == 0
    ensures Claim(Failing(RushAt(j - 1), 5), RushAt(j)) == (Failing(RushAt(j), 5), Granted)
  {
    Pow2Values();
    assert 0 <= RushAt(j) < DAY;
  }

  /** After five failures, claims as close as the wait allows, none of them closed. */
  lemma {:induction false} Rush(j: nat, m: nat) returns (run: seq<Event>, open: set<nat>)
    requires j <= m && 0 < m <= 44
    ensures |open| == j && Reaches(run, Some(Failing(RushAt(j), 5)), open, 5, m, RushAt(j))
  {
    if j == 0 {
      run := SpendBudget(5, m);
      open := {};
      Pow2Values();
    } else {
      var before, rest := Rush(j - 1, m);
      RushClaim(j);
      run := AddGrant(before, Some(Failing(RushAt(j - 1), 5)), rest, 5, m, RushAt(j - 1), RushAt(j), Failing(RushAt(j), 5));
      open := rest + {|before|};
    }
  }

  function Failing(now: int, failures: nat): TokenState {
    TokenState(Some(now), failures, Some(0), failures, None)
  }

  lemma OneOpenFails(before: seq<Event>, now: int, m: nat, failures: nat, open: set<nat>, claim: nat) returns (run: seq<Event>)
    requires UtcDay(now) == 0 && claim in open && Reaches(before, Some(Failing(now, failures)), open, failures, m, now)
    ensures Reaches(run, Some(Failing(now, failures + 1)), open - {claim}, failures + 1, m, now)
  {
    assert Close(Failing(now, failures), now, Failed) == Failing(now, failures + 1);
    run := AddFailure(before, Failing(now, failures), open, failures, m, now, now, claim);
  }

  /** Then they fail, one after the other. */
  lemma {:induction false} Collapse(before: seq<Event>, now: int, m: nat, failures: nat, open: set<nat>) returns (run: seq<Event>)
    requires UtcDay(now) == 0 && Reaches(before, Some(Failing(now, failures)), open, failures, m, now)
    ensures Monotone(run) && Proper(run) && AtMostOpen(run, m) && FailedOn(run, 0) == failures + |open|
    decreases |open|
  {
    if open == {} {
      run := before;
    } else {
      var claim :| claim in open;
      var next := OneOpenFails(before, now, m, failures, open, claim);
      run := Collapse(next, now, m, failures + 1, open - {claim});
    }
  }

  lemma RushIsToday(j: nat)
    requires j <= 44
    ensures UtcDay(RushAt(j)) == 0
  {
    assert 0 <= RushAt(j) < DAY;
  }

  /** The bound is sharp: with m in flight together, five and m more fail on one day, for as many as the waits
      leave room for. */
  lemma OverlappingClaimsEscapeTheBudget(m: nat) returns (run: seq<Event>)
    requires 0 < m <= 44
    ensures Monotone(run) && Proper(run) && AtMostOpen(run, m) && FailedOn(run, 0) == 5 + m
  {
    var rush, open := Rush(m, m);
    RushIsToday(m);
    run := Collapse(rush, RushAt(m), m, 5, open);
  }

  /** At most six failures a day, whatever the run, exactly when no two requests are ever in flight together. */
  lemma BudgetHoldsIffOneAtATime(m: nat)
    ensures (forall run, day :: Monotone(run) && Proper(run) && AtMostOpen(run, m) ==> FailedOn(run, day) <= 6) <==> m <= 1
  {
    if m <= 1 {
      forall run, day | Monotone(run) && Proper(run) && AtMostOpen(run, m)
        ensures FailedOn(run, day) <= 6
      {
        FailuresAreBounded(run, day, m);
      }
    } else {
      var run := OverlappingClaimsEscapeTheBudget(2);
      forall k: nat | k <= |run|
        ensures OpenBy(run, k, m)
      {
        assert OpenBy(run, k, 2);
      }
      assert AtMostOpen(run, m) && FailedOn(run, 0) > DAILY_FAILURES;
    }
  }

  // ---------------------------------------------------------------- refusals and reopening

  /** Why no claim before `retryAt` can be granted, seen at instant `now`. */
  ghost predicate Blocked(st: TokenState, now: int, retryAt: int) {
    || st.lockedUntil == Some(retryAt)
    || (st.budgetSpent >= DAILY_FAILURES && st.budgetDay == Some(UtcDay(now)) && retryAt == NextUtcDay(now))
    || (st.lastReq.Some? && retryAt == st.lastReq.value + Wait(st.failures))
  }

  lemma BlockedClaimIsDenied(st: TokenState, earlier: int, now: int, retryAt: int)
    requires Blocked(st, earlier, retryAt) && earlier <= now < retryAt
    ensures Claim(st, now).1.Denied? && Blocked(Claim(st, now).0, now, retryAt)
  {
  }

  lemma RefusalBlocks(st: TokenState, now: int)
    requires Claim(st, now).1.Denied?
    ensures Blocked(Claim(st, now).0, now, Claim(st, now).1.retryAt)
  {
  }

  lemma ClaimLeaves(run: seq<Event>, k: nat)
    requires k < |run| && run[k].Claimed?
    ensures StateBefore(run, k + 1) == Claim(StateBefore(run, k), run[k].now).0
  {
    Unroll(run, k);
  }

  /** With no outcome in between, no claim before a refusal's retryAt is granted. */
  lemma {:induction false} RefusalIsHonoured(run: seq<Event>, i: nat, j: nat)
    requires Monotone(run) && i < j < |run|
    requires forall k :: i <= k <= j ==> run[k].Claimed?
    requires Claim(StateBefore(run, i), run[i].now).1.Denied?
    requires run[j].now < Claim(StateBefore(run, i), run[i].now).1.retryAt
    ensures !GrantedAt(run, j)
    ensures Blocked(StateBefore(run, j), run[j - 1].now, Claim(StateBefore(run, i), run[i].now).1.retryAt)
    decreases j
  {
    var retryAt := Claim(StateBefore(run, i), run[i].now).1.retryAt;
    ClaimLeaves(run, j - 1);
    if j > i + 1 {
      RefusalIsHonoured(run, i, j - 1);
      BlockedClaimIsDenied(StateBefore(run, j - 1), run[j - 2].now, run[j - 1].now, retryAt);
    } else {
      RefusalBlocks(StateBefore(run, i), run[i].now);
    }
    BlockedClaimIsDenied(StateBefore(run, j), run[j - 1].now, run[j].now, retryAt);
  }

  /** Whatever happened to the token, a claim on a later UTC day and 128 minutes after its last request is
      granted: no lock, budget or backoff outlives that. */
  lemma TokenReopens(run: seq<Event>, now: int)
    requires Monotone(run) && run != []
    requires now >= NextUtcDay(run[|run| - 1].now)
    requires var last := StateBefore(run, |run|).lastReq; last.Some? ==> now >= last.value + 128 * MINUTE
    ensures Claim(StateBefore(run, |run|), now).1 == Granted
  {
    var n := |run|;
    LastRequestIsPast(run, n);
    LockIsNear(run, n);
    BudgetDayIsPast(run, n);
    DaysAdvance(run[n - 1].now, now);
    WaitBounds(StateBefore(run, n).failures);
  }

  lemma BudgetDayMoves(st: Option<TokenState>, e: Event)
    ensures var st' := Step(st, e);
      && (st'.Some? ==> st.Some? || e.Claimed?)
      && (st'.Some? ==> st'.value.budgetDay == Some(UtcDay(e.now)) || (st.Some? && st'.value.budgetDay == st.value.budgetDay))
  {
  }

  lemma {:induction false} BudgetDayIsPast(run: seq<Event>, k: nat)
    requires Monotone(run) && k <= |run|
    ensures var st := StateBefore(run, k);
      st.budgetDay.Some? ==> k > 0 && st.budgetDay.value <= UtcDay(run[k - 1].now)
    ensures After(run[..k]).Some? ==> StateBefore(run, k).budgetDay.Some?
  {
    if k > 0 {
      BudgetDayIsPast(run, k - 1);
      Unroll(run, k - 1);
      BudgetDayMoves(After(run[..k - 1]), run[k - 1]);
      if k > 1 {
        DaysAdvance(run[k - 2].now, run[k - 1].now);
      }
    }
  }
}
