/** cTrader ledger entries: which of them are capital, and what a demo reset is really worth. */
module CTraderLedger {
  import opened Decimals
  import opened Wrappers

  const MS_PER_DAY: int := 86_400_000
  const OP_DEPOSIT: int := 0
  const RESET_PRIOR_FLOOR: real := 1.0

  /** A ledger entry; `balance` is the account balance after it, `delta` its change, both in minor units. */
  datatype Entry = Entry(op: int, balance: int, delta: int, timestamp: int, moneyDigits: int)

  /** A balance sample: the account held `bal` from `t` on. */
  datatype Point = Point(t: int, bal: real)

  function Day(t: int): int {
    t / MS_PER_DAY
  }

  function MoneyDivisor(digits: int): (r: real)
    ensures r > 0.0
  {
    if digits > 0 then Pow10(digits) as real else 100.0
  }

  function BalanceAfter(e: Entry): real {
    e.balance as real / MoneyDivisor(e.moneyDigits)
  }

  function Change(e: Entry): real {
    e.delta as real / MoneyDivisor(e.moneyDigits)
  }

  const CAPITAL_IN: set<int> := {0, 3, 5, 7, 8, 11, 27, 29, 31, 33, 36, 38}
  const CAPITAL_OUT: set<int> := {1, 6, 13, 14, 30, 32, 37}

  function Abs(x: real): real {
    if x < 0.0 then -x else x
  }

  /** What an entry moves in or out of the account, by its type; `None` when it is no capital or no change. */
  function CashflowAmount(e: Entry): Option<real> {
    if (e.op !in CAPITAL_IN && e.op !in CAPITAL_OUT) || Change(e) == 0.0 then None
    else if e.op in CAPITAL_IN then Some(Abs(Change(e))) else Some(-Abs(Change(e)))
  }

  function LedgerBefore(e: Entry): real {
    BalanceAfter(e) - Change(e)
  }

  /** The recognised amount of an entry, a zero-then-fund reset taken net of the balance it discarded. */
  function ResetAwareAmount(e: Entry, running: real): Option<real> {
    var amount := CashflowAmount(e);
    if amount.None? then None
    else if e.op != OP_DEPOSIT || running <= RESET_PRIOR_FLOOR then amount
    else if LedgerBefore(e) < 0.5 * running then Some(BalanceAfter(e) - running)
    else amount
  }

  lemma DayIs(t: int)
    ensures Day(t) * 86_400_000 <= t < (Day(t) + 1) * 86_400_000
  {
  }

  /** A tenth of a unit, then a tenth of that for every further digit; hundredths when no digits are given. */
  lemma {:induction false} MoneyDivisorIs(digits: int)
    ensures digits <= 0 ==> MoneyDivisor(digits) == 100.0
    ensures digits == 1 ==> MoneyDivisor(digits) == 10.0
    ensures digits > 1 ==> MoneyDivisor(digits) == 10.0 * MoneyDivisor(digits - 1)
  {
    assert Pow10(1) == 10;
  }

  /** Which way capital moves under a type of entry: 1 in, -1 out, 0 for a result of trading. */
  ghost function Direction(op: int): int {
    match op
    case 0 => 1    case 1 => -1   // deposit and withdrawal
    case 3 => 1    case 11 => 1   // strategy commissions received
    case 5 => 1    case 7 => 1    case 8 => 1    // an introducing broker's commissions received
    case 6 => -1   case 13 => -1  case 14 => -1  // and shared
    case 27 => 1   case 29 => 1   // management and performance fees received
    case 30 => -1  case 31 => 1   case 32 => -1  case 33 => 1  // to and from a subaccount
    case 36 => 1   case 37 => -1  // transfers on the same server
    case 38 => 1   // a bonus converted
    case _ => 0
  }

  lemma Scaled(x: real, div: real)
    requires div > 0.0
    ensures (x / div) * div == x
  {
  }

  lemma DirectionIs(op: int)
    ensures Direction(op) == if op in CAPITAL_IN then 1 else if op in CAPITAL_OUT then -1 else 0
  {
  }

  lemma AmountByDirection(e: Entry)
    ensures CashflowAmount(e) == if Direction(e.op) == 0 || Change(e) == 0.0 then None
      else if Direction(e.op) == 1 then Some(Abs(Change(e))) else Some(-Abs(Change(e)))
  {
    DirectionIs(e.op);
  }

  lemma SignedSize(x: real, div: real, minor: real)
    requires div > 0.0 && x * div == minor
    ensures x == 0.0 <==> minor == 0.0
    ensures Abs(x) * div == Abs(minor) && -Abs(x) * div == -Abs(minor)
  {
    if x < 0.0 {
      assert -x * div == -minor;
      assert x * div < 0.0;
    } else if x > 0.0 {
      assert x * div > 0.0;
    }
  }

  /** An amount is the size of the change, signed by the type alone; there is none for a result of trading or
      without a change. In minor units. */
  lemma AmountIsDirected(e: Entry)
    ensures CashflowAmount(e).Some? <==> Direction(e.op) != 0 && e.delta != 0
    ensures CashflowAmount(e).Some? ==>
      var minor := CashflowAmount(e).value * MoneyDivisor(e.moneyDigits);
      (minor == e.delta as real || minor == -(e.delta as real)) && (minor > 0.0 <==> Direction(e.op) == 1)
  {
    var div, change := MoneyDivisor(e.moneyDigits), Change(e);
    Scaled(e.delta as real, div);
    SignedSize(change, div, e.delta as real);
    AmountByDirection(e);
  }

  /** More than twice what the ledger puts before the entry is believed in; in minor units. */
  ghost predicate MuchMoreBelieved(e: Entry, running: real) {
    2.0 * (e.balance - e.delta) as real < running * MoneyDivisor(e.moneyDigits)
  }

  lemma LessThanHalf(before: real, running: real, div: real)
    requires div > 0.0
    ensures before < 0.5 * running <==> 2.0 * (before * div) < running * div
  {
    var d := running - 2.0 * before;
    assert d * div == running * div - 2.0 * (before * div);
    assert d > 0.0 <==> d * div > 0.0;
  }

  lemma Difference(x: real, y: real, div: real)
    ensures (x - y) * div == x * div - y * div
  {
  }

  lemma MuchMoreBelievedIff(e: Entry, running: real)
    ensures MuchMoreBelieved(e, running) <==> LedgerBefore(e) < 0.5 * running
  {
    var div := MoneyDivisor(e.moneyDigits);
    Scaled(e.balance as real, div);
    Scaled(e.delta as real, div);
    Difference(BalanceAfter(e), Change(e), div);
    assert LedgerBefore(e) * div == (e.balance - e.delta) as real;
    LessThanHalf(LedgerBefore(e), running, div);
  }

  /** A deposit counts net of the balance believed in, exactly when that is above 1.0 and more than twice what the
      ledger puts before the deposit; every other amount stands. */
  lemma DepositIsNetIff(e: Entry, running: real)
    ensures var div, amount := MoneyDivisor(e.moneyDigits), ResetAwareAmount(e, running);
      if e.op == 0 && e.delta != 0 && running > 1.0 && MuchMoreBelieved(e, running)
      then amount.Some? && amount.value * div == e.balance as real - running * div
      else amount == CashflowAmount(e)
  {
    var div := MoneyDivisor(e.moneyDigits);
    AmountIsDirected(e);
    MuchMoreBelievedIff(e, running);
    Scaled(e.balance as real, div);
    Difference(BalanceAfter(e), running, div);
  }

  // ---------------------------------------------------------------- walking the ledger

  /** The walk over deals and entries in time order: `running` is the balance the code believes in,
      `truth` the last balance reported, `di` the deals passed; `booked` sums the recognised amounts and
      `jumps` the changes of the reported balance at deals and at entries that are not capital. */
  datatype Walk = Walk(running: real, truth: real, di: nat, booked: real, jumps: real)

  const START := Walk(0.0, 0.0, 0, 0.0, 0.0)

  /** Passes the deals strictly before t. */
  function PassDeals(deals: seq<Point>, w: Walk, t: int): (w': Walk)
    requires w.di <= |deals|
    ensures w.di <= w'.di <= |deals|
    decreases |deals| - w.di
  {
    if w.di < |deals| && deals[w.di].t < t then
      var bal := deals[w.di].bal;
      PassDeals(deals, Walk(bal, bal, w.di + 1, w.booked, w.jumps + bal - w.truth), t)
    else w
  }

  function PassEntry(w: Walk, e: Entry): (w': Walk)
    ensures w'.di == w.di
  {
    var amount := ResetAwareAmount(e, w.running);
    var running := if e.balance != 0 then BalanceAfter(e) else w.running;
    if amount.Some? then Walk(running, BalanceAfter(e), w.di, w.booked + amount.value, w.jumps)
    else Walk(running, BalanceAfter(e), w.di, w.booked, w.jumps + BalanceAfter(e) - w.truth)
  }

  /** The walk when entry k is about to be read. */
  function Reaching(deals: seq<Point>, ledger: seq<Entry>, k: nat): (w: Walk)
    requires k < |ledger|
    ensures w.di <= |deals|
    decreases k, 1
  {
    PassDeals(deals, After(deals, ledger, k), ledger[k].timestamp)
  }

  /** The walk after the first k entries. */
  function After(deals: seq<Point>, ledger: seq<Entry>, k: nat): (w: Walk)
    requires k <= |ledger|
    ensures w.di <= |deals|
    decreases k, 0
  {
    if k == 0 then START else PassEntry(Reaching(deals, ledger, k - 1), ledger[k - 1])
  }

  /** What the code books for entry k, 0 when it is not a cash flow. */
  function Booked(deals: seq<Point>, ledger: seq<Entry>, k: nat): real
    requires k < |ledger|
  {
    var amount := ResetAwareAmount(ledger[k], Reaching(deals, ledger, k).running);
    if amount.Some? then amount.value else 0.0
  }

  ghost predicate InTimeOrder(deals: seq<Point>, ledger: seq<Entry>) {
    && (forall i, j :: 0 <= i < j < |deals| ==> deals[i].t <= deals[j].t)
    && (forall i, j :: 0 <= i < j < |ledger| ==> ledger[i].timestamp <= ledger[j].timestamp)
  }

  lemma {:induction false} PassDealsUpTo(deals: seq<Point>, w: Walk, t: int)
    requires w.di <= |deals|
    ensures var w' := PassDeals(deals, w, t);
      && (forall i :: w.di <= i < w'.di ==> deals[i].t < t)
      && (w'.di < |deals| ==> deals[w'.di].t >= t)
      && (if w'.di == w.di then w' == w else w'.running == deals[w'.di - 1].bal)
    decreases |deals| - w.di
  {
    if w.di < |deals| && deals[w.di].t < t {
      var bal := deals[w.di].bal;
      PassDealsUpTo(deals, Walk(bal, bal, w.di + 1, w.booked, w.jumps + bal - w.truth), t);
    }
  }

  /** In time order, an entry is read once the deals strictly before it, and no other, have been passed. */
  lemma {:induction false} DealIsPassedIff(deals: seq<Point>, ledger: seq<Entry>, k: nat, i: nat)
    requires k < |ledger| && i < |deals| && InTimeOrder(deals, ledger)
    ensures i < Reaching(deals, ledger, k).di <==> deals[i].t < ledger[k].timestamp
  {
    PassDealsUpTo(deals, After(deals, ledger, k), ledger[k].timestamp);
    if k > 0 {
      DealIsPassedIff(deals, ledger, k - 1, i);
    }
  }

  /** The balance believed in is that of the last deal passed since the entry before, else what that entry
      reports, unless that is zero. */
  lemma BelievedIsTheLatest(deals: seq<Point>, ledger: seq<Entry>, k: nat)
    requires 0 < k < |ledger|
    ensures var w, was, e := Reaching(deals, ledger, k), Reaching(deals, ledger, k - 1), ledger[k - 1];
      if w.di > was.di then w.running == deals[w.di - 1].bal
      else if e.balance != 0 then w.running == e.balance as real / MoneyDivisor(e.moneyDigits)
      else w.running == was.running
  {
    PassDealsUpTo(deals, PassEntry(Reaching(deals, ledger, k - 1), ledger[k - 1]), ledger[k].timestamp);
  }

  // ---------------------------------------------------------------- the accounting identity

  /** The change is signed the way the entry's type says. */
  ghost predicate SignedAsTyped(e: Entry) {
    (e.op in CAPITAL_IN ==> e.delta >= 0) && (e.op in CAPITAL_OUT ==> e.delta <= 0)
  }

  /** The ledger's own balance before the entry is the given one. */
  ghost predicate Consistent(e: Entry, prior: real) {
    BalanceAfter(e) == prior + Change(e)
  }

  /** A demo reset: the ledger claims an empty account and funds it anew. */
  ghost predicate ZeroThenFund(e: Entry) {
    e.op == OP_DEPOSIT && e.delta == e.balance && e.delta > 0
  }

  /** Balances are never negative. */
  ghost predicate Solvent(deals: seq<Point>, ledger: seq<Entry>) {
    (forall p :: p in deals ==> p.bal >= 0.0) && (forall e :: e in ledger ==> e.balance >= 0)
  }

  /** Each capital entry continues the reported balance, or is a reset. */
  ghost predicate Readable(deals: seq<Point>, ledger: seq<Entry>) {
    forall k: nat :: k < |ledger| ==> ReadableEntry(Reaching(deals, ledger, k), ledger[k])
  }

  ghost predicate ReadableEntry(w: Walk, e: Entry) {
    CashflowAmount(e).Some? ==> SignedAsTyped(e) && (Consistent(e, w.truth) || ZeroThenFund(e))
  }

  /** A reset that discards a balance. */
  ghost predicate Discards(w: Walk, e: Entry) {
    ZeroThenFund(e) && !Consistent(e, w.truth)
  }

  /** A deposit into an account that an entry emptied while more than the floor is still believed in it. */
  predicate Misread(w: Walk, e: Entry) {
    e.op == OP_DEPOSIT && CashflowAmount(e).Some? && w.truth == 0.0 && w.running > RESET_PRIOR_FLOOR
  }

  ghost function Resets(deals: seq<Point>, ledger: seq<Entry>, k: nat): nat
    requires k <= |ledger|
  {
    if k == 0 then 0
    else Resets(deals, ledger, k - 1) + if Discards(Reaching(deals, ledger, k - 1), ledger[k - 1]) then 1 else 0
  }

  /** A reset of a balance too small to be taken off: it is booked on top. */
  ghost predicate Keeps(w: Walk, e: Entry) {
    Discards(w, e) && w.running <= RESET_PRIOR_FLOOR
  }

  /** What such resets leave in the flows: the balance reported before each. */
  ghost function Kept(deals: seq<Point>, ledger: seq<Entry>, k: nat): real
    requires k <= |ledger|
  {
    if k == 0 then 0.0
    else
      var w := Reaching(deals, ledger, k - 1);
      Kept(deals, ledger, k - 1) + if Keeps(w, ledger[k - 1]) then w.truth else 0.0
  }

  /** What misread deposits take from the flows: the balance still believed in at each. */
  function Lost(deals: seq<Point>, ledger: seq<Entry>, k: nat): real
    requires k <= |ledger|
  {
    if k == 0 then 0.0
    else
      var w := Reaching(deals, ledger, k - 1);
      Lost(deals, ledger, k - 1) + if Misread(w, ledger[k - 1]) then w.running else 0.0
  }

  /** A capital entry's amount is its change, when the sign agrees with the type. */
  lemma AmountIsChange(e: Entry)
    requires CashflowAmount(e).Some? && SignedAsTyped(e)
    ensures CashflowAmount(e) == Some(Change(e))
  {
  }

  lemma ZeroThenFundFacts(e: Entry)
    requires ZeroThenFund(e)
    ensures CashflowAmount(e) == Some(BalanceAfter(e)) && LedgerBefore(e) == 0.0
  {
    assert e.op in CAPITAL_IN;
  }

  /** Passing deals moves the balance by exactly the jumps it records. */
  lemma {:induction false} DealsAreJumps(deals: seq<Point>, w: Walk, t: int)
    requires w.di <= |deals|
    ensures var w' := PassDeals(deals, w, t);
      && w'.jumps - w'.truth == w.jumps - w.truth && w'.booked == w.booked
      && ((forall p :: p in deals ==> p.bal >= 0.0) && w.truth >= 0.0 ==> w'.truth >= 0.0)
      && (w.running == w.truth ==> w'.running == w'.truth)
      && (w'.di > w.di ==> w'.running == w'.truth)
      && (w'.di == w.di ==> w' == w)
    decreases |deals| - w.di
  {
    if w.di < |deals| && deals[w.di].t < t {
      var bal := deals[w.di].bal;
      DealsAreJumps(deals, Walk(bal, bal, w.di + 1, w.booked, w.jumps + bal - w.truth), t);
    }
  }

  /** The balance believed in is the balance reported, or the account was last reported empty by an entry. */
  lemma {:induction false} RunningIsTruthUnlessEmpty(deals: seq<Point>, ledger: seq<Entry>, k: nat)
    requires k < |ledger|
    ensures var w := Reaching(deals, ledger, k); w.running == w.truth || w.truth == 0.0
  {
    DealsAreJumps(deals, After(deals, ledger, k), ledger[k].timestamp);
    if k > 0 {
      RunningIsTruthUnlessEmpty(deals, ledger, k - 1);
    }
  }

  /** What is accounted for beyond the reported balance. */
  function Gap(w: Walk): real {
    w.booked + w.jumps - w.truth
  }

  /** One entry leaves it as it is; or adds a small balance that a reset discards; or, at a misread deposit,
      takes off what was believed in. */
  lemma EntrySlack(w: Walk, e: Entry)
    requires w.truth >= 0.0 && (w.running == w.truth || w.truth == 0.0) && ReadableEntry(w, e)
    ensures Gap(PassEntry(w, e)) - Gap(w) == (if Keeps(w, e) then w.truth else 0.0) - (if Misread(w, e) then w.running else 0.0)
    ensures Keeps(w, e) ==> w.truth <= RESET_PRIOR_FLOOR && !Misread(w, e)
  {
    if CashflowAmount(e).Some? {
      AmountIsChange(e);
      if ZeroThenFund(e) {
        ZeroThenFundFacts(e);
      }
    } else if ZeroThenFund(e) {
      ZeroThenFundFacts(e);
    }
  }

  /** The walk before an entry: never below zero, and its gap still that of the walk before the deals. */
  lemma ReachingKeepsGap(deals: seq<Point>, ledger: seq<Entry>, k: nat)
    requires k < |ledger| && Solvent(deals, ledger) && After(deals, ledger, k).truth >= 0.0
    ensures var w := Reaching(deals, ledger, k);
      w.truth >= 0.0 && Gap(w) == Gap(After(deals, ledger, k)) && (w.running == w.truth || w.truth == 0.0)
  {
    DealsAreJumps(deals, After(deals, ledger, k), ledger[k].timestamp);
    RunningIsTruthUnlessEmpty(deals, ledger, k);
  }

  lemma EntryKeepsSolvent(w: Walk, e: Entry)
    requires e.balance >= 0
    ensures PassEntry(w, e).truth >= 0.0
  {
  }

  /** Over every ledger of a solvent account, flows booked plus the jumps of deals and of entries that are not
      capital are the reported balance, plus what small resets keep, less what misread deposits lose. */
  lemma {:induction false} ResetAwareIdentity(deals: seq<Point>, ledger: seq<Entry>, k: nat)
    requires Solvent(deals, ledger) && Readable(deals, ledger) && k <= |ledger|
    ensures After(deals, ledger, k).truth >= 0.0
    ensures Gap(After(deals, ledger, k)) == Kept(deals, ledger, k) - Lost(deals, ledger, k)
  {
    if k > 0 {
      var w, e := Reaching(deals, ledger, k - 1), ledger[k - 1];
      ResetAwareIdentity(deals, ledger, k - 1);
      ReachingKeepsGap(deals, ledger, k - 1);
      assert e in ledger && ReadableEntry(w, e);
      EntrySlack(w, e);
      EntryKeepsSolvent(w, e);
    }
  }

  /** Each reset keeps at most the floor. */
  lemma {:induction false} KeptIsSmall(deals: seq<Point>, ledger: seq<Entry>, k: nat)
    requires Solvent(deals, ledger) && Readable(deals, ledger) && k <= |ledger|
    ensures 0.0 <= Kept(deals, ledger, k) <= Resets(deals, ledger, k) as real
  {
    if k > 0 {
      var w, e := Reaching(deals, ledger, k - 1), ledger[k - 1];
      KeptIsSmall(deals, ledger, k - 1);
      ResetAwareIdentity(deals, ledger, k - 1);
      ReachingKeepsGap(deals, ledger, k - 1);
      assert e in ledger && ReadableEntry(w, e);
      EntrySlack(w, e);
    }
  }

  ghost predicate NoneMisread(deals: seq<Point>, ledger: seq<Entry>, k: nat)
    requires k <= |ledger|
  {
    forall j: nat :: j < k ==> !Misread(Reaching(deals, ledger, j), ledger[j])
  }

  lemma {:induction false} LostIffMisread(deals: seq<Point>, ledger: seq<Entry>, k: nat)
    requires k <= |ledger|
    ensures if NoneMisread(deals, ledger, k) then Lost(deals, ledger, k) == 0.0 else Lost(deals, ledger, k) > RESET_PRIOR_FLOOR
  {
    if k > 0 {
      LostIffMisread(deals, ledger, k - 1);
    }
  }

  /** The flows and jumps reach the reported balance, within 1.0 per reset, exactly when misread deposits lose
      no more than small resets keep: always when none is misread, and without resets only then. */
  lemma IdentityHoldsIff(deals: seq<Point>, ledger: seq<Entry>, k: nat)
    requires Solvent(deals, ledger) && Readable(deals, ledger) && k <= |ledger|
    ensures var w, resets := After(deals, ledger, k), Resets(deals, ledger, k);
      && (w.truth <= w.booked + w.jumps <= w.truth + resets as real <==> Lost(deals, ledger, k) <= Kept(deals, ledger, k))
      && (NoneMisread(deals, ledger, k) ==> Lost(deals, ledger, k) <= Kept(deals, ledger, k))
      && (resets == 0 ==> (Lost(deals, ledger, k) <= Kept(deals, ledger, k) <==> NoneMisread(deals, ledger, k)))
  {
    ResetAwareIdentity(deals, ledger, k);
    KeptIsSmall(deals, ledger, k);
    LostIffMisread(deals, ledger, k);
  }

  /** Entries that never leave a balance of zero are never followed by a misread deposit. */
  lemma {:induction false} PositiveBalancesAreNotMisread(deals: seq<Point>, ledger: seq<Entry>, k: nat)
    requires k <= |ledger| && forall e :: e in ledger ==> e.balance > 0
    ensures After(deals, ledger, k).running == After(deals, ledger, k).truth && NoneMisread(deals, ledger, k)
  {
    if k > 0 {
      PositiveBalancesAreNotMisread(deals, ledger, k - 1);
      DealsAreJumps(deals, After(deals, ledger, k - 1), ledger[k - 1].timestamp);
      assert ledger[k - 1] in ledger;
    }
  }

  lemma PositiveBalancesReachTheBalance(deals: seq<Point>, ledger: seq<Entry>, k: nat)
    requires Solvent(deals, ledger) && Readable(deals, ledger) && k <= |ledger| && forall e :: e in ledger ==> e.balance > 0
    ensures var w := After(deals, ledger, k);
      w.truth <= w.booked + w.jumps <= w.truth + Resets(deals, ledger, k) as real
  {
    PositiveBalancesAreNotMisread(deals, ledger, k);
    IdentityHoldsIff(deals, ledger, k);
  }

  /** A wiped account: withdrawn to exactly zero, then funded again. */
  const WIPED := [Entry(0, 100000, 100000, 0, 2), Entry(1, 0, -100000, 1, 2), Entry(0, 50000, 50000, 2, 2)]

  lemma WipedStep(k: nat)
    requires k < 3
    ensures Reaching([], WIPED, k) == After([], WIPED, k)
    ensures After([], WIPED, k + 1) == PassEntry(After([], WIPED, k), WIPED[k])
  {
  }

  lemma Cents(e: Entry)
    requires e.moneyDigits == 2
    ensures BalanceAfter(e) == e.balance as real / 100.0 && Change(e) == e.delta as real / 100.0
  {
    assert Pow10(1) == 10;
    assert Pow10(2) == 100;
  }

  /** The deposit of 500 is taken for a reset of the 1000 the code still believes in, and books a withdrawal
      of 500. */
  lemma ZeroBalanceBreaksTheIdentity()
    ensures var w := After([], WIPED, 3);
      && (forall k :: 0 <= k < 3 ==> Consistent(WIPED[k], Reaching([], WIPED, k).truth))
      && Booked([], WIPED, 2) == -500.0 && w.booked == -500.0 && w.jumps == 0.0 && w.truth == 500.0
  {
    WipedStep(0);
    Cents(WIPED[0]);
    assert After([], WIPED, 1) == Walk(1000.0, 1000.0, 0, 1000.0, 0.0);
    WipedStep(1);
    Cents(WIPED[1]);
    assert After([], WIPED, 2) == Walk(1000.0, 0.0, 0, 0.0, 0.0);
    WipedStep(2);
    Cents(WIPED[2]);
    assert After([], WIPED, 3) == Walk(500.0, 500.0, 0, -500.0, 0.0);
  }

  /** A deposit that continues the reported balance is booked at its own amount, never taken for a reset,
      exactly when it does not meet an account an entry emptied while more than 1.0 was believed in it. */
  lemma ConsistentDepositIsBookedIff(deals: seq<Point>, ledger: seq<Entry>, k: nat)
    requires k < |ledger| && ledger[k].op == OP_DEPOSIT && ledger[k].delta > 0
    requires Consistent(ledger[k], Reaching(deals, ledger, k).truth)
    ensures var w := Reaching(deals, ledger, k);
      Booked(deals, ledger, k) == Change(ledger[k]) <==> !Misread(w, ledger[k])
  {
    RunningIsTruthUnlessEmpty(deals, ledger, k);
    assert ledger[k].op in CAPITAL_IN;
  }
}
