/** Binance cash flows against the perimeter of measured wallets. */
module WalletPerimeter {
  import opened Valuation

  datatype Wallet = Spot | UmFutures | CoinMFutures | CrossMargin | IsolatedMargin | SimpleEarn | Funding | Options | Mining

  /** A universal-transfer type moves value from one wallet to another. */
  datatype Route = Route(src: Wallet, dst: Wallet)

  type TransferTable = map<string, Route>

  const TRANSFER_WALLETS: TransferTable := map[
    "MAIN_UMFUTURE" := Route(Spot, UmFutures), "UMFUTURE_MAIN" := Route(UmFutures, Spot),
    "MAIN_CMFUTURE" := Route(Spot, CoinMFutures), "CMFUTURE_MAIN" := Route(CoinMFutures, Spot),
    "MAIN_MARGIN" := Route(Spot, CrossMargin), "MARGIN_MAIN" := Route(CrossMargin, Spot),
    "UMFUTURE_MARGIN" := Route(UmFutures, CrossMargin), "MARGIN_UMFUTURE" := Route(CrossMargin, UmFutures),
    "CMFUTURE_MARGIN" := Route(CoinMFutures, CrossMargin), "MARGIN_CMFUTURE" := Route(CrossMargin, CoinMFutures),
    "ISOLATEDMARGIN_MARGIN" := Route(IsolatedMargin, CrossMargin), "MARGIN_ISOLATEDMARGIN" := Route(CrossMargin, IsolatedMargin),
    "MAIN_ISOLATED_MARGIN" := Route(Spot, IsolatedMargin), "ISOLATED_MARGIN_MAIN" := Route(IsolatedMargin, Spot),
    "MAIN_FUNDING" := Route(Spot, Funding), "FUNDING_MAIN" := Route(Funding, Spot),
    "UMFUTURE_FUNDING" := Route(UmFutures, Funding), "FUNDING_UMFUTURE" := Route(Funding, UmFutures),
    "CMFUTURE_FUNDING" := Route(CoinMFutures, Funding), "FUNDING_CMFUTURE" := Route(Funding, CoinMFutures),
    "MARGIN_FUNDING" := Route(CrossMargin, Funding), "FUNDING_MARGIN" := Route(Funding, CrossMargin),
    "MAIN_OPTION" := Route(Spot, Options), "OPTION_MAIN" := Route(Options, Spot),
    "UMFUTURE_OPTION" := Route(UmFutures, Options), "OPTION_UMFUTURE" := Route(Options, UmFutures),
    "MARGIN_OPTION" := Route(CrossMargin, Options), "OPTION_MARGIN" := Route(Options, CrossMargin),
    "MAIN_MINING" := Route(Spot, Mining), "MINING_MAIN" := Route(Mining, Spot)
  ]

  const LIVE_WALLETS: set<Wallet> := {Spot, UmFutures, CoinMFutures, CrossMargin, IsolatedMargin}

  datatype Coverage = Coverage(wallet: Wallet, read: bool)

  /** What the last balance read opened; every live wallet when none has been read yet. */
  function MeasuredWallets(coverage: seq<Coverage>): set<Wallet> {
    if coverage == [] then LIVE_WALLETS else set c | c in coverage && c.read :: c.wallet
  }

  function OnChainWallet(walletType: int): Wallet {
    if walletType == 1 then Funding else Spot
  }

  function TransferSign(route: Route, measured: set<Wallet>): real {
    if route.dst in measured && route.src !in measured then 1.0
    else if route.src in measured && route.dst !in measured then -1.0
    else 0.0
  }

  /** What the venue lists, in the order it lists it: a withdrawal may carry no readable time, and a transfer may
      not be confirmed. */
  datatype Event =
    | Deposit(walletType: int, coin: string, amount: real)
    | Withdrawal(walletType: int, coin: string, amount: real, fee: real, timed: bool)
    | Transfer(kind: string, coin: string, amount: real, confirmed: bool)

  ghost predicate TableTransfers(history: seq<Event>, table: TransferTable) {
    forall e :: e in history && e.Transfer? ==> e.kind in table
  }

  // ---------------------------------------------------------------- the tables

  /** The measured wallets: those some balance read opened, or without one the five that trade. */
  lemma MeasuredIff(coverage: seq<Coverage>, w: Wallet)
    ensures coverage != [] ==> (w in MeasuredWallets(coverage) <==> exists i :: 0 <= i < |coverage| && coverage[i] == Coverage(w, true))
    ensures coverage == [] ==> (w in MeasuredWallets(coverage) <==> !w.SimpleEarn? && !w.Funding? && !w.Options? && !w.Mining?)
  {
    if coverage != [] && w in MeasuredWallets(coverage) {
      var c :| c in coverage && c.read && c.wallet == w;
      assert c == Coverage(w, true);
    }
  }

  /** On chain, type 1 is the funding wallet and every other type the spot wallet; a deposit adds its amount there
      and a withdrawal takes its amount and its fee, and no other wallet moves. */
  lemma OnChainMoves(walletType: int, coin: string, amount: real, fee: real, timed: bool, w: Wallet, table: TransferTable, p: Prices)
    requires p.stable(coin)
    ensures var here := if walletType == 1 then w.Funding? else w.Spot?;
      && WalletDelta(Deposit(walletType, coin, amount), w, table, p) == (if here then amount else 0.0)
      && WalletDelta(Withdrawal(walletType, coin, amount, fee, timed), w, table, p) == (if here then -amount - fee else 0.0)
  {
  }

  /** A confirmed transfer takes its amount from one wallet and adds it to the other; an unconfirmed one nothing. */
  lemma TransferMoves(kind: string, route: Route, coin: string, amount: real, confirmed: bool, w: Wallet, table: TransferTable, p: Prices)
    requires p.stable(coin) && kind in table && table[kind] == route && route.src != route.dst
    ensures WalletDelta(Transfer(kind, coin, amount, confirmed), w, table, p)
      == if !confirmed then 0.0 else if w == route.dst then amount else if w == route.src then -amount else 0.0
  {
  }

  /** Where the venue moves value in one transfer, either way. */
  ghost predicate Linked(v: Wallet, w: Wallet) {
    match v
    case Spot => w.UmFutures? || w.CoinMFutures? || w.CrossMargin? || w.IsolatedMargin? || w.Funding? || w.Options? || w.Mining?
    case UmFutures => w.CrossMargin? || w.Funding? || w.Options?
    case CoinMFutures => w.CrossMargin? || w.Funding?
    case CrossMargin => w.IsolatedMargin? || w.Funding? || w.Options?
    case _ => false
  }

  ghost predicate Leads(kind: string, v: Wallet, w: Wallet) {
    kind in TRANSFER_WALLETS && TRANSFER_WALLETS[kind] == Route(v, w)
  }

  // A type leads from the wallet its name begins with to the one it ends with.

  lemma SpotFuturesRoutes()
    ensures Leads("MAIN_UMFUTURE", Spot, UmFutures) && Leads("UMFUTURE_MAIN", UmFutures, Spot)
    ensures Leads("MAIN_CMFUTURE", Spot, CoinMFutures) && Leads("CMFUTURE_MAIN", CoinMFutures, Spot)
  {
  }

  lemma SpotMarginRoutes()
    ensures Leads("MAIN_MARGIN", Spot, CrossMargin) && Leads("MARGIN_MAIN", CrossMargin, Spot)
    ensures Leads("MAIN_ISOLATED_MARGIN", Spot, IsolatedMargin) && Leads("ISOLATED_MARGIN_MAIN", IsolatedMargin, Spot)
  {
  }

  lemma SpotOtherRoutes()
    ensures Leads("MAIN_FUNDING", Spot, Funding) && Leads("FUNDING_MAIN", Funding, Spot)
    ensures Leads("MAIN_OPTION", Spot, Options) && Leads("OPTION_MAIN", Options, Spot)
    ensures Leads("MAIN_MINING", Spot, Mining) && Leads("MINING_MAIN", Mining, Spot)
  {
  }

  lemma UmFuturesRoutes()
    ensures Leads("UMFUTURE_MARGIN", UmFutures, CrossMargin) && Leads("MARGIN_UMFUTURE", CrossMargin, UmFutures)
    ensures Leads("UMFUTURE_FUNDING", UmFutures, Funding) && Leads("FUNDING_UMFUTURE", Funding, UmFutures)
    ensures Leads("UMFUTURE_OPTION", UmFutures, Options) && Leads("OPTION_UMFUTURE", Options, UmFutures)
  {
  }

  lemma CoinMRoutes()
    ensures Leads("CMFUTURE_MARGIN", CoinMFutures, CrossMargin) && Leads("MARGIN_CMFUTURE", CrossMargin, CoinMFutures)
    ensures Leads("CMFUTURE_FUNDING", CoinMFutures, Funding) && Leads("FUNDING_CMFUTURE", Funding, CoinMFutures)
  {
  }

  lemma MarginRoutes()
    ensures Leads("MARGIN_ISOLATEDMARGIN", CrossMargin, IsolatedMargin) && Leads("ISOLATEDMARGIN_MARGIN", IsolatedMargin, CrossMargin)
    ensures Leads("MARGIN_FUNDING", CrossMargin, Funding) && Leads("FUNDING_MARGIN", Funding, CrossMargin)
    ensures Leads("MARGIN_OPTION", CrossMargin, Options) && Leads("OPTION_MARGIN", Options, CrossMargin)
  {
  }

  ghost predicate Served(v: Wallet, w: Wallet) {
    exists kind :: Leads(kind, v, w)
  }

  /** Every link has a type each way. */
  lemma LinksAreServed(v: Wallet, w: Wallet)
    requires Linked(v, w)
    ensures Served(v, w) && Served(w, v)
  {
    SpotFuturesRoutes();
    SpotMarginRoutes();
    SpotOtherRoutes();
    UmFuturesRoutes();
    CoinMRoutes();
    MarginRoutes();
  }

  /** And no type moves value anywhere else. */
  lemma OnlyLinksAreServed(route: Route)
    requires route in TRANSFER_WALLETS.Values
    ensures Linked(route.src, route.dst) || Linked(route.dst, route.src)
  {
  }

  // ---------------------------------------------------------------- what happened in the wallets

  /** What an event adds to the dollar value of one wallet. */
  function WalletDelta(e: Event, w: Wallet, table: TransferTable, p: Prices): real {
    match e
    case Deposit(wt, coin, amount) => if OnChainWallet(wt) == w then UsdValue(p, coin, amount) else 0.0
    case Withdrawal(wt, coin, amount, fee, _) => if OnChainWallet(wt) == w then -UsdValue(p, coin, amount + fee) else 0.0
    case Transfer(kind, coin, amount, confirmed) =>
      if kind !in table || !confirmed then 0.0
      else (if table[kind].dst == w then UsdValue(p, coin, amount) else 0.0) - (if table[kind].src == w then UsdValue(p, coin, amount) else 0.0)
  }

  /** How a wallet's dollar value changed over a history. */
  function WalletChange(history: seq<Event>, w: Wallet, table: TransferTable, p: Prices): real {
    if history == [] then 0.0
    else WalletChange(history[..|history| - 1], w, table, p) + WalletDelta(history[|history| - 1], w, table, p)
  }

  ghost function Pick(ws: set<Wallet>): (w: Wallet)
    requires ws != {}
    ensures w in ws
  {
    var w :| w in ws; w
  }

  ghost function Total(ws: set<Wallet>, value: Wallet -> real): real {
    if ws == {} then 0.0 else value(Pick(ws)) + Total(ws - {Pick(ws)}, value)
  }

  /** How the equity, the measured wallets together, changed over a history. */
  ghost function EquityChange(history: seq<Event>, measured: set<Wallet>, table: TransferTable, p: Prices): real {
    Total(measured, w => WalletChange(history, w, table, p))
  }

  lemma {:induction false} TotalOfPart(ws: set<Wallet>, value: Wallet -> real, w: Wallet)
    requires w in ws
    ensures Total(ws, value) == value(w) + Total(ws - {w}, value)
  {
    var first := Pick(ws);
    if first != w {
      assert ws - {first} - {w} == ws - {w} - {first};
      TotalOfPart(ws - {first}, value, w);
      TotalOfPart(ws - {w}, value, first);
    }
  }

  lemma {:induction false} TotalOfSum(ws: set<Wallet>, f: Wallet -> real, g: Wallet -> real, h: Wallet -> real)
    requires forall w :: w in ws ==> h(w) == f(w) + g(w)
    ensures Total(ws, h) == Total(ws, f) + Total(ws, g)
  {
    if ws != {} {
      var w :| w in ws;
      TotalOfPart(ws, f, w);
      TotalOfPart(ws, g, w);
      TotalOfPart(ws, h, w);
      TotalOfSum(ws - {w}, f, g, h);
    }
  }

  /** A value that sits in one wallet only counts once, and only when that wallet is in the set. */
  lemma {:induction false} TotalOfPoint(ws: set<Wallet>, value: Wallet -> real, at: Wallet)
    requires forall w :: w in ws && w != at ==> value(w) == 0.0
    ensures Total(ws, value) == if at in ws then value(at) else 0.0
  {
    if ws != {} {
      var w := if at in ws then at else var x :| x in ws; x;
      TotalOfPart(ws, value, w);
      TotalOfPoint(ws - {w}, value, at);
    }
  }

  // ---------------------------------------------------------------- what is booked

  /** The signed dollars booked for an event. */
  function Booking(e: Event, measured: set<Wallet>, table: TransferTable, p: Prices): real {
    match e
    case Deposit(wt, coin, amount) => if OnChainWallet(wt) in measured then UsdValue(p, coin, amount) else 0.0
    case Withdrawal(wt, coin, amount, fee, _) => if OnChainWallet(wt) in measured then -UsdValue(p, coin, amount + fee) else 0.0
    case Transfer(kind, coin, amount, confirmed) =>
      if kind in table && confirmed then TransferSign(table[kind], measured) * UsdValue(p, coin, amount) else 0.0
  }

  datatype Ledger = OnChainDeposits | OnChainWithdrawals | Transfers(kinds: set<string>)

  predicate ReadFrom(e: Event, l: Ledger) {
    match l
    case OnChainDeposits => e.Deposit?
    case OnChainWithdrawals => e.Withdrawal?
    case Transfers(kinds) => e.Transfer? && e.kind in kinds
  }

  const CHAIN_PAGE: nat := 1000
  const TRANSFER_PAGE: nat := 100

  /** The list an event is asked for in; a transfer's is that of its type. */
  function ListOf(e: Event): Ledger {
    match e
    case Deposit(_, _, _) => OnChainDeposits
    case Withdrawal(_, _, _, _, _) => OnChainWithdrawals
    case Transfer(kind, _, _, _) => Transfers({kind})
  }

  function PageOf(l: Ledger): nat {
    if l.Transfers? then TRANSFER_PAGE else CHAIN_PAGE
  }

  function Rank(history: seq<Event>, l: Ledger): nat {
    if history == [] then 0 else Rank(history[..|history| - 1], l) + if ReadFrom(history[|history| - 1], l) then 1 else 0
  }

  /** Whether the last event is passed over: beyond the one page asked for of its list, or without a time. */
  predicate PassedOver(history: seq<Event>)
    requires history != []
  {
    var e := history[|history| - 1];
    Rank(history[..|history| - 1], ListOf(e)) >= PageOf(ListOf(e)) || (e.Withdrawal? && !e.timed)
  }

  datatype Part = All | Read | Unread

  predicate Counts(history: seq<Event>, part: Part)
    requires history != []
  {
    part.All? || part.Unread? == PassedOver(history)
  }

  /** What the events of one ledger book, or those of them that are read, or that are not. */
  function LedgerTotal(history: seq<Event>, l: Ledger, part: Part, measured: set<Wallet>, table: TransferTable, p: Prices): real {
    if history == [] then 0.0
    else
      var e := history[|history| - 1];
      LedgerTotal(history[..|history| - 1], l, part, measured, table, p)
        + if ReadFrom(e, l) && Counts(history, part) then Booking(e, measured, table, p) else 0.0
  }

  lemma {:induction false} PartsAdd(history: seq<Event>, l: Ledger, measured: set<Wallet>, table: TransferTable, p: Prices)
    ensures LedgerTotal(history, l, All, measured, table, p)
      == LedgerTotal(history, l, Read, measured, table, p) + LedgerTotal(history, l, Unread, measured, table, p)
  {
    if history != [] {
      PartsAdd(history[..|history| - 1], l, measured, table, p);
    }
  }

  /** Each event moves the equity by exactly what is booked for it. */
  lemma EventIsBooked(e: Event, measured: set<Wallet>, table: TransferTable, p: Prices)
    requires e.Transfer? ==> e.kind in table
    ensures Total(measured, w => WalletDelta(e, w, table, p)) == Booking(e, measured, table, p)
  {
    var change := w => WalletDelta(e, w, table, p);
    match e
    case Deposit(wt, _, _) => TotalOfPoint(measured, change, OnChainWallet(wt));
    case Withdrawal(wt, _, _, _, _) => TotalOfPoint(measured, change, OnChainWallet(wt));
    case Transfer(kind, coin, amount, confirmed) =>
      var usd, route := if confirmed then UsdValue(p, coin, amount) else 0.0, table[kind];
      var arrives := (w: Wallet) => if route.dst == w then usd else 0.0;
      var leaves := (w: Wallet) => if route.src == w then -usd else 0.0;
      TotalOfPoint(measured, arrives, route.dst);
      TotalOfPoint(measured, leaves, route.src);
      TotalOfSum(measured, arrives, leaves, change);
  }

  /** Over every history the three ledgers together book the change of the measured wallets' total. */
  lemma {:induction false} BookingsAreTheEquityChange(history: seq<Event>, measured: set<Wallet>, table: TransferTable, p: Prices)
    requires TableTransfers(history, table)
    ensures EquityChange(history, measured, table, p)
      == LedgerTotal(history, OnChainDeposits, All, measured, table, p)
       + LedgerTotal(history, OnChainWithdrawals, All, measured, table, p)
       + LedgerTotal(history, Transfers(table.Keys), All, measured, table, p)
  {
    if history == [] {
      TotalOfZero(measured, w => WalletChange(history, w, table, p));
    } else {
      var n := |history| - 1;
      var e := history[n];
      BookingsAreTheEquityChange(history[..n], measured, table, p);
      EventIsBooked(e, measured, table, p);
      TotalOfSum(measured, w => WalletChange(history[..n], w, table, p), w => WalletDelta(e, w, table, p),
        w => WalletChange(history, w, table, p));
    }
  }

  lemma {:induction false} TotalOfZero(ws: set<Wallet>, value: Wallet -> real)
    requires forall w :: w in ws ==> value(w) == 0.0
    ensures Total(ws, value) == 0.0
  {
    if ws != {} {
      var w :| w in ws;
      TotalOfPart(ws, value, w);
      TotalOfZero(ws - {w}, value);
    }
  }

  lemma {:induction false} KindsAdd(history: seq<Event>, a: set<string>, b: set<string>, part: Part, measured: set<Wallet>, table: TransferTable, p: Prices)
    requires a !! b
    ensures LedgerTotal(history, Transfers(a + b), part, measured, table, p)
      == LedgerTotal(history, Transfers(a), part, measured, table, p) + LedgerTotal(history, Transfers(b), part, measured, table, p)
  {
    if history != [] {
      KindsAdd(history[..|history| - 1], a, b, part, measured, table, p);
    }
  }

  /** A type that stays inside, or outside, the perimeter books nothing. */
  lemma {:induction false} SilentKind(history: seq<Event>, kind: string, part: Part, measured: set<Wallet>, table: TransferTable, p: Prices)
    requires kind in table && TransferSign(table[kind], measured) == 0.0
    ensures LedgerTotal(history, Transfers({kind}), part, measured, table, p) == 0.0
  {
    if history != [] {
      SilentKind(history[..|history| - 1], kind, part, measured, table, p);
    }
  }

  lemma {:induction false} NoKinds(history: seq<Event>, part: Part, measured: set<Wallet>, table: TransferTable, p: Prices)
    ensures LedgerTotal(history, Transfers({}), part, measured, table, p) == 0.0
  {
    if history != [] {
      NoKinds(history[..|history| - 1], part, measured, table, p);
    }
  }

  /** The lists the venue is asked for. */
  predicate IsList(l: Ledger) {
    l.Transfers? ==> |l.kinds| == 1
  }

  lemma ListOfItsEvents(e: Event, l: Ledger)
    requires IsList(l) && ReadFrom(e, l)
    ensures ListOf(e) == l
  {
    if e.Transfer? {
      assert |l.kinds - {e.kind}| == |l.kinds| - 1;
      assert l.kinds - {e.kind} == {};
      assert l.kinds == {e.kind};
    }
  }

  /** One list, row by row, as far as its one page goes. */
  method ReadLedger(history: seq<Event>, l: Ledger, measured: set<Wallet>, table: TransferTable, p: Prices) returns (booked: real)
    requires IsList(l)
    ensures booked == LedgerTotal(history, l, Read, measured, table, p)
  {
    booked := 0.0;
    var rank := 0;
    for i := 0 to |history|
      invariant booked == LedgerTotal(history[..i], l, Read, measured, table, p) && rank == Rank(history[..i], l)
    {
      assert history[..i + 1][..i] == history[..i];
      var e := history[i];
      if !ReadFrom(e, l) {
        continue;
      }
      ListOfItsEvents(e, l);
      if rank < PageOf(l) && !(e.Withdrawal? && !e.timed) {
        booked := booked + Booking(e, measured, table, p);
      }
      rank := rank + 1;
    }
    assert history[..|history|] == history;
  }

  // ---------------------------------------------------------------- the whole reading

  /** The types of the table whose request the venue answers, or does not. */
  function Heard(table: TransferTable, answers: string -> bool, yes: bool): set<string> {
    set kind | kind in table && answers(kind) == yes
  }

  /** What a reading misses: rows passed over on the lists answered, and all rows of the types not answered. */
  function Missed(history: seq<Event>, measured: set<Wallet>, table: TransferTable, p: Prices, answers: string -> bool): real {
    LedgerTotal(history, OnChainDeposits, Unread, measured, table, p)
      + LedgerTotal(history, OnChainWithdrawals, Unread, measured, table, p)
      + LedgerTotal(history, Transfers(Heard(table, answers, true)), Unread, measured, table, p)
      + LedgerTotal(history, Transfers(Heard(table, answers, false)), All, measured, table, p)
  }

  lemma MissedIsTheDifference(history: seq<Event>, measured: set<Wallet>, table: TransferTable, p: Prices, answers: string -> bool)
    requires TableTransfers(history, table)
    ensures LedgerTotal(history, OnChainDeposits, Read, measured, table, p) + LedgerTotal(history, OnChainWithdrawals, Read, measured, table, p)
        + LedgerTotal(history, Transfers(Heard(table, answers, true)), Read, measured, table, p)
      == EquityChange(history, measured, table, p) - Missed(history, measured, table, p, answers)
  {
    var yes, no := Heard(table, answers, true), Heard(table, answers, false);
    BookingsAreTheEquityChange(history, measured, table, p);
    assert yes + no == table.Keys;
    KindsAdd(history, yes, no, All, measured, table, p);
    PartsAdd(history, OnChainDeposits, measured, table, p);
    PartsAdd(history, OnChainWithdrawals, measured, table, p);
    PartsAdd(history, Transfers(yes), measured, table, p);
  }

  /** Reads the on-chain lists, then each transfer type that crosses the perimeter, in any order; a type whose
      request fails is passed over. The sum booked is the net change of the measured wallets, for every measured
      set and every history, less what is missed. */
  method CollectCashflows(history: seq<Event>, measured: set<Wallet>, table: TransferTable, p: Prices, answers: string -> bool)
    returns (booked: real)
    requires TableTransfers(history, table)
    ensures booked == EquityChange(history, measured, table, p) - Missed(history, measured, table, p, answers)
  {
    var deposits := ReadLedger(history, OnChainDeposits, measured, table, p);
    var withdrawals := ReadLedger(history, OnChainWithdrawals, measured, table, p);
    var transfers := ReadTransfers(history, measured, table, p, answers);
    MissedIsTheDifference(history, measured, table, p, answers);
    return deposits + withdrawals + transfers;
  }

  method ReadTransfers(history: seq<Event>, measured: set<Wallet>, table: TransferTable, p: Prices, answers: string -> bool)
    returns (booked: real)
    ensures booked == LedgerTotal(history, Transfers(Heard(table, answers, true)), Read, measured, table, p)
  {
    booked := 0.0;
    var left := table.Keys;
    ghost var done: set<string> := {};
    NoKinds(history, Read, measured, table, p);
    while left != {}
      invariant left <= table.Keys && done == Heard(table, answers, true) - left
      invariant booked == LedgerTotal(history, Transfers(done), Read, measured, table, p)
      decreases left
    {
      var kind :| kind in left;
      left := left - {kind};
      if answers(kind) {
        KindsAdd(history, done, {kind}, Read, measured, table, p);
        done := done + {kind};
      }
      if TransferSign(table[kind], measured) == 0.0 {
        SilentKind(history, kind, Read, measured, table, p);
        continue;
      }
      if !answers(kind) {
        continue;
      }
      var rows := ReadLedger(history, Transfers({kind}), measured, table, p);
      booked := booked + rows;
    }
    assert done == Heard(table, answers, true);
  }

  /** Every list fits its page and every withdrawal is timed. */
  ghost predicate AllRead(history: seq<Event>) {
    forall i: nat :: 0 < i <= |history| ==> !PassedOver(history[..i])
  }

  ghost function Places(history: seq<Event>, listed: Event -> bool): set<nat> {
    set i: nat | i < |history| && listed(history[i])
  }

  lemma {:induction false} RankCounts(history: seq<Event>, l: Ledger, listed: Event -> bool)
    requires forall e :: listed(e) <==> ReadFrom(e, l)
    ensures Rank(history, l) == |Places(history, listed)|
  {
    if history == [] {
      assert Places(history, listed) == {};
    } else {
      var n := |history| - 1;
      RankCounts(history[..n], l, listed);
      var before := Places(history[..n], listed);
      assert Places(history, listed) == if listed(history[n]) then before + {n} else before;
    }
  }

  /** An event is passed over exactly when its list already holds a full page of earlier ones, a thousand on chain
      and a hundred transfers of its type, or when it is a withdrawal without a time. */
  lemma PassedOverIff(before: seq<Event>, e: Event)
    ensures PassedOver(before + [e]) <==>
      match e
      case Deposit(_, _, _) => |Places(before, (x: Event) => x.Deposit?)| >= 1000
      case Withdrawal(_, _, _, _, timed) => |Places(before, (x: Event) => x.Withdrawal?)| >= 1000 || !timed
      case Transfer(kind, _, _, _) => |Places(before, (x: Event) => x.Transfer? && x.kind == kind)| >= 100
  {
    assert (before + [e])[..|before|] == before;
    match e
    case Deposit(_, _, _) => RankCounts(before, OnChainDeposits, (x: Event) => x.Deposit?);
    case Withdrawal(_, _, _, _, _) => RankCounts(before, OnChainWithdrawals, (x: Event) => x.Withdrawal?);
    case Transfer(kind, _, _, _) => RankCounts(before, Transfers({kind}), (x: Event) => x.Transfer? && x.kind == kind);
  }

  lemma {:induction false} NothingUnread(history: seq<Event>, l: Ledger, measured: set<Wallet>, table: TransferTable, p: Prices)
    requires AllRead(history)
    ensures LedgerTotal(history, l, Unread, measured, table, p) == 0.0
  {
    if history != [] {
      var before := history[..|history| - 1];
      forall i: nat | 0 < i <= |before|
        ensures !PassedOver(before[..i])
      {
        assert before[..i] == history[..i];
      }
      NothingUnread(before, l, measured, table, p);
      assert history[..|history|] == history;
    }
  }

  /** The account's cash flows over the wallets its last balance read, when every request is answered: what they
      gained from outside, but for rows passed over; exactly that when there are none. */
  method GetCashflows(history: seq<Event>, coverage: seq<Coverage>, p: Prices) returns (booked: real)
    requires TableTransfers(history, TRANSFER_WALLETS)
    ensures booked == EquityChange(history, MeasuredWallets(coverage), TRANSFER_WALLETS, p)
      - Missed(history, MeasuredWallets(coverage), TRANSFER_WALLETS, p, kind => true)
    ensures AllRead(history) ==> booked == EquityChange(history, MeasuredWallets(coverage), TRANSFER_WALLETS, p)
  {
    var measured := MeasuredWallets(coverage);
    booked := CollectCashflows(history, measured, TRANSFER_WALLETS, p, kind => true);
    if AllRead(history) {
      NothingMissed(history, measured, TRANSFER_WALLETS, p, kind => true);
    }
  }

  lemma NothingMissed(history: seq<Event>, measured: set<Wallet>, table: TransferTable, p: Prices, answers: string -> bool)
    requires AllRead(history) && forall kind :: kind in table ==> answers(kind)
    ensures Missed(history, measured, table, p, answers) == 0.0
  {
    NothingUnread(history, OnChainDeposits, measured, table, p);
    NothingUnread(history, OnChainWithdrawals, measured, table, p);
    NothingUnread(history, Transfers(Heard(table, answers, true)), measured, table, p);
    assert Heard(table, answers, false) == {};
    NoKinds(history, All, measured, table, p);
  }
}
