/** Bitget: pairing the spot and futures legs of internal transfers, and booking what crossed the perimeter. */
module BitgetPairing {
  import opened Clock
  import opened Valuation
  import opened Wrappers

  const MATCH_WINDOW: int := 10 * MINUTE

  datatype SpotBill = SpotBill(t: int, coin: string, groupType: string, size: real)

  datatype MixBill = MixBill(t: int, delta: real, businessType: string)

  datatype Cashflow = Cashflow(amount: real, t: int)

  const EXTERNAL_TRANSFERS: set<string> := {
    "trans_from_cross", "trans_to_cross", "trans_from_isolated", "trans_to_isolated",
    "trans_from_otc", "trans_to_otc", "trans_from_strategy", "trans_to_strategy",
    "bonus_issue", "bonus_recycle", "bonus_expired", "cash_gift_issue", "cash_gift_recycle",
    "user_grants_issue", "user_grants_recycle", "risk_capital_user_transfer", "risk_captital_user_transfer"
  }

  predicate ExchangeTransfer(b: MixBill) {
    b.businessType == "trans_from_exchange" || b.businessType == "trans_to_exchange"
  }

  function Abs(x: real): real {
    if x < 0.0 then -x else x
  }

  /** The two legs of one transfer: opposite amounts, close in time, both in dollars. */
  predicate OppositeLegs(p: Prices, s: SpotBill, f: MixBill) {
    && ExchangeTransfer(f) && s.groupType == "transfer" && p.stable(s.coin)
    && Abs(s.size + f.delta) <= 0.01 && -MATCH_WINDOW <= s.t - f.t <= MATCH_WINDOW
  }

  /** For each futures bill, the spot bill it was paired with. */
  type Pairs = map<nat, nat>

  ghost predicate OneToOne(pairs: Pairs) {
    forall i, j :: i in pairs && j in pairs && i != j ==> pairs[i] != pairs[j]
  }

  ghost predicate Sound(p: Prices, pairs: Pairs, spot: seq<SpotBill>, mix: seq<MixBill>) {
    forall f :: f in pairs ==> f < |mix| && pairs[f] < |spot| && OppositeLegs(p, spot[pairs[f]], mix[f])
  }

  /** No leg is left unpaired while a partner for it is left unpaired too. */
  ghost predicate Maximal(p: Prices, pairs: Pairs, spot: seq<SpotBill>, mix: seq<MixBill>, upTo: nat)
    requires upTo <= |mix|
  {
    forall f: nat, s: nat | f < upTo && f !in pairs && s < |spot| && s !in pairs.Values :: !OppositeLegs(p, spot[s], mix[f])
  }

  ghost predicate Matching(p: Prices, pairs: Pairs, spot: seq<SpotBill>, mix: seq<MixBill>) {
    OneToOne(pairs) && Sound(p, pairs, spot, mix) && Maximal(p, pairs, spot, mix, |mix|)
  }

  /** A matching whose legs are exactly the bills marked. */
  ghost predicate Marks(p: Prices, spot: seq<SpotBill>, mix: seq<MixBill>, spotMatched: set<nat>, futMatched: set<nat>, pairs: Pairs) {
    Matching(p, pairs, spot, mix) && futMatched == pairs.Keys && spotMatched == pairs.Values
  }

  /** The first spot bill, not yet matched, that is the other leg of a futures transfer. */
  method FindSpotLeg(p: Prices, spot: seq<SpotBill>, f: MixBill, spotMatched: set<nat>) returns (leg: Option<nat>)
    requires ExchangeTransfer(f)
    ensures leg.Some? ==> leg.value < |spot| && leg.value !in spotMatched && OppositeLegs(p, spot[leg.value], f)
    ensures forall s: nat :: s < (if leg.Some? then leg.value else |spot|) && s !in spotMatched ==> !OppositeLegs(p, spot[s], f)
  {
    for si := 0 to |spot|
      invariant forall s: nat :: s < si && s !in spotMatched ==> !OppositeLegs(p, spot[s], f)
    {
      if si in spotMatched || spot[si].groupType != "transfer" || !p.stable(spot[si].coin) {
        continue;
      }
      if Abs(spot[si].size + f.delta) > 0.01 {
        continue;
      }
      var dt := spot[si].t - f.t;
      if dt < -MATCH_WINDOW || dt > MATCH_WINDOW {
        continue;
      }
      return Some(si);
    }
    return None;
  }

  method PairBitgetTransfers(p: Prices, spot: seq<SpotBill>, mix: seq<MixBill>)
    returns (spotMatched: set<nat>, futMatched: set<nat>)
    ensures exists pairs :: Marks(p, spot, mix, spotMatched, futMatched, pairs)
  {
    spotMatched, futMatched := {}, {};
    ghost var pairs: Pairs := map[];
    for fi := 0 to |mix|
      invariant OneToOne(pairs) && Sound(p, pairs, spot, mix) && Maximal(p, pairs, spot, mix, fi)
      invariant futMatched == pairs.Keys && spotMatched == pairs.Values
      invariant forall f :: f in pairs ==> f < fi
    {
      if !ExchangeTransfer(mix[fi]) {
        continue;
      }
      var leg := FindSpotLeg(p, spot, mix[fi], spotMatched);
      if leg.Some? {
        PairAdded(pairs, fi, leg.value);
        spotMatched := spotMatched + {leg.value};
        futMatched := futMatched + {fi};
        pairs := pairs[fi := leg.value];
      }
    }
    assert Marks(p, spot, mix, spotMatched, futMatched, pairs);
  }

  lemma PairAdded(pairs: Pairs, f: nat, s: nat)
    requires OneToOne(pairs) && f !in pairs && s !in pairs.Values
    ensures OneToOne(pairs[f := s])
    ensures pairs[f := s].Keys == pairs.Keys + {f} && pairs[f := s].Values == pairs.Values + {s}
  {
    var after := pairs[f := s];
    assert after[f] == s;
    forall v | v in pairs.Values
      ensures v in after.Values
    {
      var k :| k in pairs && pairs[k] == v;
      assert after[k] == v;
    }
  }

  // ---------------------------------------------------------------- what is booked

  /** Spot bills whose signed size carries the direction; a transfer books only when unmatched. */
  predicate SignedBill(b: SpotBill) {
    b.groupType == "deposit" || b.groupType == "on_chain" || b.groupType == "financial"
  }

  predicate BoundaryBill(b: SpotBill) {
    SignedBill(b) || b.groupType == "withdraw" || b.groupType == "transfer"
  }

  /** The dollars a spot bill of a boundary type moves, signed. */
  function SpotDelta(p: Prices, b: SpotBill): real {
    if b.groupType == "withdraw" then -UsdValue(p, b.coin, Abs(b.size))
    else if BoundaryBill(b) then UsdValue(p, b.coin, b.size)
    else 0.0
  }

  predicate ExternalTransfer(b: MixBill) {
    b.businessType in EXTERNAL_TRANSFERS
  }

  function MixDelta(b: MixBill): real {
    if ExternalTransfer(b) || ExchangeTransfer(b) then b.delta else 0.0
  }

  lemma ExchangeIsNotExternal(b: MixBill)
    ensures !(ExchangeTransfer(b) && ExternalTransfer(b))
  {
    assert "trans_from_exchange" !in EXTERNAL_TRANSFERS;
    assert "trans_to_exchange" !in EXTERNAL_TRANSFERS;
  }

  function SpotTotal(p: Prices, spot: seq<SpotBill>): real {
    if spot == [] then 0.0 else SpotTotal(p, spot[..|spot| - 1]) + SpotDelta(p, spot[|spot| - 1])
  }

  function MixTotal(mix: seq<MixBill>): real {
    if mix == [] then 0.0 else MixTotal(mix[..|mix| - 1]) + MixDelta(mix[|mix| - 1])
  }

  function FlowTotal(flows: seq<Cashflow>): real {
    if flows == [] then 0.0 else FlowTotal(flows[..|flows| - 1]) + flows[|flows| - 1].amount
  }

  /** The part of each ledger that pairing took out. */
  ghost function SpotOf(spot: seq<SpotBill>, matched: set<nat>): real {
    if spot == [] then 0.0
    else
      var n := |spot| - 1;
      SpotOf(spot[..n], matched) + if n in matched then spot[n].size else 0.0
  }

  ghost function MixOf(mix: seq<MixBill>, matched: set<nat>): real {
    if mix == [] then 0.0
    else
      var n := |mix| - 1;
      MixOf(mix[..n], matched) + if n in matched then mix[n].delta else 0.0
  }

  lemma {:induction false} SpotOfRemoved(spot: seq<SpotBill>, matched: set<nat>, s: nat)
    requires s in matched
    ensures SpotOf(spot, matched) == SpotOf(spot, matched - {s}) + if s < |spot| then spot[s].size else 0.0
  {
    if spot != [] {
      SpotOfRemoved(spot[..|spot| - 1], matched, s);
    }
  }

  lemma {:induction false} MixOfRemoved(mix: seq<MixBill>, matched: set<nat>, f: nat)
    requires f in matched
    ensures MixOf(mix, matched) == MixOf(mix, matched - {f}) + if f < |mix| then mix[f].delta else 0.0
  {
    if mix != [] {
      MixOfRemoved(mix[..|mix| - 1], matched, f);
    }
  }

  lemma {:induction false} NothingMatched(spot: seq<SpotBill>, mix: seq<MixBill>)
    ensures SpotOf(spot, {}) == 0.0 && MixOf(mix, {}) == 0.0
    decreases |spot| + |mix|
  {
    if spot != [] {
      NothingMatched(spot[..|spot| - 1], mix);
    } else if mix != [] {
      NothingMatched(spot, mix[..|mix| - 1]);
    }
  }

  /** Off by at most a cent for each of n pairs. */
  ghost predicate WithinCents(off: real, n: nat) {
    Abs(off) <= 0.01 * n as real
  }

  lemma RemovePair(pairs: Pairs, f: nat)
    requires OneToOne(pairs) && f in pairs
    ensures var rest := pairs - {f};
      && OneToOne(rest) && |rest| == |pairs| - 1
      && rest.Keys == pairs.Keys - {f} && rest.Values == pairs.Values - {pairs[f]}
  {
    var rest := pairs - {f};
    assert rest.Keys == pairs.Keys - {f};
    forall v | v in pairs.Values - {pairs[f]}
      ensures v in rest.Values
    {
      var k :| k in pairs && pairs[k] == v;
      assert rest[k] == v;
    }
    assert |rest.Keys| == |pairs.Keys| - 1;
  }

  /** The two legs of each pair cancel to within a cent. */
  lemma {:induction false} PairsCancel(p: Prices, pairs: Pairs, spot: seq<SpotBill>, mix: seq<MixBill>)
    requires OneToOne(pairs) && Sound(p, pairs, spot, mix)
    ensures WithinCents(SpotOf(spot, pairs.Values) + MixOf(mix, pairs.Keys), |pairs|)
    decreases |pairs|
  {
    if |pairs| == 0 {
      assert pairs.Keys == {} && pairs.Values == {};
      NothingMatched(spot, mix);
    } else {
      var f :| f in pairs.Keys;
      var s, rest := pairs[f], pairs - {f};
      RemovePair(pairs, f);
      PairsCancel(p, rest, spot, mix);
      SpotOfRemoved(spot, pairs.Values, s);
      MixOfRemoved(mix, pairs.Keys, f);
      var total, residue := SpotOf(spot, rest.Values) + MixOf(mix, rest.Keys), spot[s].size + mix[f].delta;
      assert Abs(residue) <= 0.01 by {
        assert OppositeLegs(p, spot[s], mix[f]);
      }
      OneMorePair(total, residue, |rest|);
      assert total + residue == SpotOf(spot, pairs.Values) + MixOf(mix, pairs.Keys);
    }
  }

  lemma LegsLeftOut(all: real, booked: real, out: real, n: nat)
    requires booked == all - out && WithinCents(out, n)
    ensures WithinCents(booked - all, n)
  {
  }

  lemma OneMorePair(total: real, residue: real, n: nat)
    requires WithinCents(total, n) && Abs(residue) <= 0.01
    ensures WithinCents(total + residue, n + 1)
  {
  }

  /** A zero flow is not recorded. */
  function Add(flows: seq<Cashflow>, t: int, usd: real): (r: seq<Cashflow>)
    ensures FlowTotal(r) == FlowTotal(flows) + usd
  {
    if usd != 0.0 then flows + [Cashflow(usd, t)] else flows
  }

  /** Every coin a boundary bill moved without a price is named, and no other coin. */
  ghost predicate NamesUnpriced(p: Prices, spot: seq<SpotBill>, unpriced: set<string>) {
    && (forall c :: c in unpriced ==> exists b :: b in spot && b.coin == c && BoundaryBill(b) && b.size != 0.0 && Unpriced(p, c))
    && (forall b :: b in spot && BoundaryBill(b) && b.size != 0.0 && Unpriced(p, b.coin) ==> b.coin in unpriced)
  }

  lemma MatchedBillsAreTransfers(p: Prices, pairs: Pairs, spot: seq<SpotBill>, mix: seq<MixBill>)
    requires Sound(p, pairs, spot, mix)
    ensures forall s: nat :: s in pairs.Values && s < |spot| ==> spot[s].groupType == "transfer" && p.stable(spot[s].coin)
    ensures forall f: nat :: f in pairs.Keys && f < |mix| ==> ExchangeTransfer(mix[f])
  {
    forall s: nat | s in pairs.Values && s < |spot|
      ensures spot[s].groupType == "transfer" && p.stable(spot[s].coin)
    {
      var f :| f in pairs && pairs[f] == s;
    }
  }

  /** What the spot ledger books: each unmatched bill's dollars at its time, zeros left out. */
  function SpotFlows(p: Prices, spot: seq<SpotBill>, matched: set<nat>): seq<Cashflow> {
    if spot == [] then []
    else
      var n := |spot| - 1;
      Add(SpotFlows(p, spot[..n], matched), spot[n].t, if n in matched then 0.0 else SpotDelta(p, spot[n]))
  }

  /** What the futures ledger books after earlier flows. */
  function MixFlows(mix: seq<MixBill>, matched: set<nat>, before: seq<Cashflow>): seq<Cashflow> {
    if mix == [] then before
    else
      var n := |mix| - 1;
      Add(MixFlows(mix[..n], matched, before), mix[n].t, if n in matched then 0.0 else MixDelta(mix[n]))
  }

  /** The spot flows add up to all boundary bills less the matched ones. */
  lemma {:induction false} SpotFlowsTotal(p: Prices, spot: seq<SpotBill>, matched: set<nat>)
    requires forall s: nat :: s in matched && s < |spot| ==> spot[s].groupType == "transfer" && p.stable(spot[s].coin)
    ensures FlowTotal(SpotFlows(p, spot, matched)) == SpotTotal(p, spot) - SpotOf(spot, matched)
  {
    if spot != [] {
      SpotFlowsTotal(p, spot[..|spot| - 1], matched);
    }
  }

  lemma {:induction false} MixFlowsTotal(mix: seq<MixBill>, matched: set<nat>, before: seq<Cashflow>)
    requires forall f: nat :: f in matched && f < |mix| ==> ExchangeTransfer(mix[f])
    ensures FlowTotal(MixFlows(mix, matched, before)) == FlowTotal(before) + MixTotal(mix) - MixOf(mix, matched)
  {
    if mix != [] {
      MixFlowsTotal(mix[..|mix| - 1], matched, before);
    }
  }

  /** Books one spot bill by its group. */
  method BookSpot(p: Prices, sb: SpotBill, matched: bool, before: seq<Cashflow>) returns (flows: seq<Cashflow>)
    requires matched ==> sb.groupType == "transfer"
    ensures flows == Add(before, sb.t, if matched then 0.0 else SpotDelta(p, sb))
  {
    flows := before;
    if SignedBill(sb) {
      flows := Add(flows, sb.t, UsdValue(p, sb.coin, sb.size));
    } else if sb.groupType == "withdraw" {
      flows := Add(flows, sb.t, -UsdValue(p, sb.coin, Abs(sb.size)));
    } else if sb.groupType == "transfer" {
      if !matched {
        flows := Add(flows, sb.t, UsdValue(p, sb.coin, sb.size));
      }
    }
  }

  method ClassifySpot(p: Prices, spot: seq<SpotBill>, spotMatched: set<nat>) returns (flows: seq<Cashflow>, unpriced: set<string>)
    requires forall s: nat :: s in spotMatched && s < |spot| ==> spot[s].groupType == "transfer" && p.stable(spot[s].coin)
    ensures flows == SpotFlows(p, spot, spotMatched) && NamesUnpriced(p, spot, unpriced)
  {
    flows, unpriced := [], {};
    for si := 0 to |spot|
      invariant flows == SpotFlows(p, spot[..si], spotMatched) && NamesUnpriced(p, spot[..si], unpriced)
    {
      var sb := spot[si];
      assert spot[..si + 1][..si] == spot[..si];
      NamesOneMore(p, spot[..si], sb, unpriced);
      assert spot[..si + 1] == spot[..si] + [sb];
      flows := BookSpot(p, sb, si in spotMatched, flows);
      if BoundaryBill(sb) && sb.size != 0.0 && Unpriced(p, sb.coin) {
        unpriced := unpriced + {sb.coin};
      }
    }
    assert spot[..|spot|] == spot;
  }

  lemma NamesOneMore(p: Prices, spot: seq<SpotBill>, b: SpotBill, unpriced: set<string>)
    requires NamesUnpriced(p, spot, unpriced)
    ensures NamesUnpriced(p, spot + [b], if BoundaryBill(b) && b.size != 0.0 && Unpriced(p, b.coin) then unpriced + {b.coin} else unpriced)
  {
    assert forall x :: x in spot + [b] <==> x in spot || x == b;
  }

  method ClassifyMix(mix: seq<MixBill>, futMatched: set<nat>, before: seq<Cashflow>) returns (flows: seq<Cashflow>)
    requires forall f: nat :: f in futMatched && f < |mix| ==> ExchangeTransfer(mix[f])
    ensures flows == MixFlows(mix, futMatched, before)
  {
    flows := before;
    for fi := 0 to |mix|
      invariant flows == MixFlows(mix[..fi], futMatched, before)
    {
      var fb := mix[fi];
      assert mix[..fi + 1][..fi] == mix[..fi];
      ExchangeIsNotExternal(fb);
      var external := ExternalTransfer(fb);
      if !external {
        external := ExchangeTransfer(fb) && fi !in futMatched;
      }
      if external {
        flows := Add(flows, fb.t, fb.delta);
      }
    }
    assert mix[..|mix|] == mix;
  }

  /** The flows of two ledgers under a matching: every unmatched boundary bill, dated as it is, and together
      within a cent per pair of all boundary bills. */
  ghost predicate Classified(p: Prices, spot: seq<SpotBill>, mix: seq<MixBill>, flows: seq<Cashflow>, pairs: Pairs) {
    && Matching(p, pairs, spot, mix)
    && flows == MixFlows(mix, pairs.Keys, SpotFlows(p, spot, pairs.Values))
    && WithinCents(FlowTotal(flows) - (SpotTotal(p, spot) + MixTotal(mix)), |pairs|)
  }

  /** Turns the two ledgers into signed dollar flows; a matched leg books nothing. */
  method ClassifyBitgetCashflows(p: Prices, spot: seq<SpotBill>, mix: seq<MixBill>)
    returns (flows: seq<Cashflow>, unpriced: set<string>)
    ensures exists pairs :: Classified(p, spot, mix, flows, pairs)
    ensures NamesUnpriced(p, spot, unpriced)
  {
    var spotMatched, futMatched := PairBitgetTransfers(p, spot, mix);
    ghost var pairs :| Marks(p, spot, mix, spotMatched, futMatched, pairs);
    MatchedBillsAreTransfers(p, pairs, spot, mix);
    var spotFlows;
    spotFlows, unpriced := ClassifySpot(p, spot, spotMatched);
    flows := ClassifyMix(mix, futMatched, spotFlows);
    SpotFlowsTotal(p, spot, spotMatched);
    MixFlowsTotal(mix, futMatched, spotFlows);
    PairsCancel(p, pairs, spot, mix);
    LegsLeftOut(SpotTotal(p, spot) + MixTotal(mix), FlowTotal(flows),
      SpotOf(spot, pairs.Values) + MixOf(mix, pairs.Keys), |pairs|);
    assert Classified(p, spot, mix, flows, pairs);
  }

  // ---------------------------------------------------------------- against the ledgers themselves

  /** The groups of spot bills that cross the boundary. */
  predicate Crosses(group: string) {
    group == "deposit" || group == "on_chain" || group == "financial" || group == "transfer" || group == "withdraw"
  }

  /** A ledger in dollars, with its withdrawals listed as the losses they are. */
  ghost predicate InDollars(p: Prices, spot: seq<SpotBill>) {
    forall i :: 0 <= i < |spot| && Crosses(spot[i].groupType) ==> p.stable(spot[i].coin) && (spot[i].groupType == "withdraw" ==> spot[i].size <= 0.0)
  }

  /** Every bill that crosses the boundary and is not part of a pair, at its own size and time. */
  ghost function Crossings(spot: seq<SpotBill>, matched: set<nat>): seq<Cashflow> {
    if spot == [] then []
    else
      var n := |spot| - 1;
      Crossings(spot[..n], matched)
        + if Crosses(spot[n].groupType) && n !in matched && spot[n].size != 0.0 then [Cashflow(spot[n].size, spot[n].t)] else []
  }

  lemma BillIsItsSize(p: Prices, b: SpotBill)
    requires Crosses(b.groupType) ==> p.stable(b.coin) && (b.groupType == "withdraw" ==> b.size <= 0.0)
    ensures SpotDelta(p, b) == if Crosses(b.groupType) then b.size else 0.0
  {
  }

  /** A ledger in dollars books its own signed sizes. */
  lemma {:induction false} SpotFlowsAreCrossings(p: Prices, spot: seq<SpotBill>, matched: set<nat>)
    requires InDollars(p, spot)
    ensures SpotFlows(p, spot, matched) == Crossings(spot, matched)
  {
    if spot != [] {
      var n := |spot| - 1;
      SpotFlowsAreCrossings(p, spot[..n], matched);
      BillIsItsSize(p, spot[n]);
    }
  }

  /** The sum of what crosses the boundary on each side. */
  ghost function SpotCrossed(spot: seq<SpotBill>): real {
    if spot == [] then 0.0
    else SpotCrossed(spot[..|spot| - 1]) + if Crosses(spot[|spot| - 1].groupType) then spot[|spot| - 1].size else 0.0
  }

  lemma {:induction false} SpotTotalIsCrossed(p: Prices, spot: seq<SpotBill>)
    requires InDollars(p, spot)
    ensures SpotTotal(p, spot) == SpotCrossed(spot)
  {
    if spot != [] {
      SpotTotalIsCrossed(p, spot[..|spot| - 1]);
      BillIsItsSize(p, spot[|spot| - 1]);
    }
  }

  /** The kinds of futures bills whose other side is another wallet, or a grant. */
  predicate MixCrosses(kind: string) {
    MovedFrom(kind) || MovedInto(kind) || Grant(kind)
  }

  predicate MovedFrom(kind: string) {
    kind == "trans_from_exchange" || kind == "trans_from_cross" || kind == "trans_from_isolated" || kind == "trans_from_otc" || kind == "trans_from_strategy"
  }

  predicate MovedInto(kind: string) {
    kind == "trans_to_exchange" || kind == "trans_to_cross" || kind == "trans_to_isolated" || kind == "trans_to_otc" || kind == "trans_to_strategy"
  }

  predicate Grant(kind: string) {
    || kind == "bonus_issue" || kind == "bonus_recycle" || kind == "bonus_expired" || kind == "cash_gift_issue" || kind == "cash_gift_recycle"
    || kind == "user_grants_issue" || kind == "user_grants_recycle" || kind == "risk_capital_user_transfer" || kind == "risk_captital_user_transfer"
  }

  ghost function MixCrossed(mix: seq<MixBill>): real {
    if mix == [] then 0.0
    else MixCrossed(mix[..|mix| - 1]) + if MixCrosses(mix[|mix| - 1].businessType) then mix[|mix| - 1].delta else 0.0
  }

  lemma MixBillIsItsDelta(b: MixBill)
    ensures MixDelta(b) == if MixCrosses(b.businessType) then b.delta else 0.0
  {
  }

  ghost function MixCrossings(mix: seq<MixBill>, matched: set<nat>): seq<Cashflow> {
    if mix == [] then []
    else
      var n := |mix| - 1;
      MixCrossings(mix[..n], matched)
        + if MixCrosses(mix[n].businessType) && n !in matched && mix[n].delta != 0.0 then [Cashflow(mix[n].delta, mix[n].t)] else []
  }

  /** The futures ledger books its own signed changes behind the spot flows. */
  lemma {:induction false} MixFlowsAreCrossings(mix: seq<MixBill>, matched: set<nat>, before: seq<Cashflow>)
    ensures MixFlows(mix, matched, before) == before + MixCrossings(mix, matched)
  {
    if mix != [] {
      var n := |mix| - 1;
      MixFlowsAreCrossings(mix[..n], matched, before);
      MixBillIsItsDelta(mix[n]);
    }
  }

  lemma {:induction false} MixTotalIsCrossed(mix: seq<MixBill>)
    ensures MixTotal(mix) == MixCrossed(mix)
  {
    if mix != [] {
      MixTotalIsCrossed(mix[..|mix| - 1]);
      MixBillIsItsDelta(mix[|mix| - 1]);
    }
  }

  /** The flows of ledgers in dollars add up to everything that crossed the boundary, at its own sign, within a cent
      per pair. */
  lemma FlowsAreWhatCrossed(p: Prices, spot: seq<SpotBill>, mix: seq<MixBill>, flows: seq<Cashflow>, pairs: Pairs)
    requires InDollars(p, spot) && Classified(p, spot, mix, flows, pairs)
    ensures WithinCents(FlowTotal(flows) - (SpotCrossed(spot) + MixCrossed(mix)), |pairs|)
  {
    SpotTotalIsCrossed(p, spot);
    MixTotalIsCrossed(mix);
  }

  /** Whatever its coin, a withdrawal never books a gain and any other bill books with the sign of its size. */
  lemma BookingsKeepTheirSign(p: Prices, b: SpotBill)
    ensures b.groupType == "withdraw" ==> SpotDelta(p, b) <= 0.0
    ensures b.groupType != "withdraw" && b.size >= 0.0 ==> SpotDelta(p, b) >= 0.0
    ensures b.groupType != "withdraw" && b.size <= 0.0 ==> SpotDelta(p, b) <= 0.0
    ensures Crosses(b.groupType) && b.size != 0.0 && !Unpriced(p, b.coin) ==> SpotDelta(p, b) != 0.0
    ensures !Crosses(b.groupType) ==> SpotDelta(p, b) == 0.0
  {
    UsdValueScales(p, b.coin, b.size);
    UsdValueScales(p, b.coin, Abs(b.size));
  }

  /** Two legs pair within ten minutes and a cent. */
  lemma LegsAreClose(p: Prices, s: SpotBill, f: MixBill)
    ensures OppositeLegs(p, s, f) <==>
      && (f.businessType == "trans_from_exchange" || f.businessType == "trans_to_exchange") && s.groupType == "transfer" && p.stable(s.coin)
      && -0.01 <= s.size + f.delta <= 0.01 && -600_000_000_000 <= s.t - f.t <= 600_000_000_000
  {
  }
}
