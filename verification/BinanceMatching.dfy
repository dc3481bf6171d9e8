/** Which USD-M transfer rows are explained by a known transfer, and which way a sub-account's moves went. */
module BinanceMatching {
  import opened Clock
  import opened Wrappers

  const COUNTERPART_WINDOW: int := 10 * MINUTE

  /** A move of a coin at an instant, positive into the account. */
  datatype Move = Move(t: int, coin: string, qty: real)

  function Abs(x: real): real {
    if x < 0.0 then -x else x
  }

  function Max(x: real, y: real): real {
    if x < y then y else x
  }

  predicate SameAmount(a: real, b: real) {
    Abs(Abs(a) - Abs(b)) <= 0.00000001 * Max(1.0, Max(Abs(a), Abs(b)))
  }

  predicate SameTransfer(m: Move, p: Move) {
    && p.coin == m.coin && SameAmount(p.qty, m.qty)
    && -COUNTERPART_WINDOW <= p.t - m.t <= COUNTERPART_WINDOW
  }

  /** Two sizes, the larger first, are at most a hundred-millionth of the larger apart, or of 1 below that. */
  ghost predicate Close(larger: real, smaller: real) {
    larger >= smaller >= 0.0 && 100_000_000.0 * (larger - smaller) <= (if larger > 1.0 then larger else 1.0)
  }

  ghost predicate SameSize(a: real, b: real) {
    exists x, y :: (x == a || x == -a) && (y == b || y == -b) && (Close(x, y) || Close(y, x))
  }

  lemma SameAmountIff(a: real, b: real)
    ensures SameAmount(a, b) <==> SameSize(a, b)
  {
    var x, y := if a < 0.0 then -a else a, if b < 0.0 then -b else b;
    assert SameAmount(a, b) <==> Close(x, y) || Close(y, x);
    assert (x == a || x == -a) && (y == b || y == -b);
  }

  /** The same coin, ten minutes apart at most either way, and the same size, whatever the signs. */
  lemma SameTransferIff(m: Move, p: Move)
    ensures SameTransfer(m, p) <==>
      m.coin == p.coin && m.t <= p.t + 600_000_000_000 && p.t <= m.t + 600_000_000_000 && SameSize(m.qty, p.qty)
  {
    SameAmountIff(p.qty, m.qty);
    SameAmountIff(m.qty, p.qty);
  }

  // ---------------------------------------------------------------- rows against counterparts

  /** For each row, the counterpart that explains it. */
  type Pairs = seq<Option<nat>>

  function Taken(pairs: Pairs): set<nat> {
    set i | 0 <= i < |pairs| && pairs[i].Some? :: pairs[i].value
  }

  /** The lowest counterpart from index `at` on that is free and explains the row. */
  function FirstFree(taken: set<nat>, counterparts: seq<Move>, m: Move, at: nat): Option<nat>
    requires at <= |counterparts|
    decreases |counterparts| - at
  {
    if at == |counterparts| then None
    else if at !in taken && SameTransfer(m, counterparts[at]) then Some(at)
    else FirstFree(taken, counterparts, m, at + 1)
  }

  /** Rows in order, each taking the first free counterpart that explains it; zero rows take none when skipped. */
  function Pairing(moves: seq<Move>, counterparts: seq<Move>, skipZero: bool): (pairs: Pairs)
    ensures |pairs| == |moves|
  {
    if moves == [] then []
    else
      var n := |moves| - 1;
      var before := Pairing(moves[..n], counterparts, skipZero);
      before + [if skipZero && moves[n].qty == 0.0 then None else FirstFree(Taken(before), counterparts, moves[n], 0)]
  }

  function Unexplained(moves: seq<Move>, pairs: Pairs): seq<Move>
    requires |moves| == |pairs|
  {
    if moves == [] then []
    else
      var n := |moves| - 1;
      Unexplained(moves[..n], pairs[..n]) + if moves[n].qty != 0.0 && pairs[n].None? then [moves[n]] else []
  }

  lemma FirstFreeFacts(taken: set<nat>, counterparts: seq<Move>, m: Move, at: nat)
    requires at <= |counterparts|
    ensures var r := FirstFree(taken, counterparts, m, at);
      && (r.Some? ==> at <= r.value < |counterparts| && r.value !in taken && SameTransfer(m, counterparts[r.value]))
      && (forall j: nat :: at <= j < (if r.Some? then r.value else |counterparts|) ==> j in taken || !SameTransfer(m, counterparts[j]))
    decreases |counterparts| - at
  {
    if at < |counterparts| {
      FirstFreeFacts(taken, counterparts, m, at + 1);
    }
  }

  lemma TakenOfAppend(pairs: Pairs, p: Option<nat>)
    ensures Taken(pairs + [p]) == Taken(pairs) + if p.Some? then {p.value} else {}
  {
    var all := pairs + [p];
    forall x | x in Taken(pairs) ensures x in Taken(all) {
      var i :| 0 <= i < |pairs| && pairs[i].Some? && pairs[i].value == x;
      assert all[i] == pairs[i];
    }
    assert all[|pairs|] == p;
  }

  lemma {:induction false} PairingPrefix(moves: seq<Move>, counterparts: seq<Move>, skipZero: bool, k: nat)
    requires k <= |moves|
    ensures Pairing(moves[..k], counterparts, skipZero) == Pairing(moves, counterparts, skipZero)[..k]
  {
    if k < |moves| {
      var n := |moves| - 1;
      PairingPrefix(moves[..n], counterparts, skipZero, k);
      assert moves[..n][..k] == moves[..k];
    } else {
      assert moves[..k] == moves;
    }
  }

  /** One entry of the pairing, from the entries before it. */
  lemma PairingAt(moves: seq<Move>, counterparts: seq<Move>, skipZero: bool, i: nat)
    requires i < |moves|
    ensures var pairs := Pairing(moves, counterparts, skipZero);
      pairs[i] == if skipZero && moves[i].qty == 0.0 then None else FirstFree(Taken(pairs[..i]), counterparts, moves[i], 0)
  {
    PairingPrefix(moves, counterparts, skipZero, i);
    PairingPrefix(moves, counterparts, skipZero, i + 1);
    assert moves[..i + 1][..i] == moves[..i];
    var pairs := Pairing(moves, counterparts, skipZero);
    assert pairs[..i + 1][i] == pairs[i];
  }

  /** A row is dropped only for a counterpart of its coin, size and window, no two rows for the same one,
      and a counterpart that would explain a row is passed over only for serving an earlier one; a zero row
      takes none when those are skipped. */
  lemma PairingIsGreedyMatching(moves: seq<Move>, counterparts: seq<Move>, skipZero: bool)
    ensures var pairs := Pairing(moves, counterparts, skipZero);
      && (forall i :: 0 <= i < |moves| && pairs[i].Some? ==>
            pairs[i].value < |counterparts| && SameTransfer(moves[i], counterparts[pairs[i].value]))
      && (forall i, j :: 0 <= i < j < |moves| && pairs[i].Some? && pairs[j].Some? ==> pairs[i].value != pairs[j].value)
      && (forall i, c: nat | 0 <= i < |moves| && (pairs[i].None? || c < pairs[i].value) && !(skipZero && moves[i].qty == 0.0)
            && c < |counterparts| && SameTransfer(moves[i], counterparts[c]) :: Some(c) in pairs[..i])
      && (forall i :: 0 <= i < |moves| && skipZero && moves[i].qty == 0.0 ==> pairs[i].None?)
  {
    var pairs := Pairing(moves, counterparts, skipZero);
    forall i | 0 <= i < |moves|
      ensures pairs[i].Some? ==> pairs[i].value < |counterparts| && SameTransfer(moves[i], counterparts[pairs[i].value]) && pairs[i].value !in Taken(pairs[..i])
      ensures skipZero && moves[i].qty == 0.0 ==> pairs[i].None?
    {
      PairingAt(moves, counterparts, skipZero, i);
      FirstFreeFacts(Taken(pairs[..i]), counterparts, moves[i], 0);
    }
    forall i, j | 0 <= i < j < |moves| && pairs[i].Some? && pairs[j].Some?
      ensures pairs[i].value != pairs[j].value
    {
      assert pairs[..j][i] == pairs[i];
      assert pairs[i].value in Taken(pairs[..j]);
    }
    forall i, c: nat | 0 <= i < |moves| && (pairs[i].None? || c < pairs[i].value) && !(skipZero && moves[i].qty == 0.0)
        && c < |counterparts| && SameTransfer(moves[i], counterparts[c])
      ensures Some(c) in pairs[..i]
    {
      PairingAt(moves, counterparts, skipZero, i);
      FirstFreeFacts(Taken(pairs[..i]), counterparts, moves[i], 0);
      assert c in Taken(pairs[..i]);
    }
  }

  ghost predicate LeftOver(moves: seq<Move>, pairs: Pairs, i: nat) {
    i < |moves| && i < |pairs| && moves[i].qty != 0.0 && pairs[i].None?
  }

  ghost predicate Rising(kept: seq<nat>) {
    forall a, b :: 0 <= a < b < |kept| ==> kept[a] < kept[b]
  }

  /** The rows left over of the first n, in order. */
  ghost predicate Lists(moves: seq<Move>, pairs: Pairs, n: nat, kept: seq<nat>) {
    Rising(kept) && forall i: nat :: i in kept <==> i < n && LeftOver(moves, pairs, i)
  }

  lemma ListsOneMore(moves: seq<Move>, pairs: Pairs, n: nat, kept: seq<nat>)
    requires Lists(moves, pairs, n, kept)
    ensures Lists(moves, pairs, n + 1, if LeftOver(moves, pairs, n) then kept + [n] else kept)
  {
    assert forall a :: 0 <= a < |kept| ==> kept[a] in kept;
    assert forall i: nat :: i in kept + [n] <==> i in kept || i == n;
  }

  ghost predicate Picks(rows: seq<Move>, moves: seq<Move>, kept: seq<nat>) {
    |rows| == |kept| && forall a :: 0 <= a < |kept| ==> kept[a] < |moves| && rows[a] == moves[kept[a]]
  }

  lemma {:induction false} UnexplainedOfFirst(moves: seq<Move>, pairs: Pairs, n: nat) returns (kept: seq<nat>)
    requires |moves| == |pairs| && n <= |moves|
    ensures Lists(moves, pairs, n, kept) && Picks(Unexplained(moves[..n], pairs[..n]), moves, kept)
  {
    kept := [];
    if n > 0 {
      kept := UnexplainedOfFirst(moves, pairs, n - 1);
      assert moves[..n][..n - 1] == moves[..n - 1] && pairs[..n][..n - 1] == pairs[..n - 1];
      ListsOneMore(moves, pairs, n - 1, kept);
      if LeftOver(moves, pairs, n - 1) {
        kept := kept + [n - 1];
      }
    }
  }

  /** What is left over: the non-zero rows that nothing explains, every one of them, in their order. */
  lemma UnexplainedAre(moves: seq<Move>, pairs: Pairs) returns (kept: seq<nat>)
    requires |moves| == |pairs|
    ensures Lists(moves, pairs, |moves|, kept) && Picks(Unexplained(moves, pairs), moves, kept)
  {
    kept := UnexplainedOfFirst(moves, pairs, |moves|);
    assert moves[..|moves|] == moves && pairs[..|pairs|] == pairs;
  }

  method FindFree(used: array<bool>, counterparts: seq<Move>, m: Move, ghost taken: set<nat>) returns (r: Option<nat>)
    requires used.Length == |counterparts|
    requires forall j: nat :: j < used.Length ==> (used[j] <==> j in taken)
    ensures r == FirstFree(taken, counterparts, m, 0)
  {
    for i := 0 to |counterparts|
      invariant FirstFree(taken, counterparts, m, 0) == FirstFree(taken, counterparts, m, i)
    {
      if used[i] || !SameTransfer(m, counterparts[i]) {
        continue;
      }
      return Some(i);
    }
    return None;
  }

  lemma PairingStep(moves: seq<Move>, counterparts: seq<Move>, skipZero: bool, i: nat)
    requires i < |moves|
    ensures var pairs := Pairing(moves[..i], counterparts, skipZero);
      var pair := if skipZero && moves[i].qty == 0.0 then None else FirstFree(Taken(pairs), counterparts, moves[i], 0);
      && Pairing(moves[..i + 1], counterparts, skipZero) == pairs + [pair]
      && Unexplained(moves[..i + 1], pairs + [pair])
           == Unexplained(moves[..i], pairs) + (if moves[i].qty != 0.0 && pair.None? then [moves[i]] else [])
      && Taken(pairs + [pair]) == Taken(pairs) + (if pair.Some? then {pair.value} else {})
      && (pair.Some? ==> pair.value < |counterparts|)
  {
    assert moves[..i + 1][..i] == moves[..i];
    var pairs := Pairing(moves[..i], counterparts, skipZero);
    var pair := if skipZero && moves[i].qty == 0.0 then None else FirstFree(Taken(pairs), counterparts, moves[i], 0);
    assert (pairs + [pair])[..i] == pairs;
    FirstFreeFacts(Taken(pairs), counterparts, moves[i], 0);
    TakenOfAppend(pairs, pair);
  }

  /** The non-zero rows left over by the greedy pairing, in their order. */
  method StrayBinanceMoves(moves: seq<Move>, counterparts: seq<Move>) returns (out: seq<Move>)
    ensures out == Unexplained(moves, Pairing(moves, counterparts, true))
  {
    var used := new bool[|counterparts|](_ => false);
    out := [];
    for i := 0 to |moves|
      invariant forall j: nat :: j < used.Length ==> (used[j] <==> j in Taken(Pairing(moves[..i], counterparts, true)))
      invariant out == Unexplained(moves[..i], Pairing(moves[..i], counterparts, true))
    {
      var m := moves[i];
      PairingStep(moves, counterparts, true, i);
      if m.qty == 0.0 {
        continue;
      }
      var explained := FindFree(used, counterparts, m, Taken(Pairing(moves[..i], counterparts, true)));
      if explained.Some? {
        used[explained.value] := true;
      } else {
        out := out + [m];
      }
    }
    assert moves[..|moves|] == moves;
  }

  // ---------------------------------------------------------------- orienting sub-account moves

  function Claimed(pairs: Pairs): set<nat> {
    set i: nat | i < |pairs| && pairs[i].Some?
  }

  function FirstRow(claimed: set<nat>, moves: seq<Move>, s: Move, at: nat): Option<nat>
    requires at <= |moves|
    decreases |moves| - at
  {
    if at == |moves| then None
    else if at !in claimed && moves[at].qty != 0.0 && SameTransfer(moves[at], s) then Some(at)
    else FirstRow(claimed, moves, s, at + 1)
  }

  /** For each sub-account move, the row that shows which way it went. */
  function SubClaims(sub: seq<Move>, moves: seq<Move>, claimed: set<nat>): (rows: Pairs)
    ensures |rows| == |sub|
  {
    if sub == [] then []
    else
      var n := |sub| - 1;
      var before := SubClaims(sub[..n], moves, claimed);
      before + [FirstRow(claimed + Taken(before), moves, sub[n], 0)]
  }

  function ByCounterparts(moves: seq<Move>, counterparts: seq<Move>): set<nat> {
    Claimed(Pairing(moves, counterparts, false))
  }

  function Orientation(sub: seq<Move>, moves: seq<Move>, counterparts: seq<Move>): (rows: Pairs)
    ensures |rows| == |sub|
  {
    SubClaims(sub, moves, ByCounterparts(moves, counterparts))
  }

  function Turned(s: Move, row: Option<nat>, moves: seq<Move>): Move {
    if row.Some? && row.value < |moves| then s.(qty := moves[row.value].qty) else s
  }

  function Oriented(sub: seq<Move>, moves: seq<Move>, rows: Pairs): (out: seq<Move>)
    requires |rows| == |sub|
    ensures |out| == |sub|
    ensures forall k :: 0 <= k < |sub| ==> out[k] == Turned(sub[k], rows[k], moves)
  {
    if sub == [] then []
    else
      var n := |sub| - 1;
      Oriented(sub[..n], moves, rows[..n]) + [Turned(sub[n], rows[n], moves)]
  }

  lemma FirstRowFacts(claimed: set<nat>, moves: seq<Move>, s: Move, at: nat)
    requires at <= |moves|
    ensures var r := FirstRow(claimed, moves, s, at);
      && (r.Some? ==> at <= r.value < |moves| && r.value !in claimed && moves[r.value].qty != 0.0 && SameTransfer(moves[r.value], s))
      && (forall i: nat :: at <= i < (if r.Some? then r.value else |moves|) ==>
            i in claimed || moves[i].qty == 0.0 || !SameTransfer(moves[i], s))
    decreases |moves| - at
  {
    if at < |moves| {
      FirstRowFacts(claimed, moves, s, at + 1);
    }
  }

  lemma {:induction false} SubClaimsPrefix(sub: seq<Move>, moves: seq<Move>, claimed: set<nat>, k: nat)
    requires k <= |sub|
    ensures SubClaims(sub[..k], moves, claimed) == SubClaims(sub, moves, claimed)[..k]
  {
    if k < |sub| {
      var n := |sub| - 1;
      SubClaimsPrefix(sub[..n], moves, claimed, k);
      assert sub[..n][..k] == sub[..k];
    } else {
      assert sub[..k] == sub;
    }
  }

  lemma SubClaimsAt(sub: seq<Move>, moves: seq<Move>, claimed: set<nat>, k: nat)
    requires k < |sub|
    ensures var rows := SubClaims(sub, moves, claimed);
      && rows[k] == FirstRow(claimed + Taken(rows[..k]), moves, sub[k], 0)
      && (rows[k].Some? ==>
            && rows[k].value < |moves| && SameTransfer(moves[rows[k].value], sub[k])
            && moves[rows[k].value].qty != 0.0 && rows[k].value !in claimed && rows[k].value !in Taken(rows[..k]))
      && (forall i: nat :: i < |moves| && (rows[k].None? || i < rows[k].value) ==>
            i in claimed || i in Taken(rows[..k]) || moves[i].qty == 0.0 || !SameTransfer(moves[i], sub[k]))
  {
    SubClaimsPrefix(sub, moves, claimed, k);
    SubClaimsPrefix(sub, moves, claimed, k + 1);
    assert sub[..k + 1][..k] == sub[..k];
    var rows := SubClaims(sub, moves, claimed);
    assert rows[..k + 1][k] == rows[k];
    FirstRowFacts(claimed + Taken(rows[..k]), moves, sub[k], 0);
  }

  lemma OrientationInRange(sub: seq<Move>, moves: seq<Move>, counterparts: seq<Move>)
    ensures var rows := Orientation(sub, moves, counterparts);
      forall k :: 0 <= k < |rows| && rows[k].Some? ==> rows[k].value < |moves|
  {
    forall k: nat | k < |sub| {
      SubClaimsAt(sub, moves, ByCounterparts(moves, counterparts), k);
    }
  }

  /** Orientation changes nothing but the sign of a move, within the matching tolerance, never takes a row
      a universal transfer claimed, and takes no row twice. */
  lemma OrientationOnlyTurnsMoves(sub: seq<Move>, moves: seq<Move>, counterparts: seq<Move>)
    ensures var rows := Orientation(sub, moves, counterparts);
      var out := Oriented(sub, moves, rows);
      && (forall k :: 0 <= k < |sub| ==>
            && out[k].t == sub[k].t && out[k].coin == sub[k].coin && SameAmount(out[k].qty, sub[k].qty)
            && (rows[k].None? ==> out[k] == sub[k])
            && (rows[k].Some? ==>
                  && rows[k].value < |moves| && rows[k].value !in ByCounterparts(moves, counterparts)
                  && out[k].qty == moves[rows[k].value].qty != 0.0 && SameTransfer(moves[rows[k].value], sub[k])))
      && (forall j, k :: 0 <= j < k < |sub| && rows[j].Some? && rows[k].Some? ==> rows[j].value != rows[k].value)
  {
    OrientationInRange(sub, moves, counterparts);
    var claimed := ByCounterparts(moves, counterparts);
    var rows := SubClaims(sub, moves, claimed);
    forall k | 0 <= k < |sub|
      ensures rows[k].Some? ==>
        && rows[k].value !in claimed && rows[k].value !in Taken(rows[..k])
        && moves[rows[k].value].qty != 0.0 && SameTransfer(moves[rows[k].value], sub[k])
    {
      SubClaimsAt(sub, moves, claimed, k);
    }
    forall j, k | 0 <= j < k < |sub| && rows[j].Some? && rows[k].Some?
      ensures rows[j].value != rows[k].value
    {
      assert rows[..k][j] == rows[j];
      assert rows[j].value in Taken(rows[..k]);
    }
  }

  /** A matching row is passed over only for being claimed: by a universal transfer, or by an earlier move. */
  lemma PassedOverRowsAreClaimed(sub: seq<Move>, moves: seq<Move>, counterparts: seq<Move>, k: nat, i: nat)
    requires k < |sub| && i < |moves| && moves[i].qty != 0.0 && SameTransfer(moves[i], sub[k])
    ensures var rows := Orientation(sub, moves, counterparts);
      rows[k].None? || i < rows[k].value ==> i in ByCounterparts(moves, counterparts) || Some(i) in rows[..k]
  {
    SubClaimsAt(sub, moves, ByCounterparts(moves, counterparts), k);
  }

  method FindRow(claimed: array<bool>, moves: seq<Move>, s: Move, ghost taken: set<nat>) returns (r: Option<nat>)
    requires claimed.Length == |moves|
    requires forall j: nat :: j < claimed.Length ==> (claimed[j] <==> j in taken)
    ensures r == FirstRow(taken, moves, s, 0)
  {
    for i := 0 to |moves|
      invariant FirstRow(taken, moves, s, 0) == FirstRow(taken, moves, s, i)
    {
      if claimed[i] || moves[i].qty == 0.0 || !SameTransfer(moves[i], s) {
        continue;
      }
      return Some(i);
    }
    return None;
  }

  /** The universal transfers claim their rows first. */
  method ClaimByCounterparts(moves: seq<Move>, counterparts: seq<Move>) returns (claimed: array<bool>)
    ensures fresh(claimed) && claimed.Length == |moves|
    ensures forall i: nat :: i < |moves| ==> (claimed[i] <==> i in ByCounterparts(moves, counterparts))
  {
    claimed := new bool[|moves|](_ => false);
    var cpUsed := new bool[|counterparts|](_ => false);
    ghost var pairs: Pairs := [];
    for i := 0 to |moves|
      invariant pairs == Pairing(moves[..i], counterparts, false) && |pairs| == i
      invariant Marks(cpUsed[..], Taken(pairs)) && Marks(claimed[..], Claimed(pairs))
    {
      PairingStep(moves, counterparts, false, i);
      var explained := FindFree(cpUsed, counterparts, moves[i], Taken(pairs));
      ClaimedOfAppend(pairs, explained);
      if explained.Some? {
        MarkOne(cpUsed[..], Taken(pairs), explained.value);
        MarkOne(claimed[..], Claimed(pairs), i);
        cpUsed[explained.value] := true;
        claimed[i] := true;
      }
      pairs := pairs + [explained];
    }
    assert moves[..|moves|] == moves;
  }

  /** The flags set are those of the set. */
  ghost predicate Marks(flags: seq<bool>, s: set<nat>) {
    forall j: nat :: j < |flags| ==> (flags[j] <==> j in s)
  }

  lemma MarkOne(flags: seq<bool>, s: set<nat>, k: nat)
    requires Marks(flags, s) && k < |flags|
    ensures Marks(flags[k := true], s + {k})
  {
  }

  lemma ClaimedOfAppend(pairs: Pairs, pair: Option<nat>)
    ensures Claimed(pairs + [pair]) == Claimed(pairs) + if pair.Some? then {|pairs|} else {}
  {
  }

  lemma SubClaimsStep(sub: seq<Move>, moves: seq<Move>, claimed: set<nat>, k: nat)
    requires k < |sub|
    ensures var rows := SubClaims(sub[..k], moves, claimed);
      var row := FirstRow(claimed + Taken(rows), moves, sub[k], 0);
      && SubClaims(sub[..k + 1], moves, claimed) == rows + [row]
      && Oriented(sub[..k + 1], moves, rows + [row]) == Oriented(sub[..k], moves, rows) + [Turned(sub[k], row, moves)]
      && Taken(rows + [row]) == Taken(rows) + (if row.Some? then {row.value} else {})
      && (row.Some? ==> row.value < |moves|)
  {
    assert sub[..k + 1][..k] == sub[..k];
    var rows := SubClaims(sub[..k], moves, claimed);
    FirstRowFacts(claimed + Taken(rows), moves, sub[k], 0);
    TakenOfAppend(rows, FirstRow(claimed + Taken(rows), moves, sub[k], 0));
  }

  /** Every move with the quantity of the row it claims, unchanged where it claims none. */
  method OrientBinanceSubMoves(sub: seq<Move>, moves: seq<Move>, counterparts: seq<Move>) returns (out: seq<Move>)
    ensures out == Oriented(sub, moves, Orientation(sub, moves, counterparts))
  {
    var claimed := ClaimByCounterparts(moves, counterparts);
    out := [];
    ghost var first := ByCounterparts(moves, counterparts);
    for k := 0 to |sub|
      invariant forall j: nat :: j < |moves| ==> (claimed[j] <==> j in first || j in Taken(SubClaims(sub[..k], moves, first)))
      invariant out == Oriented(sub[..k], moves, SubClaims(sub[..k], moves, first))
    {
      var s := sub[k];
      ghost var rows := SubClaims(sub[..k], moves, first);
      var row := FindRow(claimed, moves, s, first + Taken(rows));
      SubClaimsStep(sub, moves, first, k);
      if row.Some? {
        claimed[row.value] := true;
        s := s.(qty := moves[row.value].qty);
      }
      out := out + [s];
    }
    assert sub[..|sub|] == sub;
  }

  // ---------------------------------------------------------------- the two passes agree

  /** A free counterpart among the first ones is found whatever is appended after them. */
  lemma FirstFreeOfAppend(taken: set<nat>, taken': set<nat>, counterparts: seq<Move>, extra: seq<Move>, m: Move, at: nat)
    requires at <= |counterparts|
    requires forall j: nat :: j < |counterparts| ==> (j in taken <==> j in taken')
    ensures var r, r' := FirstFree(taken, counterparts, m, at), FirstFree(taken', counterparts + extra, m, at);
      if r.Some? then r' == r else r'.None? || r'.value >= |counterparts|
    decreases |counterparts| - at
  {
    if at == |counterparts| {
      FirstFreeFacts(taken', counterparts + extra, m, at);
    } else {
      FirstFreeOfAppend(taken, taken', counterparts, extra, m, at + 1);
    }
  }

  function Among(pair: Option<nat>, n: nat): Option<nat> {
    if pair.Some? && pair.value < n then pair else None
  }

  ghost predicate SameClaims(moves: seq<Move>, counterparts: seq<Move>, extra: seq<Move>) {
    var orient, stray := Pairing(moves, counterparts, false), Pairing(moves, counterparts + extra, true);
    forall i :: 0 <= i < |moves| ==> Among(stray[i], |counterparts|) == orient[i]
  }

  /** No zero row is claimed when the universal transfers claim their rows for orientation. */
  ghost predicate NoZeroRowClaimed(moves: seq<Move>, counterparts: seq<Move>) {
    forall i :: 0 <= i < |moves| && moves[i].qty == 0.0 ==> Pairing(moves, counterparts, false)[i].None?
  }

  lemma {:induction false} PassesAgree(moves: seq<Move>, counterparts: seq<Move>, extra: seq<Move>)
    requires NoZeroRowClaimed(moves, counterparts)
    ensures SameClaims(moves, counterparts, extra)
  {
    if moves != [] {
      var n := |moves| - 1;
      var p := moves[..n];
      assert NoZeroRowClaimed(p, counterparts) by {
        forall i | 0 <= i < |p| && p[i].qty == 0.0
          ensures Pairing(p, counterparts, false)[i].None?
        {
          assert moves[i] == p[i];
          assert Pairing(moves, counterparts, false)[i] == Pairing(p, counterparts, false)[i];
        }
      }
      PassesAgree(p, counterparts, extra);
      var orient, stray := Pairing(p, counterparts, false), Pairing(p, counterparts + extra, true);
      forall j: nat | j < |counterparts|
        ensures j in Taken(orient) <==> j in Taken(stray)
      {
        TakenAmong(orient, stray, |counterparts|, j);
      }
      var last := FirstFree(Taken(orient), counterparts, moves[n], 0);
      FirstFreeOfAppend(Taken(orient), Taken(stray), counterparts, extra, moves[n], 0);
      var orient', stray' := Pairing(moves, counterparts, false), Pairing(moves, counterparts + extra, true);
      assert orient' == orient + [last] && stray'[..n] == stray;
      assert Among(stray'[n], |counterparts|) == orient'[n] by {
        PairingAt(moves, counterparts + extra, true, n);
        FirstFreeFacts(Taken(orient), counterparts, moves[n], 0);
        assert moves[n].qty == 0.0 ==> orient'[n].None?;
      }
      forall i | 0 <= i < |moves|
        ensures Among(stray'[i], |counterparts|) == orient'[i]
      {
        if i < n {
          assert stray'[i] == stray[i] && orient'[i] == orient[i];
        }
      }
    }
  }

  lemma TakenAmong(orient: Pairs, stray: Pairs, n: nat, j: nat)
    requires |orient| == |stray| && j < n
    requires forall i :: 0 <= i < |orient| ==> Among(stray[i], n) == orient[i]
    ensures j in Taken(orient) <==> j in Taken(stray)
  {
    if j in Taken(orient) {
      var i :| 0 <= i < |orient| && orient[i].Some? && orient[i].value == j;
      assert stray[i] == Some(j);
    }
    if j in Taken(stray) {
      var i :| 0 <= i < |stray| && stray[i].Some? && stray[i].value == j;
      assert orient[i] == Some(j);
    }
  }

  /** The universal transfers claim the same rows, each the same one, in both passes, whatever booked moves
      are appended for the second, exactly when the first pass claims no zero row. */
  lemma ClaimsAgreeIffNoZeroRowClaimed(moves: seq<Move>, counterparts: seq<Move>, booked: seq<Move>)
    ensures SameClaims(moves, counterparts, booked) <==> NoZeroRowClaimed(moves, counterparts)
  {
    if NoZeroRowClaimed(moves, counterparts) {
      PassesAgree(moves, counterparts, booked);
    }
    if SameClaims(moves, counterparts, booked) {
      forall i | 0 <= i < |moves| && moves[i].qty == 0.0
        ensures Pairing(moves, counterparts, false)[i].None?
      {
        PairingAt(moves, counterparts + booked, true, i);
      }
    }
  }

  /** On the input: as long as no zero row matches a counterpart, both passes agree. */
  lemma PassesAgreeWithoutZeroMatches(moves: seq<Move>, counterparts: seq<Move>, booked: seq<Move>)
    requires forall i, j :: 0 <= i < |moves| && 0 <= j < |counterparts| && moves[i].qty == 0.0 ==> !SameTransfer(moves[i], counterparts[j])
    ensures NoZeroRowClaimed(moves, counterparts) && SameClaims(moves, counterparts, booked)
  {
    PairingIsGreedyMatching(moves, counterparts, false);
    ClaimsAgreeIffNoZeroRowClaimed(moves, counterparts, booked);
  }

  /** A zero row and a transfer of a hundred-millionth: claimed for orientation, never for stray detection. */
  lemma ZeroRowsCanDisagree()
    ensures var moves, counterparts := [Move(0, "USDT", 0.0)], [Move(0, "USDT", 0.00000001)];
      !NoZeroRowClaimed(moves, counterparts) && !SameClaims(moves, counterparts, [])
  {
    var moves, counterparts := [Move(0, "USDT", 0.0)], [Move(0, "USDT", 0.00000001)];
    PairingAt(moves, counterparts, false, 0);
    assert SameTransfer(moves[0], counterparts[0]);
    assert Taken([]) == {};
    var pairs := Pairing(moves, counterparts, false);
    assert pairs[..0] == [];
    assert FirstFree({}, counterparts, moves[0], 0) == Some(0);
    ClaimsAgreeIffNoZeroRowClaimed(moves, counterparts, []);
  }

  // ---------------------------------------------------------------- nothing is booked twice

  /** Of universal transfers, stray detection has never taken one that orientation has not: its zero rows take
      none, and each other row finds at least as many free. */
  lemma {:induction false} StrayTakesNoOther(moves: seq<Move>, counterparts: seq<Move>, extra: seq<Move>, j: nat)
    requires j < |counterparts| && j in Taken(Pairing(moves, counterparts + extra, true))
    ensures j in Taken(Pairing(moves, counterparts, false))
  {
    var n, all := |moves| - 1, counterparts + extra;
    var orient, stray := Pairing(moves[..n], counterparts, false), Pairing(moves[..n], all, true);
    var mine, theirs := Pairing(moves, counterparts, false)[n], Pairing(moves, all, true)[n];
    TakenOfAppend(orient, mine);
    TakenOfAppend(stray, theirs);
    if j in Taken(stray) {
      StrayTakesNoOther(moves[..n], counterparts, extra, j);
    } else {
      assert theirs == Some(j) && moves[n].qty != 0.0;
      FirstFreeFacts(Taken(stray), all, moves[n], 0);
      forall i: nat | i < j && SameTransfer(moves[n], counterparts[i])
        ensures i in Taken(orient)
      {
        assert all[i] == counterparts[i] && i in Taken(stray);
        StrayTakesNoOther(moves[..n], counterparts, extra, i);
      }
      assert all[j] == counterparts[j];
      FirstFreeFacts(Taken(orient), counterparts, moves[n], 0);
    }
  }

  /** A non-zero row that a universal transfer claims is explained by a universal transfer again. */
  lemma UniversalRowsStayExplained(moves: seq<Move>, counterparts: seq<Move>, extra: seq<Move>, row: nat)
    requires row < |moves| && moves[row].qty != 0.0 && row in ByCounterparts(moves, counterparts)
    ensures var p := Pairing(moves, counterparts + extra, true)[row]; p.Some? && p.value < |counterparts|
  {
    var all := counterparts + extra;
    var orient, stray := Pairing(moves, counterparts, false), Pairing(moves, all, true);
    PairingAt(moves, counterparts, false, row);
    PairingAt(moves, all, true, row);
    FirstFreeFacts(Taken(orient[..row]), counterparts, moves[row], 0);
    FirstFreeFacts(Taken(stray[..row]), all, moves[row], 0);
    var r := orient[row].value;
    assert all[r] == counterparts[r];
    if r in Taken(stray[..row]) {
      PairingPrefix(moves, counterparts, false, row);
      PairingPrefix(moves, all, true, row);
      StrayTakesNoOther(moves[..row], counterparts, extra, r);
    }
  }

  /** A non-zero amount that matches another matches whatever that one matches. */
  predicate Chains(x: real, y: real, z: real) {
    x != 0.0 && y != 0.0 && SameAmount(x, y) && SameAmount(y, z) ==> SameAmount(x, z)
  }

  ghost predicate AmountsSeparate(moves: seq<Move>, sub: seq<Move>) {
    forall i, j, k | 0 <= i < |moves| && 0 <= j < |moves| && 0 <= k < |sub| :: Chains(moves[i].qty, moves[j].qty, sub[k].qty)
  }

  function BookedMoves(master: seq<Move>, sub: seq<Move>, moves: seq<Move>, counterparts: seq<Move>): seq<Move> {
    master + Oriented(sub, moves, Orientation(sub, moves, counterparts))
  }

  /** The pairing of stray detection, with the universal transfers first and the booked moves after them. */
  function StrayPairs(master: seq<Move>, sub: seq<Move>, moves: seq<Move>, counterparts: seq<Move>): (pairs: Pairs)
    ensures |pairs| == |moves|
  {
    Pairing(moves, counterparts + BookedMoves(master, sub, moves, counterparts), true)
  }

  /** Where the k-th sub-account move stands among the counterparts of stray detection. */
  function PlaceOf(master: seq<Move>, counterparts: seq<Move>, k: nat): nat {
    |counterparts| + |master| + k
  }

  /** Two rows that match a sub-account move, one before and one after it was turned, by the separation. */
  lemma MatchesBeforeTurning(m: Move, s: Move, turned: Move, row: Move)
    requires SameTransfer(m, turned) && turned == s.(qty := row.qty)
    requires SameAmount(m.qty, row.qty) && SameAmount(row.qty, s.qty) ==> SameAmount(m.qty, s.qty)
    requires SameTransfer(row, s)
    ensures SameTransfer(m, s)
  {
  }

  /** A turned move matches the row that turned it. */
  lemma TurnedMoveMatchesItsRow(s: Move, row: Move)
    requires SameTransfer(row, s)
    ensures SameTransfer(row, s.(qty := row.qty))
  {
  }

  /** A row that takes a sub-account move in stray detection is no universal transfer's and matches the move
      as it was turned. */
  lemma TakerMatchesTurned(master: seq<Move>, sub: seq<Move>, moves: seq<Move>, counterparts: seq<Move>, taker: nat, k: nat)
    requires taker < |moves| && k < |sub|
    requires StrayPairs(master, sub, moves, counterparts)[taker] == Some(PlaceOf(master, counterparts, k))
    ensures taker !in ByCounterparts(moves, counterparts) && moves[taker].qty != 0.0
    ensures SameTransfer(moves[taker], Turned(sub[k], Orientation(sub, moves, counterparts)[k], moves))
  {
    var booked := BookedMoves(master, sub, moves, counterparts);
    var all := counterparts + booked;
    var pairs := Pairing(moves, all, true);
    assert all[PlaceOf(master, counterparts, k)] == Turned(sub[k], Orientation(sub, moves, counterparts)[k], moves);
    PairingAt(moves, all, true, taker);
    FirstFreeFacts(Taken(pairs[..taker]), all, moves[taker], 0);
    if taker in ByCounterparts(moves, counterparts) {
      UniversalRowsStayExplained(moves, counterparts, booked, taker);
    }
  }

  /** ... and, by the separation, as it was before turning. */
  lemma TakerMatches(master: seq<Move>, sub: seq<Move>, moves: seq<Move>, counterparts: seq<Move>, taker: nat, k: nat)
    requires AmountsSeparate(moves, sub)
    requires taker < |moves| && k < |sub|
    requires Orientation(sub, moves, counterparts)[k].Some?
    requires StrayPairs(master, sub, moves, counterparts)[taker] == Some(PlaceOf(master, counterparts, k))
    ensures taker !in ByCounterparts(moves, counterparts) && moves[taker].qty != 0.0
    ensures SameTransfer(moves[taker], sub[k])
  {
    TakerMatchesTurned(master, sub, moves, counterparts, taker, k);
    SubClaimsAt(sub, moves, ByCounterparts(moves, counterparts), k);
    var row := Orientation(sub, moves, counterparts)[k].value;
    assert Chains(moves[taker].qty, moves[row].qty, sub[k].qty);
    MatchesBeforeTurning(moves[taker], sub[k], sub[k].(qty := moves[row].qty), moves[row]);
  }

  /** A row passed over when sub-account move k chose a later one had already turned an earlier move. */
  lemma PassedOverRowTurnedAnEarlierMove(sub: seq<Move>, moves: seq<Move>, counterparts: seq<Move>, row: nat, k: nat) returns (j: nat)
    requires row < |moves| && k < |sub|
    requires row !in ByCounterparts(moves, counterparts) && moves[row].qty != 0.0 && SameTransfer(moves[row], sub[k])
    requires var chosen := Orientation(sub, moves, counterparts)[k]; chosen.Some? && row < chosen.value
    ensures j < k && Orientation(sub, moves, counterparts)[j] == Some(row)
  {
    var rows := Orientation(sub, moves, counterparts);
    SubClaimsAt(sub, moves, ByCounterparts(moves, counterparts), k);
    assert row in Taken(rows[..k]);
    j :| j < k && rows[..k][j] == Some(row);
  }

  /** When the row that turned move j ends without it, an earlier row has it. */
  lemma MoveIsTakenEarlier(master: seq<Move>, sub: seq<Move>, moves: seq<Move>, counterparts: seq<Move>, row: nat, j: nat)
      returns (earlier: nat)
    requires row < |moves| && j < |sub| && moves[row].qty != 0.0
    requires Orientation(sub, moves, counterparts)[j] == Some(row)
    requires var p := StrayPairs(master, sub, moves, counterparts)[row]; p.None? || p.value > PlaceOf(master, counterparts, j)
    ensures earlier < row && StrayPairs(master, sub, moves, counterparts)[earlier] == Some(PlaceOf(master, counterparts, j))
  {
    OrientationInRange(sub, moves, counterparts);
    var rows := Orientation(sub, moves, counterparts);
    var all := counterparts + BookedMoves(master, sub, moves, counterparts);
    var pairs := StrayPairs(master, sub, moves, counterparts);
    var place := PlaceOf(master, counterparts, j);
    assert all[place] == sub[j].(qty := moves[row].qty);
    SubClaimsAt(sub, moves, ByCounterparts(moves, counterparts), j);
    TurnedMoveMatchesItsRow(sub[j], moves[row]);
    PairingAt(moves, all, true, row);
    FirstFreeFacts(Taken(pairs[..row]), all, moves[row], 0);
    assert place in Taken(pairs[..row]);
    earlier :| earlier < row && pairs[..row][earlier] == Some(place);
  }

  /** A row cannot take the booked move of a later row: the chain of earlier claims it needs never ends. */
  lemma {:induction false} NoRowTakesALaterRowsMove(
      master: seq<Move>, sub: seq<Move>, moves: seq<Move>, counterparts: seq<Move>, row: nat, k: nat)
    requires AmountsSeparate(moves, sub)
    requires row < |moves| && k < |sub|
    requires var chosen := Orientation(sub, moves, counterparts)[k]; chosen.Some? && row < chosen.value
    ensures StrayPairs(master, sub, moves, counterparts)[row] != Some(PlaceOf(master, counterparts, k))
    decreases row
  {
    if StrayPairs(master, sub, moves, counterparts)[row] == Some(PlaceOf(master, counterparts, k)) {
      TakerMatches(master, sub, moves, counterparts, row, k);
      var j := PassedOverRowTurnedAnEarlierMove(sub, moves, counterparts, row, k);
      var earlier := MoveIsTakenEarlier(master, sub, moves, counterparts, row, j);
      NoRowTakesALaterRowsMove(master, sub, moves, counterparts, earlier, j);
    }
  }

  /** A row orientation accounts for: a universal transfer's, or one that gave a sub-account's move its direction. */
  ghost predicate AccountedFor(sub: seq<Move>, moves: seq<Move>, counterparts: seq<Move>, row: nat) {
    row in ByCounterparts(moves, counterparts) || Some(row) in Orientation(sub, moves, counterparts)
  }

  /** Such a row is explained again in stray detection, so that its transfer is not booked a second time as a
      stray flow; a zero row never is one. */
  lemma ClaimedRowsAreNeverStray(master: seq<Move>, sub: seq<Move>, moves: seq<Move>, counterparts: seq<Move>, row: nat)
    requires AmountsSeparate(moves, sub)
    requires row < |moves| && moves[row].qty != 0.0 && AccountedFor(sub, moves, counterparts, row)
    ensures StrayPairs(master, sub, moves, counterparts)[row].Some?
  {
    if row in ByCounterparts(moves, counterparts) {
      UniversalRowsStayExplained(moves, counterparts, BookedMoves(master, sub, moves, counterparts), row);
    } else if StrayPairs(master, sub, moves, counterparts)[row].None? {
      var k: nat :| k < |sub| && Orientation(sub, moves, counterparts)[k] == Some(row);
      SubClaimsAt(sub, moves, ByCounterparts(moves, counterparts), k);
      var thief := MoveIsTakenEarlier(master, sub, moves, counterparts, row, k);
      NoRowTakesALaterRowsMove(master, sub, moves, counterparts, thief, k);
    }
  }

  // ---------------------------------------------------------------- exactly when

  /** A non-zero row that is accounted for and booked as a stray flow as well. */
  ghost predicate BookedTwice(master: seq<Move>, sub: seq<Move>, moves: seq<Move>, counterparts: seq<Move>, row: nat) {
    && row < |moves| && moves[row].qty != 0.0 && AccountedFor(sub, moves, counterparts, row)
    && StrayPairs(master, sub, moves, counterparts)[row].None?
  }

  function Coins(x: real): Move {
    Move(0, "USDT", x)
  }

  lemma NoCounterpartsClaimNothing(moves: seq<Move>)
    ensures ByCounterparts(moves, []) == {}
  {
    var pairs := Pairing(moves, [], false);
    forall i: nat | i < |moves|
      ensures pairs[i].None?
    {
      PairingAt(moves, [], false, i);
    }
  }

  /** The second row turns the sub-account's move, and the first row then takes it. */
  lemma SecondRowTurns(x: real, y: real, z: real)
    requires y != 0.0 && SameAmount(y, z) && !SameAmount(x, z)
    ensures Orientation([Coins(z)], [Coins(x), Coins(y)], []) == [Some(1)]
  {
    var moves, sub := [Coins(x), Coins(y)], [Coins(z)];
    NoCounterpartsClaimNothing(moves);
    SubClaimsAt(sub, moves, {}, 0);
    assert !SameTransfer(moves[0], sub[0]) && SameTransfer(moves[1], sub[0]);
    assert SubClaims(sub, moves, {})[..0] == [];
    assert FirstRow({}, moves, sub[0], 1) == Some(1);
    assert FirstRow({}, moves, sub[0], 0) == Some(1);
  }

  lemma FirstRowTakesIt(x: real, y: real)
    requires x != 0.0 && y != 0.0 && SameAmount(x, y)
    ensures Pairing([Coins(x), Coins(y)], [Coins(y)], true) == [Some(0), None]
  {
    var moves, all := [Coins(x), Coins(y)], [Coins(y)];
    var pairs := Pairing(moves, all, true);
    PairingAt(moves, all, true, 0);
    PairingAt(moves, all, true, 1);
    assert pairs[..0] == [];
    assert SameTransfer(moves[0], all[0]);
    assert pairs[0] == Some(0);
    assert pairs[..1] == [Some(0)];
    assert pairs[..1][0].value in Taken(pairs[..1]);
    assert FirstFree(Taken(pairs[..1]), all, moves[1], 1) == None;
  }

  /** Any three amounts, the first two not zero, each within tolerance of the next but not the outer two, make
      a ledger that books its second row twice. */
  lemma BorderlineAmountsAreBookedTwice(x: real, y: real, z: real)
    requires !Chains(x, y, z)
    ensures BookedTwice([], [Coins(z)], [Coins(x), Coins(y)], [], 1)
  {
    var moves, sub := [Coins(x), Coins(y)], [Coins(z)];
    var none: seq<Move> := [];
    SecondRowTurns(x, y, z);
    assert Orientation(sub, moves, none)[0] == Some(1);
    var booked := BookedMoves(none, sub, moves, none);
    assert |booked| == 1 && booked[0] == Coins(y);
    assert none + booked == [Coins(y)];
    FirstRowTakesIt(x, y);
  }

  /** There are such amounts. */
  lemma BorderlineAmounts()
    ensures !Chains(0.999999991, 1.0, 1.00000001)
  {
  }

  ghost predicate Over(amounts: set<real>, moves: seq<Move>) {
    forall i :: 0 <= i < |moves| ==> moves[i].qty in amounts
  }

  ghost predicate Separates(amounts: set<real>) {
    forall x, y, z :: x in amounts && y in amounts && z in amounts ==> Chains(x, y, z)
  }

  /** No ledger of certain amounts books a row twice exactly when the tolerance separates those amounts. */
  lemma NothingIsBookedTwiceIff(amounts: set<real>)
    ensures Separates(amounts) <==>
      forall master, sub, moves, counterparts, row :: Over(amounts, sub) && Over(amounts, moves) ==> !BookedTwice(master, sub, moves, counterparts, row)
  {
    if Separates(amounts) {
      forall master, sub, moves, counterparts, row | Over(amounts, sub) && Over(amounts, moves)
        ensures !BookedTwice(master, sub, moves, counterparts, row)
      {
        assert AmountsSeparate(moves, sub);
        if BookedTwice(master, sub, moves, counterparts, row) {
          ClaimedRowsAreNeverStray(master, sub, moves, counterparts, row);
        }
      }
    } else {
      var x, y, z :| x in amounts && y in amounts && z in amounts && !Chains(x, y, z);
      BorderlineAmountsAreBookedTwice(x, y, z);
      assert Over(amounts, [Coins(z)]) && Over(amounts, [Coins(x), Coins(y)]);
    }
  }
}
