/** Choosing the outputs that pay for a target: one sufficient coin, or a greedy prefix. */
module UtxoSelection {
  import opened Wrappers
  import opened Integers
  import opened UtxoList

  const SAFE_TARGET := 0x4000_0000_0000_0000

  function Limit(count: nat, maxInputs: int): (limit: nat)
    ensures limit <= count && (count > 0 ==> limit > 0)
  {
    if maxInputs > 0 && count > maxInputs then maxInputs else count
  }

  /** How many coins from the front are each worth the target. */
  function LeadingEnough(utxos: seq<Utxo>, target: int): (k: nat)
    ensures k <= |utxos|
    ensures forall i :: 0 <= i < k ==> utxos[i].value >= target
    ensures k < |utxos| ==> utxos[k].value < target
  {
    if utxos == [] || utxos[0].value < target then 0 else 1 + LeadingEnough(utxos[1..], target)
  }

  /** Where the greedy loop stops when it has i coins worth total; add is the addition it uses. */
  function GreedyEnd(utxos: seq<Utxo>, target: int, limit: nat, i: nat, total: int, add: (int, int) -> int): (n: nat)
    requires i <= limit <= |utxos|
    ensures i <= n <= limit
    decreases limit - i
  {
    if i == limit then i
    else
      var sum := add(total, utxos[i].value);
      if sum >= target then i + 1 else GreedyEnd(utxos, target, limit, i + 1, sum, add)
  }

  function AddWrapped(a: int, b: int): int { Wrap64(a + b) }

  function AddExact(a: int, b: int): int { a + b }

  function SelectedBy(utxos: seq<Utxo>, target: int, maxInputs: int, add: (int, int) -> int): seq<Utxo> {
    var k := LeadingEnough(utxos, target);
    if k > 0 then [utxos[k - 1]]
    else utxos[..GreedyEnd(utxos, target, Limit(|utxos|, maxInputs), 0, 0, add)]
  }

  /** The selection with the program's int64 additions. */
  function Selected(utxos: seq<Utxo>, target: int, maxInputs: int): seq<Utxo> {
    SelectedBy(utxos, target, maxInputs, AddWrapped)
  }

  /** The selection with unbounded additions. */
  function SelectedExact(utxos: seq<Utxo>, target: int, maxInputs: int): seq<Utxo> {
    SelectedBy(utxos, target, maxInputs, AddExact)
  }

  method SelectUTXOs(utxos: seq<Utxo>, target: int, maxInputs: int) returns (selected: seq<Utxo>)
    ensures selected == Selected(utxos, target, maxInputs)
    ensures maxInputs > 0 ==> |selected| <= maxInputs
  {
    var singleIndex := -1;
    var index := 0;
    while index < |utxos|
      invariant 0 <= index <= |utxos| && singleIndex == index - 1
      invariant forall i :: 0 <= i < index ==> utxos[i].value >= target
    {
      if utxos[index].value >= target {
        singleIndex := index;
        index := index + 1;
        continue;
      }
      break;
    }
    LeadingEnoughUnique(utxos, target, index);
    if singleIndex >= 0 {
      return [utxos[singleIndex]];
    }
    var limit := |utxos|;
    if maxInputs > 0 && limit > maxInputs {
      limit := maxInputs;
    }
    selected := [];
    var total := 0;
    ghost var end := GreedyEnd(utxos, target, limit, 0, 0, AddWrapped);
    var i := 0;
    while i < limit
      invariant 0 <= i <= limit && selected == utxos[..i]
      invariant GreedyEnd(utxos, target, limit, i, total, AddWrapped) == end
    {
      selected := selected + [utxos[i]];
      total := Wrap64(total + utxos[i].value);
      i := i + 1;
      if total >= target {
        break;
      }
    }
  }

  lemma {:induction false} LeadingEnoughUnique(utxos: seq<Utxo>, target: int, k: nat)
    requires k <= |utxos|
    requires forall i :: 0 <= i < k ==> utxos[i].value >= target
    requires k < |utxos| ==> utxos[k].value < target
    ensures LeadingEnough(utxos, target) == k
  {
    if k > 0 {
      LeadingEnoughUnique(utxos[1..], target, k - 1);
    }
  }

  // ---------- sub-collections ----------

  function Total(s: seq<Utxo>): int {
    if s == [] then 0 else Total(s[..|s| - 1]) + s[|s| - 1].value
  }

  /** A sub-collection of the coins is a choice of yes or no for each of them. */
  type Choice = seq<bool>

  function Count(choice: Choice): (n: nat)
    ensures n <= |choice|
  {
    if choice == [] then 0 else Count(choice[..|choice| - 1]) + if choice[|choice| - 1] then 1 else 0
  }

  function Picked(utxos: seq<Utxo>, choice: Choice): int
    requires |choice| == |utxos|
  {
    if choice == [] then 0
    else
      var last := |choice| - 1;
      Picked(utxos[..last], choice[..last]) + if choice[last] then utxos[last].value else 0
  }

  /** The choice keeps to the caller's limit on inputs, if there is one, and is worth the target. */
  ghost predicate Reaches(utxos: seq<Utxo>, choice: Choice, target: int, maxInputs: int) {
    && |choice| == |utxos|
    && (maxInputs <= 0 || Count(choice) <= maxInputs)
    && Picked(utxos, choice) >= target
  }

  predicate Positive(utxos: seq<Utxo>) {
    forall i :: 0 <= i < |utxos| ==> utxos[i].value > 0
  }

  /** Exchange argument: no n coins are worth more than the n greatest. */
  lemma {:induction false} PickedBounded(utxos: seq<Utxo>, choice: Choice)
    requires Descending(utxos) && |choice| == |utxos|
    ensures Picked(utxos, choice) <= Total(utxos[..Count(choice)])
  {
    if choice != [] {
      var last := |choice| - 1;
      var front := utxos[..last];
      PickedBounded(front, choice[..last]);
      var n := Count(choice[..last]);
      assert front[..n] == utxos[..n];
      if choice[last] {
        assert utxos[..n + 1][..n] == utxos[..n];
        assert utxos[n].value >= utxos[last].value;
      }
    }
  }

  /** The choice of the coins from one place up to another. */
  function Interval(n: nat, from: nat, to: nat): (c: Choice)
    ensures |c| == n && forall i :: 0 <= i < n ==> c[i] == (from <= i < to)
  {
    seq(n, i => from <= i < to)
  }

  lemma {:induction false} IntervalCount(n: nat, from: nat, to: nat)
    requires from <= to <= n
    ensures Count(Interval(n, from, to)) == to - from
  {
    hide Interval;
    if n > 0 {
      var choice := Interval(n, from, to);
      var shorter := Interval(n - 1, if from < n then from else n - 1, if to < n then to else n - 1);
      assert choice[..n - 1] == shorter;
      IntervalCount(n - 1, if from < n then from else n - 1, if to < n then to else n - 1);
    }
  }

  lemma {:induction false} IntervalPicked(utxos: seq<Utxo>, from: nat, to: nat)
    requires from <= to <= |utxos|
    ensures Picked(utxos, Interval(|utxos|, from, to)) == Total(utxos[..to]) - Total(utxos[..from])
  {
    hide Interval, Total;
    var n := |utxos|;
    if n > 0 {
      var front := utxos[..n - 1];
      var f, e := if from < n then from else n - 1, if to < n then to else n - 1;
      assert Interval(n, from, to)[..n - 1] == Interval(n - 1, f, e);
      IntervalPicked(front, f, e);
      assert front[..f] == utxos[..f] && front[..e] == utxos[..e];
      TotalStep(utxos, n);
    }
  }

  lemma {:induction false} TotalGrows(utxos: seq<Utxo>, m: nat, n: nat)
    requires Positive(utxos) && m <= n <= |utxos|
    ensures Total(utxos[..m]) + (n - m) <= Total(utxos[..n])
  {
    if m < n {
      TotalGrows(utxos, m, n - 1);
      assert utxos[..n][..n - 1] == utxos[..n - 1];
    }
  }

  /**
   The greedy loop stops at the first prefix that reaches the target, or at the limit; it never
   holds more than twice the target less two.
   */
  lemma {:induction false} GreedyStops(utxos: seq<Utxo>, target: int, limit: nat, i: nat)
    requires Positive(utxos) && i <= limit <= |utxos|
    requires forall j :: 0 <= j < |utxos| ==> utxos[j].value < target
    requires Total(utxos[..i]) < target
    ensures var n := GreedyEnd(utxos, target, limit, i, Total(utxos[..i]), AddExact);
      && (n < limit ==> Total(utxos[..n]) >= target)
      && (n > i ==> Total(utxos[..n - 1]) < target)
      && Total(utxos[..n]) <= 2 * target - 2
    decreases limit - i
  {
    hide Total;
    NonNegativeTotal(utxos, i);
    if i < limit {
      TotalStep(utxos, i + 1);
      if Total(utxos[..i + 1]) < target {
        GreedyStops(utxos, target, limit, i + 1);
      }
    }
  }

  lemma NonNegativeTotal(utxos: seq<Utxo>, i: nat)
    requires Positive(utxos) && i <= |utxos|
    ensures Total(utxos[..i]) >= 0
  {
    TotalGrows(utxos, 0, i);
    assert utxos[..0] == [];
  }

  /** With a target of at most 2^62 no addition of the loop wraps. */
  lemma {:induction false} GreedyFits(utxos: seq<Utxo>, target: int, limit: nat, i: nat, total: int)
    requires Positive(utxos) && i <= limit <= |utxos| && target <= SAFE_TARGET
    requires forall j :: 0 <= j < |utxos| ==> utxos[j].value < target
    requires 0 <= total < target
    ensures GreedyEnd(utxos, target, limit, i, total, AddWrapped) == GreedyEnd(utxos, target, limit, i, total, AddExact)
    decreases limit - i
  {
    if i < limit && total + utxos[i].value < target {
      GreedyFits(utxos, target, limit, i + 1, total + utxos[i].value);
    }
  }

  lemma AllBelow(utxos: seq<Utxo>, target: int)
    requires Descending(utxos) && LeadingEnough(utxos, target) == 0
    ensures forall j :: 0 <= j < |utxos| ==> utxos[j].value < target
  {
  }

  lemma SmallestSufficient(utxos: seq<Utxo>, target: int)
    requires Descending(utxos) && LeadingEnough(utxos, target) > 0
    ensures var coin := utxos[LeadingEnough(utxos, target) - 1];
      coin.value >= target && forall u <- utxos :: u.value >= target ==> coin.value <= u.value
  {
    var k := LeadingEnough(utxos, target);
    assert forall i :: k <= i < |utxos| ==> utxos[i].value < target;
    forall i | 0 <= i < |utxos| && utxos[i].value >= target
      ensures utxos[k - 1].value <= utxos[i].value
    {
    }
  }

  lemma TotalOfOne(u: Utxo)
    ensures Total([u]) == u.value
  {
    assert [u][..0] == [];
  }

  /**
   What is selected when no single coin will do, without the loop: the coins from the front, up to
   the first prefix that reaches the target, the input limit or the end of the list.
   */
  lemma GreedySelection(utxos: seq<Utxo>, target: int, maxInputs: int)
    requires Positive(utxos) && target > 0 && forall i :: 0 <= i < |utxos| ==> utxos[i].value < target
    ensures var sel := SelectedExact(utxos, target, maxInputs);
      && |sel| <= |utxos| && sel == utxos[..|sel|]
      && (maxInputs > 0 ==> |sel| <= maxInputs)
      && (|sel| < |utxos| && (maxInputs <= 0 || |sel| < maxInputs) ==> Total(sel) >= target)
      && (|sel| > 0 ==> Total(utxos[..|sel| - 1]) < target)
      && Total(sel) <= 2 * target - 2
    ensures target <= SAFE_TARGET ==> Selected(utxos, target, maxInputs) == SelectedExact(utxos, target, maxInputs)
  {
    hide GreedyEnd, Total;
    var limit := Limit(|utxos|, maxInputs);
    assert utxos[..0] == [];
    assert Total([]) == 0 by { TotalOfNone(); }
    GreedyStops(utxos, target, limit, 0);
    if target <= SAFE_TARGET {
      GreedyFits(utxos, target, limit, 0, 0);
    }
  }

  /** If the first coin is worth the target, the last coin of the leading ones that are is selected alone. */
  lemma SingleSelection(utxos: seq<Utxo>, target: int, maxInputs: int) returns (k: nat)
    requires utxos != [] && utxos[0].value >= target
    ensures k < |utxos| && forall i :: 0 <= i <= k ==> utxos[i].value >= target
    ensures k + 1 < |utxos| ==> utxos[k + 1].value < target
    ensures Selected(utxos, target, maxInputs) == SelectedExact(utxos, target, maxInputs) == [utxos[k]]
  {
    k := LeadingEnough(utxos, target) - 1;
  }

  /** The program never selects more coins than the caller allows, and none that are not listed. */
  lemma SelectionWithin(utxos: seq<Utxo>, target: int, maxInputs: int)
    ensures maxInputs > 0 ==> |Selected(utxos, target, maxInputs)| <= maxInputs
    ensures forall u <- Selected(utxos, target, maxInputs) :: u in utxos
  {
    hide LeadingEnough, GreedyEnd;
  }

  lemma TotalOfNone()
    ensures Total([]) == 0
  {
  }

  /** The selection reaches the target exactly when some allowed sub-collection does. */
  lemma SelectionFeasible(utxos: seq<Utxo>, target: int, maxInputs: int)
    requires Descending(utxos) && Positive(utxos)
    ensures Total(SelectedExact(utxos, target, maxInputs)) >= target
       <==> exists choice: Choice :: Reaches(utxos, choice, target, maxInputs)
  {
    if LeadingEnough(utxos, target) > 0 {
      SingleReaches(utxos, target, maxInputs);
    } else if target > 0 {
      GreedyFeasible(utxos, target, maxInputs);
    } else {
      assert utxos == [];
      assert Reaches(utxos, [], target, maxInputs);
    }
  }

  lemma SingleReaches(utxos: seq<Utxo>, target: int, maxInputs: int)
    requires Descending(utxos) && LeadingEnough(utxos, target) > 0
    ensures Total(SelectedExact(utxos, target, maxInputs)) >= target
    ensures exists choice: Choice :: Reaches(utxos, choice, target, maxInputs)
  {
    hide LeadingEnough, GreedyEnd, Total, Picked, Count;
    var k := LeadingEnough(utxos, target);
    TotalOfOne(utxos[k - 1]);
    SmallestSufficient(utxos, target);
    var choice := Interval(|utxos|, k - 1, k);
    IntervalCount(|utxos|, k - 1, k);
    IntervalPicked(utxos, k - 1, k);
    TotalStep(utxos, k);
    assert Reaches(utxos, choice, target, maxInputs);
  }

  lemma GreedyFeasible(utxos: seq<Utxo>, target: int, maxInputs: int)
    requires Descending(utxos) && Positive(utxos) && target > 0 && LeadingEnough(utxos, target) == 0
    ensures Total(SelectedExact(utxos, target, maxInputs)) >= target
       <==> exists choice: Choice :: Reaches(utxos, choice, target, maxInputs)
  {
    hide LeadingEnough, GreedyEnd, Total, Picked, Count;
    var sel := SelectedExact(utxos, target, maxInputs);
    var limit := Limit(|utxos|, maxInputs);
    GreedySelection(utxos, target, maxInputs);
    if Total(sel) >= target {
      var choice := Interval(|utxos|, 0, |sel|);
      IntervalCount(|utxos|, 0, |sel|);
      IntervalPicked(utxos, 0, |sel|);
      TotalOfNone();
      assert utxos[..0] == [];
      assert Reaches(utxos, choice, target, maxInputs);
    }
    forall choice: Choice | Reaches(utxos, choice, target, maxInputs)
      ensures Total(sel) >= target
    {
      PickedBounded(utxos, choice);
      TotalGrows(utxos, Count(choice), limit);
      assert |sel| == limit ==> sel == utxos[..limit];
    }
  }

  lemma TotalStep(utxos: seq<Utxo>, k: nat)
    requires 0 < k <= |utxos|
    ensures Total(utxos[..k]) == Total(utxos[..k - 1]) + utxos[k - 1].value
  {
    assert utxos[..k][..k - 1] == utxos[..k - 1];
  }

  /** No allowed sub-collection that reaches the target is smaller; one coin is the least sufficient one. */
  lemma SelectionMinimal(utxos: seq<Utxo>, target: int, maxInputs: int)
    requires Descending(utxos) && Positive(utxos) && target > 0
    ensures forall choice: Choice | Reaches(utxos, choice, target, maxInputs) ::
      |SelectedExact(utxos, target, maxInputs)| <= Count(choice)
    ensures var sel := SelectedExact(utxos, target, maxInputs);
      |sel| == 1 && Total(sel) >= target ==>
        sel[0] in utxos && forall u <- utxos :: u.value >= target ==> sel[0].value <= u.value
  {
    hide LeadingEnough, GreedyEnd, Total, Picked, Count;
    var sel := SelectedExact(utxos, target, maxInputs);
    var k := LeadingEnough(utxos, target);
    forall choice: Choice | Reaches(utxos, choice, target, maxInputs)
      ensures |sel| <= Count(choice)
    {
      PickedBounded(utxos, choice);
      assert Total(utxos[..Count(choice)]) >= target;
      TotalOfNone();
      assert utxos[..0] == [];
      if k == 0 {
        GreedySelection(utxos, target, maxInputs);
        if Count(choice) < |sel| {
          TotalGrows(utxos, Count(choice), |sel| - 1);
        }
      }
    }
    if k > 0 {
      SmallestSufficient(utxos, target);
    } else if |sel| == 1 {
      GreedySelection(utxos, target, maxInputs);
      TotalOfOne(sel[0]);
      AllBelow(utxos, target);
      assert sel[0] == utxos[0];
    }
  }

  lemma {:induction false} GreedyEndGrows(utxos: seq<Utxo>, low: int, high: int, limit: nat, i: nat, total: int,
                                          add: (int, int) -> int)
    requires low <= high && i <= limit <= |utxos|
    ensures GreedyEnd(utxos, low, limit, i, total, add) <= GreedyEnd(utxos, high, limit, i, total, add)
    decreases limit - i
  {
    if i < limit {
      GreedyEndGrows(utxos, low, high, limit, i + 1, add(total, utxos[i].value), add);
    }
  }

  lemma MonotoneBy(utxos: seq<Utxo>, low: int, high: int, maxInputs: int, add: (int, int) -> int)
    requires Descending(utxos) && Positive(utxos) && low <= high
    ensures |SelectedBy(utxos, low, maxInputs, add)| <= |SelectedBy(utxos, high, maxInputs, add)|
    ensures Total(SelectedBy(utxos, low, maxInputs, add)) <= Total(SelectedBy(utxos, high, maxInputs, add))
  {
    hide LeadingEnough, Total;
    var limit := Limit(|utxos|, maxInputs);
    var k1, k2 := LeadingEnough(utxos, low), LeadingEnough(utxos, high);
    if k2 > 0 {
      SmallestSufficient(utxos, low);
      TotalOfOne(utxos[k1 - 1]);
      TotalOfOne(utxos[k2 - 1]);
      assert utxos[k2 - 1] in utxos;
    } else if k1 > 0 {
      var n := GreedyEnd(utxos, high, limit, 0, 0, add);
      assert n > 0;
      FirstWithin(utxos, n);
      TotalOfOne(utxos[k1 - 1]);
    } else {
      GreedyEndGrows(utxos, low, high, limit, 0, 0, add);
      TotalGrows(utxos, GreedyEnd(utxos, low, limit, 0, 0, add), GreedyEnd(utxos, high, limit, 0, 0, add));
    }
  }

  /** A higher target never selects fewer coins or a smaller total, even where int64 additions wrap. */
  lemma SelectionMonotone(utxos: seq<Utxo>, low: int, high: int, maxInputs: int)
    requires Descending(utxos) && Positive(utxos) && low <= high
    ensures |Selected(utxos, low, maxInputs)| <= |Selected(utxos, high, maxInputs)|
    ensures Total(Selected(utxos, low, maxInputs)) <= Total(Selected(utxos, high, maxInputs))
    ensures |SelectedExact(utxos, low, maxInputs)| <= |SelectedExact(utxos, high, maxInputs)|
    ensures Total(SelectedExact(utxos, low, maxInputs)) <= Total(SelectedExact(utxos, high, maxInputs))
  {
    hide LeadingEnough, GreedyEnd, Total, SelectedBy;
    MonotoneBy(utxos, low, high, maxInputs, AddWrapped);
    MonotoneBy(utxos, low, high, maxInputs, AddExact);
  }

  lemma FirstWithin(utxos: seq<Utxo>, limit: nat)
    requires Positive(utxos) && 0 < limit <= |utxos|
    ensures Total(utxos[..limit]) >= utxos[0].value
  {
    TotalGrows(utxos, 1, limit);
    TotalOfOne(utxos[0]);
    assert utxos[..1] == [utxos[0]];
  }

  // ---------- int64 ----------

  ghost predicate CoinList(utxos: seq<Utxo>) {
    && Descending(utxos) && Positive(utxos)
    && forall i :: 0 <= i < |utxos| ==> IsInt64(utxos[i].value) && IsTransactionID(utxos[i].txid)
  }

  /** What ListUnspent gives for int64 values is a coin list. */
  lemma ListedCoins(response: seq<Utxo>, inc: bool)
    requires forall u <- response :: IsInt64(u.value)
    ensures CoinList(Listed(response, inc))
  {
    hide IsTransactionID, Listed;
    ListedOrdered(response, inc);
    assert forall i :: 0 <= i < |Listed(response, inc)| ==> Listed(response, inc)[i] in Listed(response, inc);
  }

  /**
   Up to 2^62 the int64 loop selects what unbounded arithmetic would, with a total it can hold;
   above it some coin list makes the running total wrap and changes the selection.
   */
  lemma OverflowBoundary(target: int)
    requires IsInt64(target)
    ensures (forall utxos: seq<Utxo>, maxInputs: int | CoinList(utxos) ::
               Selected(utxos, target, maxInputs) == SelectedExact(utxos, target, maxInputs))
       <==> target <= SAFE_TARGET
  {
    if target <= SAFE_TARGET {
      forall utxos: seq<Utxo>, maxInputs: int | CoinList(utxos)
        ensures Selected(utxos, target, maxInputs) == SelectedExact(utxos, target, maxInputs)
      {
        SelectionFits(utxos, target, maxInputs);
      }
    } else {
      var utxos := WrappingCoins(target);
      assert CoinList(utxos);
      assert Selected(utxos, target, 0) != SelectedExact(utxos, target, 0) by {
        WrapsAbove(target);
      }
    }
  }

  lemma SelectionFits(utxos: seq<Utxo>, target: int, maxInputs: int)
    requires CoinList(utxos) && target <= SAFE_TARGET
    ensures Selected(utxos, target, maxInputs) == SelectedExact(utxos, target, maxInputs)
    ensures IsInt64(Total(Selected(utxos, target, maxInputs)))
    ensures 0 <= Total(Selected(utxos, target, maxInputs))
  {
    hide LeadingEnough, GreedyEnd, Total;
    var k := LeadingEnough(utxos, target);
    if k > 0 {
      TotalOfOne(utxos[k - 1]);
    } else if target <= 0 {
      assert utxos == [];
      TotalOfNone();
    } else {
      GreedySelection(utxos, target, maxInputs);
      TotalGrows(utxos, 0, |SelectedExact(utxos, target, maxInputs)|);
      assert utxos[..0] == [];
      TotalOfNone();
    }
  }

  function WrappingCoins(target: int): seq<Utxo> {
    var status := Status(true, 1, "", 1);
    var id := seq(64, _ => 'a');
    [Utxo(id, 0, target - 1, status), Utxo(id, 1, target - 1, status), Utxo(id, 2, 1, status)]
  }

  lemma WrapsAbove(target: int)
    requires SAFE_TARGET < target <= MAX_INT64
    ensures |SelectedExact(WrappingCoins(target), target, 0)| == 2
    ensures |Selected(WrappingCoins(target), target, 0)| == 3
  {
    var utxos := WrappingCoins(target);
    assert LeadingEnough(utxos, target) == 0;
    assert Wrap64(target - 1 + (target - 1)) < 0;
    assert GreedyEnd(utxos, target, 3, 1, target - 1, AddExact) == 2;
    assert GreedyEnd(utxos, target, 3, 2, Wrap64(target - 1 + (target - 1)), AddWrapped) == 3;
    assert GreedyEnd(utxos, target, 3, 1, target - 1, AddWrapped) == 3;
  }

  /** The sum as the program adds it up. */
  function WrappedTotal(s: seq<Utxo>): int {
    if s == [] then 0 else Wrap64(WrappedTotal(s[..|s| - 1]) + s[|s| - 1].value)
  }

  lemma {:induction false} WrappedTotalExact(s: seq<Utxo>, n: nat)
    requires n <= |s| && Positive(s) && IsInt64(Total(s))
    ensures WrappedTotal(s[..n]) == Total(s[..n])
  {
    assert s[..|s|] == s;
    TotalGrows(s, n, |s|);
    NonNegativeTotal(s, n);
    if n > 0 {
      WrappedTotalExact(s, n - 1);
      assert s[..n][..n - 1] == s[..n - 1];
    }
  }

  lemma SelectionPositive(utxos: seq<Utxo>, target: int, maxInputs: int)
    requires CoinList(utxos)
    ensures CoinList(Selected(utxos, target, maxInputs))
  {
    hide LeadingEnough, GreedyEnd, IsTransactionID;
  }

  /** What the program looks at: whether its int64 sum of the selection reaches the target. */
  predicate Funded(utxos: seq<Utxo>, target: int, maxInputs: int) {
    WrappedTotal(Selected(utxos, target, maxInputs)) >= target
  }

  lemma FundedFits(utxos: seq<Utxo>, target: int, maxInputs: int)
    requires CoinList(utxos) && target <= SAFE_TARGET
    ensures WrappedTotal(Selected(utxos, target, maxInputs)) == Total(SelectedExact(utxos, target, maxInputs))
    ensures Funded(utxos, target, maxInputs) <==> exists choice: Choice :: Reaches(utxos, choice, target, maxInputs)
  {
    hide Total, WrappedTotal, Selected, SelectedExact, Reaches;
    var selected := Selected(utxos, target, maxInputs);
    SelectionFits(utxos, target, maxInputs);
    SelectionPositive(utxos, target, maxInputs);
    WrappedTotalExact(selected, |selected|);
    assert selected[..|selected|] == selected;
    SelectionFeasible(utxos, target, maxInputs);
  }

  lemma FirstTwoReach(target: int)
    requires SAFE_TARGET < target
    ensures Reaches(WrappingCoins(target), [true, true, false], target, 0) && Count([true, true, false]) == 2
  {
    hide IsTransactionID;
    var utxos, choice := WrappingCoins(target), [true, true, false];
    assert choice[..2] == [true, true] && [true, true][..1] == [true] && [true][..0] == [];
    assert utxos[..2][..1] == utxos[..1];
    assert Picked(utxos[..1], [true]) == target - 1;
    assert Picked(utxos[..2], [true, true]) == 2 * (target - 1);
    assert Count([true]) == 1 && Count([true, true]) == 2;
  }

  lemma SumWraps(target: int)
    requires SAFE_TARGET < target <= MAX_INT64
    ensures WrappedTotal(WrappingCoins(target)) < target
  {
    var utxos := WrappingCoins(target);
    assert utxos[..2][..1] == utxos[..1] && utxos[..1][..0] == [];
    assert WrappedTotal(utxos[..1]) == target - 1;
    assert WrappedTotal(utxos[..2]) == Wrap64(2 * (target - 1)) < 0;
  }

  /** The first two of the wrapping coins would do, but the program sees a shortfall with all three. */
  lemma WrappingMisses(target: int)
    requires SAFE_TARGET < target <= MAX_INT64
    ensures var utxos, choice := WrappingCoins(target), [true, true, false];
      && CoinList(utxos) && Reaches(utxos, choice, target, 0) && Count(choice) == 2
      && |Selected(utxos, target, 0)| == 3 && !Funded(utxos, target, 0)
  {
    hide Reaches, Count, WrappedTotal, GreedyEnd, Wrap64, LeadingEnough;
    var utxos := WrappingCoins(target);
    WrapsAbove(target);
    FirstTwoReach(target);
    SumWraps(target);
    assert utxos[..3] == utxos;
  }

  /**
   The program reports a shortfall exactly when no allowed sub-collection reaches the target, on
   every coin list, if and only if the target is at most 2^62: above, it reports false shortfalls.
   */
  lemma ShortfallBoundary(target: int)
    requires IsInt64(target)
    ensures (forall utxos: seq<Utxo>, maxInputs: int | CoinList(utxos) ::
               Funded(utxos, target, maxInputs) <==> exists choice: Choice :: Reaches(utxos, choice, target, maxInputs))
       <==> target <= SAFE_TARGET
  {
    hide Funded, Reaches, CoinList;
    if target <= SAFE_TARGET {
      forall utxos: seq<Utxo>, maxInputs: int | CoinList(utxos)
        ensures Funded(utxos, target, maxInputs) <==> exists choice: Choice :: Reaches(utxos, choice, target, maxInputs)
      {
        FundedFits(utxos, target, maxInputs);
      }
    } else {
      WrappingMisses(target);
    }
  }

  /** The program selects as few coins as any allowed sub-collection, exactly for targets up to 2^62. */
  lemma FewestBoundary(target: int)
    requires 0 < target <= MAX_INT64
    ensures (forall utxos: seq<Utxo>, maxInputs: int, choice: Choice |
               CoinList(utxos) && Reaches(utxos, choice, target, maxInputs) ::
               |Selected(utxos, target, maxInputs)| <= Count(choice))
       <==> target <= SAFE_TARGET
  {
    hide Selected, SelectedExact, Reaches, Count;
    if target <= SAFE_TARGET {
      forall utxos: seq<Utxo>, maxInputs: int, choice: Choice | CoinList(utxos) && Reaches(utxos, choice, target, maxInputs)
        ensures |Selected(utxos, target, maxInputs)| <= Count(choice)
      {
        SelectionFits(utxos, target, maxInputs);
        SelectionMinimal(utxos, target, maxInputs);
      }
    } else {
      WrappingMisses(target);
      assert CoinList(WrappingCoins(target));
    }
  }

  // ---------- the input source ----------

  type Script = string

  datatype Input = Input(outpoint: (string, nat), sequence: nat)

  datatype SourceError = InvalidID(txid: string) | Insufficient(required: int, available: int)

  datatype Sourced = Sourced(total: int, inputs: seq<Input>, values: seq<int>, scripts: seq<Script>, error: Option<SourceError>)

  /** One input, value and script for each coin, in order. */
  ghost predicate InputsOf(r: Sourced, coins: seq<Utxo>, pkScript: Script, sequence: nat) {
    && |r.inputs| == |r.values| == |r.scripts| == |coins|
    && forall i :: 0 <= i < |coins| ==>
         r.inputs[i] == Input(Outpoint(coins[i]), sequence) && r.values[i] == coins[i].value && r.scripts[i] == pkScript
  }

  /**
   Turns the selection into transaction inputs, or reports by how much it falls short. On a listed
   coin collection and up to 2^62 the report is right (ShortfallBoundary).
   */
  method InputSource(utxos: seq<Utxo>, pkScript: Script, sequence: nat, maxInputs: int, target: int) returns (r: Sourced)
    ensures (exists i :: 0 <= i < |Selected(utxos, target, maxInputs)|
                         && !IsTransactionID(Selected(utxos, target, maxInputs)[i].txid))
       <==> r.error.Some? && r.error.value.InvalidID?
    ensures r.error.Some? && r.error.value.InvalidID? ==> r.total == 0 && InputsOf(r, [], pkScript, sequence)
    ensures r.error.None? || r.error.value.Insufficient? ==> InputsOf(r, Selected(utxos, target, maxInputs), pkScript, sequence)
    ensures !(r.error.Some? && r.error.value.InvalidID?) ==>
      && r.total == WrappedTotal(Selected(utxos, target, maxInputs))
      && r.error == if Funded(utxos, target, maxInputs) then None else Some(Insufficient(target, r.total))
    ensures CoinList(utxos) && target <= SAFE_TARGET ==>
      && r.total == Total(Selected(utxos, target, maxInputs))
      && (r.error == None <==> exists choice: Choice :: Reaches(utxos, choice, target, maxInputs))
      && (r.error != None <==> r.error == Some(Insufficient(target, r.total)) && r.total < target)
  {
    hide IsTransactionID, Outpoint, LeadingEnough, GreedyEnd, Total, Picked, Count, Limit;
    var selected := SelectUTXOs(utxos, target, maxInputs);
    var inputs: seq<Input>, values: seq<int>, scripts: seq<Script> := [], [], [];
    var total := 0;
    for i := 0 to |selected|
      invariant |inputs| == |values| == |scripts| == i
      invariant forall j :: 0 <= j < i ==>
        && IsTransactionID(selected[j].txid)
        && inputs[j] == Input(Outpoint(selected[j]), sequence) && values[j] == selected[j].value && scripts[j] == pkScript
      invariant total == WrappedTotal(selected[..i])
    {
      var utxo := selected[i];
      if !IsTransactionID(utxo.txid) {
        return Sourced(0, [], [], [], Some(InvalidID(utxo.txid)));
      }
      inputs := inputs + [Input(Outpoint(utxo), sequence)];
      values := values + [utxo.value];
      scripts := scripts + [pkScript];
      total := Wrap64(total + utxo.value);
      assert selected[..i + 1][..i] == selected[..i];
    }
    assert selected[..|selected|] == selected;
    if CoinList(utxos) && target <= SAFE_TARGET {
      SelectionFits(utxos, target, maxInputs);
      SelectionPositive(utxos, target, maxInputs);
      FundedFits(utxos, target, maxInputs);
    }
    if total < target {
      return Sourced(total, inputs, values, scripts, Some(Insufficient(target, total)));
    }
    return Sourced(total, inputs, values, scripts, None);
  }
}
