/** The winner rule of internal/auction/state.go: highest AmountOut, ties by highest GasPrice. */
module WinnerSelection {
  import opened Core

  /** Both amounts are present, so comparing the bid cannot dereference nil. */
  predicate Priced(b: Bid) {
    b.amountOut.Some? && b.gasPrice.Some?
  }

  predicate AllPriced(bids: seq<Bid>) {
    forall i | 0 <= i < |bids| :: Priced(bids[i])
  }

  predicate Outbids(b: Bid, w: Bid)
    requires Priced(b) && Priced(w)
  {
    || b.amountOut.value > w.amountOut.value
    || (b.amountOut.value == w.amountOut.value && b.gasPrice.value > w.gasPrice.value)
  }

  /** Position k holds the earliest-arrived lexicographic maximum. */
  ghost predicate WinsAt(bids: seq<Bid>, k: nat)
    requires AllPriced(bids)
  {
    && k < |bids|
    && (forall j | 0 <= j < k :: Outbids(bids[k], bids[j]))
    && (forall j | k <= j < |bids| :: !Outbids(bids[j], bids[k]))
  }

  ghost predicate IsWinner(bids: seq<Bid>, w: Option<Bid>)
    requires AllPriced(bids)
  {
    match w
    case None => bids == []
    case Some(b) => exists k: nat :: WinsAt(bids, k) && bids[k] == b
  }

  /** One iteration of the selection loop would not dereference a nil amount. */
  predicate Comparable(winner: Option<Bid>, b: Bid) {
    winner.Some? ==> Priced(winner.value) && Priced(b)
  }

  /** One iteration of the selection loop. */
  function Keep(winner: Option<Bid>, b: Bid): Option<Bid>
    requires Comparable(winner, b)
  {
    if winner.None? || Outbids(b, winner.value) then Some(b) else winner
  }

  /** The loop after its first k iterations. */
  function Scan(bids: seq<Bid>, k: nat): (w: Option<Bid>)
    requires AllPriced(bids) && k <= |bids|
    ensures w.Some? ==> Priced(w.value)
  {
    if k == 0 then None else Keep(Scan(bids, k - 1), bids[k - 1])
  }

  /** The loop's result. */
  function Winner(bids: seq<Bid>): Option<Bid>
    requires AllPriced(bids)
  {
    Scan(bids, |bids|)
  }

  /** After n iterations the loop holds the earliest maximum of the first n bids; k is where it arrived. */
  lemma {:induction false} ScanFindsTheEarliestMaximum(bids: seq<Bid>, n: nat) returns (k: nat)
    requires AllPriced(bids) && 0 < n <= |bids|
    ensures k < n && Scan(bids, n) == Some(bids[k])
    ensures forall j | 0 <= j < k :: Outbids(bids[k], bids[j])
    ensures forall j | k <= j < n :: !Outbids(bids[j], bids[k])
  {
    k := 0;
    if n > 1 {
      k := ScanFindsTheEarliestMaximum(bids, n - 1);
      if Outbids(bids[n - 1], bids[k]) {
        k := n - 1;
      }
    }
  }

  /** The loop yields the earliest lexicographic maximum, and nothing only for no bids. */
  lemma WinnerMeetsTheRule(bids: seq<Bid>)
    requires AllPriced(bids)
    ensures IsWinner(bids, Winner(bids))
  {
    if bids != [] {
      var k := ScanFindsTheEarliestMaximum(bids, |bids|);
      assert WinsAt(bids, k);
    }
  }

  /** The winner is one of the bids; no bid offers more, and none that offers as much pays more for gas. */
  lemma WinnerIsMaximal(bids: seq<Bid>, w: Bid)
    requires AllPriced(bids) && IsWinner(bids, Some(w))
    ensures w in bids && Priced(w)
    ensures forall b | b in bids ::
              && Priced(b)
              && b.amountOut.value <= w.amountOut.value
              && (b.amountOut.value == w.amountOut.value ==> b.gasPrice.value <= w.gasPrice.value)
  {
    var k: nat :| WinsAt(bids, k) && bids[k] == w;
    forall b | b in bids
      ensures Priced(b)
      ensures b.amountOut.value <= w.amountOut.value
      ensures b.amountOut.value == w.amountOut.value ==> b.gasPrice.value <= w.gasPrice.value
    {
      var i :| 0 <= i < |bids| && bids[i] == b;
      if i < k {
        assert Outbids(bids[k], bids[i]);
      }
    }
  }

  /**
   The same rule on the numbers, with the order of arrival: whatever came before the winner offers less, or as
   much with a lower gas price, and whatever came after it does not offer more.
   */
  lemma WinnerArrivedFirst(bids: seq<Bid>, w: Bid) returns (k: nat)
    requires AllPriced(bids) && IsWinner(bids, Some(w))
    ensures k < |bids| && bids[k] == w && Priced(w)
    ensures forall j | 0 <= j < k ::
              && Priced(bids[j])
              && (|| bids[j].amountOut.value < w.amountOut.value
                  || (bids[j].amountOut.value == w.amountOut.value && bids[j].gasPrice.value < w.gasPrice.value))
    ensures forall j | k <= j < |bids| ::
              && Priced(bids[j])
              && (|| bids[j].amountOut.value < w.amountOut.value
                  || (bids[j].amountOut.value == w.amountOut.value && bids[j].gasPrice.value <= w.gasPrice.value))
  {
    k :| WinsAt(bids, k) && bids[k] == w;
  }

  /** The rule determines the winner, so two implementations that meet it agree. */
  lemma WinnerIsUnique(bids: seq<Bid>, v: Option<Bid>, w: Option<Bid>)
    requires AllPriced(bids) && IsWinner(bids, v) && IsWinner(bids, w)
    ensures v == w
  {
    if v.Some? && w.Some? {
      var i: nat :| WinsAt(bids, i) && bids[i] == v.value;
      var j: nat :| WinsAt(bids, j) && bids[j] == w.value;
      assert i == j;
    }
  }

  /** The winning price does not depend on the order in which the bids arrived. */
  lemma WinningPriceIgnoresArrivalOrder(a: seq<Bid>, b: seq<Bid>)
    requires AllPriced(a) && AllPriced(b) && multiset(a) == multiset(b)
    ensures Winner(a).Some? <==> Winner(b).Some?
    ensures Winner(a).Some? ==>
              && Winner(a).value.amountOut == Winner(b).value.amountOut
              && Winner(a).value.gasPrice == Winner(b).value.gasPrice
  {
    assert |multiset(a)| == |a| && |multiset(b)| == |b|;
    WinnerMeetsTheRule(a);
    WinnerMeetsTheRule(b);
    if a != [] {
      var v, w := Winner(a).value, Winner(b).value;
      WinnerIsMaximal(a, v);
      WinnerIsMaximal(b, w);
      assert v in multiset(b) && w in multiset(a);
    }
  }

  /** No step looks at the minimum the user asked for: the winner meets it iff some bid did. */
  lemma WinnerMeetsMinimumIffSomeBidDoes(bids: seq<Bid>, w: Option<Bid>, minimum: int)
    requires AllPriced(bids) && IsWinner(bids, w)
    ensures (w.Some? && Priced(w.value) && w.value.amountOut.value >= minimum)
            <==> exists b :: b in bids && Priced(b) && b.amountOut.value >= minimum
  {
    if w.Some? {
      WinnerIsMaximal(bids, w.value);
    }
  }
}
