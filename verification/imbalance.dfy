/** The order-book imbalance probe (`detect_ghost_behaviour`): the signed
    percentage skew between the quantities on the top levels of the two sides. */
module OrderBookProbe {
  import opened Options
  import opened Rounding

  /** One `[price, quantity]` entry of a book side. */
  datatype Level = Level(price: real, qty: real)

  /** A fetched order book; a side missing from the response is empty. */
  datatype OrderBook = OrderBook(buy: seq<Level>, sell: seq<Level>)

  /** Number of levels per side that enter the sums. */
  const Depth: nat := 8

  /** `side[:8]` */
  function Top(side: seq<Level>): (t: seq<Level>)
    ensures |t| <= Depth && |t| <= |side|
    ensures |t| == if |side| <= Depth then |side| else Depth
    ensures t == side[..|t|]
    ensures |side| <= Depth ==> t == side
  {
    if |side| <= Depth then side else side[..Depth]
  }

  /** Sum of the quantities of a side. */
  function QtySum(side: seq<Level>): real {
    if |side| == 0 then 0.0 else QtySum(side[..|side| - 1]) + side[|side| - 1].qty
  }

  ghost predicate NonNegative(side: seq<Level>) {
    forall i :: 0 <= i < |side| ==> side[i].qty >= 0.0
  }

  lemma {:induction false} QtySumNonNegative(side: seq<Level>)
    requires NonNegative(side)
    ensures QtySum(side) >= 0.0
  {
    if |side| > 0 {
      QtySumNonNegative(side[..|side| - 1]);
    }
  }

  /** Summed buy and sell quantities of the top levels. */
  function BuyDepth(ob: OrderBook): real { QtySum(Top(ob.buy)) }
  function SellDepth(ob: OrderBook): real { QtySum(Top(ob.sell)) }

  /** The unrounded ratio (buy - sell) / (buy + sell) in percent. */
  function Ratio(buy: real, sell: real): real
    requires buy + sell != 0.0
  {
    (buy - sell) / (buy + sell) * 100.0
  }

  /** `detect_ghost_behaviour`: 0 when the fetch yields nothing or both sums
      are zero; otherwise the percentage rounded to one decimal. */
  function Imbalance(fetched: Option<OrderBook>): (r: real)
    ensures fetched.None? ==> r == 0.0
    ensures fetched.Some? && BuyDepth(fetched.value) + SellDepth(fetched.value) == 0.0 ==> r == 0.0
    ensures fetched.Some? && BuyDepth(fetched.value) + SellDepth(fetched.value) != 0.0 ==>
              var x := Ratio(BuyDepth(fetched.value), SellDepth(fetched.value));
              x - 0.05 <= r <= x + 0.05
  {
    match fetched
    case None => 0.0
    case Some(ob) =>
      var buy := BuyDepth(ob);
      var sell := SellDepth(ob);
      if buy + sell == 0.0 then 0.0 else Round1(Ratio(buy, sell))
  }

  /** With non-negative quantities the ratio is a percentage. */
  lemma RatioBounded(buy: real, sell: real)
    requires buy >= 0.0 && sell >= 0.0 && buy + sell != 0.0
    ensures -100.0 <= Ratio(buy, sell) <= 100.0
    ensures Ratio(buy, sell) > 0.0 <==> buy > sell
    ensures Ratio(buy, sell) < 0.0 <==> buy < sell
  {
    var q := (buy - sell) / (buy + sell);
    QuotientBounds(buy - sell, buy + sell);
    assert Ratio(buy, sell) == q * 100.0;
  }

  /** A quotient `a / t` with `|a| <= t` lies in [-1, 1] and has the sign of `a`. */
  lemma QuotientBounds(a: real, t: real)
    requires t > 0.0 && -t <= a <= t
    ensures -1.0 <= a / t <= 1.0
    ensures a / t > 0.0 <==> a > 0.0
    ensures a / t < 0.0 <==> a < 0.0
  {
    var q := a / t;
    assert q * t == a;
    assert (q - 1.0) * t == q * t - t;
    assert (q + 1.0) * t == q * t + t;
    ProductSign(q - 1.0, t);
    ProductSign(q + 1.0, t);
    ProductSign(q, t);
  }

  /** Multiplying by a positive number keeps the sign. */
  lemma ProductSign(a: real, b: real)
    requires b > 0.0
    ensures a > 0.0 ==> a * b > 0.0
    ensures a < 0.0 ==> a * b < 0.0
  {
  }

  /** For non-negative quantities the imbalance lies in [-100, 100]. */
  lemma ImbalanceBounded(ob: OrderBook)
    requires NonNegative(ob.buy) && NonNegative(ob.sell)
    ensures -100.0 <= Imbalance(Some(ob)) <= 100.0
  {
    QtySumNonNegative(Top(ob.buy));
    QtySumNonNegative(Top(ob.sell));
    var buy, sell := BuyDepth(ob), SellDepth(ob);
    if buy + sell != 0.0 {
      RatioBounded(buy, sell);
      Round1KeepsIntegerLowerBound(Ratio(buy, sell), -100);
      Round1KeepsIntegerUpperBound(Ratio(buy, sell), 100);
    }
  }

  /** For non-negative quantities the sign of the imbalance follows buy - sell.
      Rounding to one decimal can turn a small skew into 0, so a positive
      (negative) result implies more (less) buy than sell depth, balanced
      depth gives 0, and more buy depth never gives a negative result. */
  lemma ImbalanceSign(ob: OrderBook)
    requires NonNegative(ob.buy) && NonNegative(ob.sell)
    ensures Imbalance(Some(ob)) > 0.0 ==> BuyDepth(ob) > SellDepth(ob)
    ensures Imbalance(Some(ob)) < 0.0 ==> BuyDepth(ob) < SellDepth(ob)
    ensures BuyDepth(ob) == SellDepth(ob) ==> Imbalance(Some(ob)) == 0.0
    ensures BuyDepth(ob) > SellDepth(ob) ==> Imbalance(Some(ob)) >= 0.0
    ensures BuyDepth(ob) < SellDepth(ob) ==> Imbalance(Some(ob)) <= 0.0
  {
    QtySumNonNegative(Top(ob.buy));
    QtySumNonNegative(Top(ob.sell));
    var buy, sell := BuyDepth(ob), SellDepth(ob);
    if buy + sell != 0.0 {
      RatioBounded(buy, sell);
      var x := Ratio(buy, sell);
      if buy == sell {
        assert x == 0.0;
        RoundHalfEvenIntegral(0);
      }
      if buy > sell {
        Round1KeepsIntegerLowerBound(x, 0);
      }
      if buy < sell {
        Round1KeepsIntegerUpperBound(x, 0);
      }
      if Imbalance(Some(ob)) > 0.0 && buy <= sell {
        Round1KeepsIntegerUpperBound(x, 0);
      }
      if Imbalance(Some(ob)) < 0.0 && buy >= sell {
        Round1KeepsIntegerLowerBound(x, 0);
      }
    }
  }

  /** Levels beyond the eighth on either side do not affect the imbalance. */
  lemma ImbalanceIgnoresDeepLevels(ob: OrderBook, deeperBuy: seq<Level>, deeperSell: seq<Level>)
    requires |deeperBuy| > 0 ==> |ob.buy| >= Depth
    requires |deeperSell| > 0 ==> |ob.sell| >= Depth
    ensures Imbalance(Some(OrderBook(ob.buy + deeperBuy, ob.sell + deeperSell))) == Imbalance(Some(ob))
  {
    TopIgnoresDeepLevels(ob.buy, deeperBuy);
    TopIgnoresDeepLevels(ob.sell, deeperSell);
  }

  /** Levels appended below a side with at least eight levels (or nothing
      appended at all) leave its top levels unchanged. */
  lemma TopIgnoresDeepLevels(side: seq<Level>, deeper: seq<Level>)
    requires |deeper| > 0 ==> |side| >= Depth
    ensures Top(side + deeper) == Top(side)
  {
    if |deeper| == 0 {
      assert side + deeper == side;
    } else {
      assert (side + deeper)[..Depth] == side[..Depth];
    }
  }
}
