/** Order-flow delta: bought and sold volume, cumulative delta and its bounded history. */
module OrderFlow {
  import opened Collections
  import opened ProfileLaws
  import opened VolumeProfile

  function CumDelta(prints: seq<Print>): int { BuyQty(prints) - SellQty(prints) }

  /** The cumulative delta after each trade. */
  function DeltaPath(prints: seq<Print>): (path: seq<int>)
    ensures |path| == |prints|
  {
    if prints == [] then [] else DeltaPath(prints[..|prints| - 1]) + [CumDelta(prints)]
  }

  lemma FlowPush(prints: seq<Print>, p: Print)
    ensures BuyQty(prints + [p]) == BuyQty(prints) + (if p.aggressor == "B" then p.qty else 0)
    ensures SellQty(prints + [p]) == SellQty(prints) + (if p.aggressor == "B" then 0 else p.qty)
    ensures DeltaPath(prints + [p]) == DeltaPath(prints) + [CumDelta(prints + [p])]
  {}

  /** The bought share of all quantity in percent, 50 when there is none. */
  function BuyShare(prints: seq<Print>): real {
    var buy, total := BuyQty(prints), BuyQty(prints) + SellQty(prints);
    if total == 0 then 50.0 else buy as real / total as real * 100.0
  }

  class OrderFlowDelta {
    const window: nat
    var buyVol: int
    var sellVol: int
    var cumDelta: int
    var deltaHistory: seq<int>
    var lastPrice: real
    ghost var prints: seq<Print>

    ghost predicate Valid()
      reads this
    {
      && buyVol == BuyQty(prints) && sellVol == SellQty(prints) && cumDelta == buyVol - sellVol
      && deltaHistory == Window(DeltaPath(prints), window)
      && lastPrice == if prints == [] then 0.0 else prints[|prints| - 1].price
    }

    constructor (window: nat)
      ensures Valid() && this.window == window && prints == []
    {
      this.window, buyVol, sellVol, cumDelta, deltaHistory, lastPrice, prints := window, 0, 0, 0, [], 0.0, [];
    }

    method Update(price: real, qty: int, aggressor: string)
      requires Valid()
      modifies this
      ensures Valid() && prints == old(prints) + [Print(price, qty, aggressor)]
    {
      hide BuyQty, SellQty, DeltaPath, Window;
      FlowPush(prints, Print(price, qty, aggressor));
      ghost var path := DeltaPath(prints);
      prints := prints + [Print(price, qty, aggressor)];
      lastPrice := price;
      if aggressor == "B" {
        buyVol, cumDelta := buyVol + qty, cumDelta + qty;
      } else {
        sellVol, cumDelta := sellVol + qty, cumDelta - qty;
      }
      WindowPush(path, cumDelta, window);
      Append(cumDelta);
    }

    /** Appending to a bounded deque. */
    method Append(v: int)
      requires |deltaHistory| <= window
      modifies this`deltaHistory
      ensures deltaHistory == Window(old(deltaHistory) + [v], window)
    {
      deltaHistory := deltaHistory + [v];
      if |deltaHistory| > window { deltaHistory := deltaHistory[1..]; }
    }

    method BuyPct() returns (pct: real)
      requires Valid()
      ensures pct == if BuyQty(prints) + SellQty(prints) == 0 then 50.0
                     else BuyQty(prints) as real / (BuyQty(prints) + SellQty(prints)) as real * 100.0
      ensures pct == BuyShare(prints)
    {
      var total := buyVol + sellVol;
      pct := if total != 0 then buyVol as real / total as real * 100.0 else 50.0;
    }

    method Reset()
      modifies this
      ensures Valid() && prints == []
    {
      buyVol, sellVol, cumDelta, deltaHistory, lastPrice, prints := 0, 0, 0, [], 0.0, [];
    }
  }
}
