/**
 * The standalone alert system: price alerts created with `id = count + 1` and checked
 * against one symbol's current price at a time. Comparisons here are inclusive.
 *
 * Writing the alert file becomes a `saved` flag and the printed notifications are not
 * modelled. The wall clock is read afresh for every alert that fires, so a check takes a
 * `clock` sequence: `clock[i]` is the reading alert i gets if it fires (unused otherwise),
 * and `CreatePriceAlert` takes the single reading `now`.
 */
module AlertSystem {
  import opened Wrappers

  datatype PriceAlert = PriceAlert(
    id: int,
    symbol: string,
    targetPrice: real,
    condition: string,
    created: string,
    triggered: bool,
    triggeredAt: Option<string>,
    actualPrice: Option<real>)

  datatype Created = Created(alerts: seq<PriceAlert>, alert: PriceAlert, saved: bool)
  datatype Checked = Checked(alerts: seq<PriceAlert>, triggered: seq<PriceAlert>, saved: bool)

  /** The condition a price alert gets when the caller names none. */
  const DefaultCondition: string := "above"

  /** Appends one untriggered alert whose id is the store size plus one. */
  function CreatePriceAlert(alerts: seq<PriceAlert>, symbol: string, targetPrice: real,
                            condition: string, now: string): (r: Created)
    ensures r.alerts == alerts + [r.alert]
    ensures r.alert.id == |alerts| + 1 && !r.alert.triggered
    ensures r.alert.symbol == symbol && r.alert.targetPrice == targetPrice
    ensures r.alert.condition == condition && r.alert.created == now
    ensures r.alert.triggeredAt.None? && r.alert.actualPrice.None?
    ensures r.saved
  {
    var a := PriceAlert(|alerts| + 1, symbol, targetPrice, condition, now, false, None, None);
    Created(alerts + [a], a, true)
  }

  /** `create_price_alert` called without a condition. */
  function CreateDefaultPriceAlert(alerts: seq<PriceAlert>, symbol: string, targetPrice: real,
                                   now: string): (r: Created)
    ensures r.alert.condition == "above"
    ensures r.alerts == alerts + [r.alert] && r.alert.id == |alerts| + 1 && !r.alert.triggered
  {
    CreatePriceAlert(alerts, symbol, targetPrice, DefaultCondition, now)
  }

  /** An Active alert on `symbol` whose inclusive threshold `price` reaches. */
  predicate Hits(a: PriceAlert, symbol: string, price: real)
  {
    && a.symbol == symbol
    && !a.triggered
    && ((a.condition == "above" && price >= a.targetPrice)
        || (a.condition == "below" && price <= a.targetPrice))
  }

  /** One alert after one check of `symbol` at `price`. */
  function Update(a: PriceAlert, symbol: string, price: real, now: string): (r: PriceAlert)
    ensures a.symbol != symbol || a.triggered ==> r == a
    ensures r.triggered <==> a.triggered || Hits(a, symbol, price)
    ensures !Hits(a, symbol, price) ==> r == a
    ensures Hits(a, symbol, price) ==> r == a.(triggered := true, triggeredAt := Some(now), actualPrice := Some(price))
    ensures r.id == a.id && r.symbol == a.symbol && r.targetPrice == a.targetPrice && r.condition == a.condition
  {
    if Hits(a, symbol, price) then a.(triggered := true, triggeredAt := Some(now), actualPrice := Some(price))
    else a
  }

  /** The alerts that went from Active to Triggered, in store order, from the later state. */
  function NewlyTriggered(before: seq<PriceAlert>, after: seq<PriceAlert>): seq<PriceAlert>
    requires |before| == |after|
  {
    if |before| == 0 then []
    else
      var n := |before| - 1;
      NewlyTriggered(before[..n], after[..n])
        + (if !before[n].triggered && after[n].triggered then [after[n]] else [])
  }

  /** The loop over the store; alert i is stamped with its own clock reading `clock[i]`. */
  function Scan(alerts: seq<PriceAlert>, symbol: string, price: real, clock: seq<string>): (r: (seq<PriceAlert>, seq<PriceAlert>))
    requires |clock| == |alerts|
    ensures |r.0| == |alerts|
    ensures forall i :: 0 <= i < |alerts| ==> r.0[i] == Update(alerts[i], symbol, price, clock[i])
    ensures r.1 == NewlyTriggered(alerts, r.0)
  {
    if |alerts| == 0 then ([], [])
    else
      var n := |alerts| - 1;
      var prefix := Scan(alerts[..n], symbol, price, clock[..n]);
      var a' := Update(alerts[n], symbol, price, clock[n]);
      assert (prefix.0 + [a'])[..n] == prefix.0;
      (prefix.0 + [a'], if Hits(alerts[n], symbol, price) then prefix.1 + [a'] else prefix.1)
  }

  /**
   * Checks every alert on `symbol` against `price`. Alerts on other symbols and alerts
   * already Triggered are left alone; the store is saved exactly when something fired.
   */
  function CheckAlerts(alerts: seq<PriceAlert>, symbol: string, price: real, clock: seq<string>): (r: Checked)
    requires |clock| == |alerts|
    ensures |r.alerts| == |alerts|
    ensures forall i :: 0 <= i < |alerts| ==> r.alerts[i] == Update(alerts[i], symbol, price, clock[i])
    ensures r.triggered == NewlyTriggered(alerts, r.alerts)
    ensures r.saved <==> |r.triggered| > 0
  {
    var (updated, fired) := Scan(alerts, symbol, price, clock);
    Checked(updated, fired, |fired| > 0)
  }

  // ---------------------------------------------------------------------------------------
  // Properties
  // ---------------------------------------------------------------------------------------

  /** The comparisons are inclusive, and a condition other than above/below never fires. */
  lemma InclusiveComparisons(a: PriceAlert, price: real)
    requires !a.triggered
    ensures a.condition == "above" ==> (Hits(a, a.symbol, price) <==> price >= a.targetPrice)
    ensures a.condition == "below" ==> (Hits(a, a.symbol, price) <==> price <= a.targetPrice)
    ensures a.condition in {"above", "below"} ==> Hits(a, a.symbol, a.targetPrice)
    ensures a.condition != "above" && a.condition != "below" ==> forall p :: !Hits(a, a.symbol, p)
  {
  }

  lemma {:induction false} NewlyTriggeredOfSame(s: seq<PriceAlert>)
    ensures NewlyTriggered(s, s) == []
  {
    if |s| > 0 {
      NewlyTriggeredOfSame(s[..|s| - 1]);
    }
  }

  /**
   * Every returned alert is on the checked symbol, Triggered at the checked price, and is
   * the alert at some position i that was Active before, stamped with its own reading
   * `clock[i]`.
   */
  lemma {:induction false} TriggeredAreOnSymbol(before: seq<PriceAlert>, symbol: string, price: real, clock: seq<string>)
    requires |clock| == |before|
    ensures var r := CheckAlerts(before, symbol, price, clock);
            forall t :: t in r.triggered ==>
              && t.symbol == symbol && t.triggered && t.actualPrice == Some(price)
              && exists i :: 0 <= i < |before| && !before[i].triggered && r.alerts[i] == t && t.triggeredAt == Some(clock[i])
  {
    var after := CheckAlerts(before, symbol, price, clock).alerts;
    TriggeredFromUpdates(before, symbol, price, clock, after);
  }

  lemma {:induction false} TriggeredFromUpdates(before: seq<PriceAlert>, symbol: string, price: real, clock: seq<string>,
                                                after: seq<PriceAlert>)
    requires |clock| == |before| && |after| == |before|
    requires forall i :: 0 <= i < |before| ==> after[i] == Update(before[i], symbol, price, clock[i])
    ensures forall t :: t in NewlyTriggered(before, after) ==>
      && t.symbol == symbol && t.triggered && t.actualPrice == Some(price)
      && exists i :: 0 <= i < |before| && !before[i].triggered && after[i] == t && t.triggeredAt == Some(clock[i])
  {
    if |before| > 0 {
      var n := |before| - 1;
      TriggeredFromUpdates(before[..n], symbol, price, clock[..n], after[..n]);
      forall t | t in NewlyTriggered(before, after)
        ensures exists i :: 0 <= i < |before| && !before[i].triggered && after[i] == t && t.triggeredAt == Some(clock[i])
      {
        if t in NewlyTriggered(before[..n], after[..n]) {
          var i :| 0 <= i < n && !before[..n][i].triggered && after[..n][i] == t && t.triggeredAt == Some(clock[..n][i]);
          assert !before[i].triggered && after[i] == t && t.triggeredAt == Some(clock[i]);
        } else {
          assert !before[n].triggered && after[n] == t && t.triggeredAt == Some(clock[n]);
        }
      }
    }
  }

  /** Checking the same symbol at the same price again returns nothing and changes nothing. */
  lemma CheckIsIdempotent(alerts: seq<PriceAlert>, symbol: string, price: real, clock: seq<string>, later: seq<string>)
    requires |clock| == |alerts| && |later| == |alerts|
    ensures var first := CheckAlerts(alerts, symbol, price, clock).alerts;
            var second := CheckAlerts(first, symbol, price, later);
            second.alerts == first && second.triggered == [] && !second.saved
  {
    var first := CheckAlerts(alerts, symbol, price, clock).alerts;
    var second := CheckAlerts(first, symbol, price, later);
    forall i | 0 <= i < |first| ensures second.alerts[i] == first[i] {
      assert first[i] == Update(alerts[i], symbol, price, clock[i]);
    }
    assert second.alerts == first;
    NewlyTriggeredOfSame(first);
  }

  /** The ids of a store built by `CreatePriceAlert` from empty: 1, 2, ..., n. */
  predicate SequentialIds(alerts: seq<PriceAlert>)
  {
    forall i :: 0 <= i < |alerts| ==> alerts[i].id == i + 1
  }

  /** There is no removal here, so creating and checking keep ids sequential and unique. */
  lemma IdsStaySequential(alerts: seq<PriceAlert>, symbol: string, price: real, condition: string, now: string,
                          clock: seq<string>)
    requires SequentialIds(alerts)
    requires |clock| == |alerts|
    ensures SequentialIds(CreatePriceAlert(alerts, symbol, price, condition, now).alerts)
    ensures SequentialIds(CheckAlerts(alerts, symbol, price, clock).alerts)
  {
  }
}
