/**
 * The alert store of the chat bot: alerts added with `id = count + 1`, removed by id,
 * and a check pass that moves each Active alert to Triggered at most once.
 *
 * The market-data lookups made during a check are inputs: one `Quote` per alert, where
 * `None` stands for a lookup that raised. Writing the alert file becomes a `saved` flag.
 * The wall clock is read afresh for every alert that fires, so a check takes a `clock`
 * sequence: `clock[i]` is the reading alert i gets if it fires (unused otherwise), and
 * `AddAlert` takes the single reading `now`.
 */
module FinancialBot {
  import opened Wrappers

  datatype AlertType = PriceAbove | PriceBelow | PercentChange | OtherType(name: string)

  datatype Alert = Alert(
    id: int,
    symbol: string,
    kind: AlertType,
    threshold: real,
    condition: string,
    created: string,
    triggered: bool,
    triggeredAt: Option<string>,
    triggeredPrice: Option<real>)

  /**
   * What the market-data lookups give for one alert: the latest close of the one-day
   * history, and the closes of the two-day history (only consulted for percent-change
   * alerts). `None` is a lookup that raised.
   */
  datatype Quote = Quote(current: Option<real>, twoDay: Option<seq<real>>)

  datatype AddResult = AddResult(alerts: seq<Alert>, alert: Alert, saved: bool)
  datatype RemoveResult = RemoveResult(alerts: seq<Alert>, removed: bool, saved: bool)
  datatype CheckResult = CheckResult(alerts: seq<Alert>, triggered: seq<Alert>, saved: bool)

  /** Adds an untriggered alert at the end of the store; its id is the store size plus one. */
  function AddAlert(alerts: seq<Alert>, symbol: string, kind: AlertType, threshold: real,
                    condition: string, now: string): (r: AddResult)
    ensures r.alerts == alerts + [r.alert]
    ensures r.alert.id == |alerts| + 1 && !r.alert.triggered
    ensures r.alert.symbol == symbol && r.alert.kind == kind && r.alert.threshold == threshold
    ensures r.alert.condition == condition && r.alert.created == now
    ensures r.alert.triggeredAt.None? && r.alert.triggeredPrice.None?
    ensures r.saved
  {
    var a := Alert(|alerts| + 1, symbol, kind, threshold, condition, now, false, None, None);
    AddResult(alerts + [a], a, true)
  }

  /** `xs` is `ys` with some elements left out and the rest in their original order. */
  predicate Subsequence<T(==)>(xs: seq<T>, ys: seq<T>)
  {
    if |xs| == 0 then true
    else if |ys| == 0 then false
    else if xs[|xs| - 1] == ys[|ys| - 1] then Subsequence(xs[..|xs| - 1], ys[..|ys| - 1])
    else Subsequence(xs, ys[..|ys| - 1])
  }

  /** Number of alerts in the store carrying `id`. */
  function CountId(alerts: seq<Alert>, id: int): nat
  {
    if |alerts| == 0 then 0
    else CountId(alerts[..|alerts| - 1], id) + (if alerts[|alerts| - 1].id == id then 1 else 0)
  }

  /** Drops every alert carrying `id`, keeping the others in order; always reports success. */
  function RemoveAlert(alerts: seq<Alert>, id: int): (r: RemoveResult)
    ensures forall a :: a in r.alerts ==> a in alerts && a.id != id
    ensures forall a :: a in alerts && a.id != id ==> a in r.alerts
    ensures Subsequence(r.alerts, alerts)
    ensures |r.alerts| == |alerts| - CountId(alerts, id)
    ensures r.removed && r.saved
  {
    RemoveResult(Without(alerts, id), true, true)
  }

  function Without(alerts: seq<Alert>, id: int): (r: seq<Alert>)
    ensures forall a :: a in r ==> a in alerts && a.id != id
    ensures forall a :: a in alerts && a.id != id ==> a in r
    ensures Subsequence(r, alerts)
    ensures |r| == |alerts| - CountId(alerts, id)
  {
    if |alerts| == 0 then []
    else
      var init := alerts[..|alerts| - 1];
      var last := alerts[|alerts| - 1];
      assert forall a :: a in alerts ==> a in init || a == last;
      if last.id == id then Without(init, id) else Without(init, id) + [last]
  }

  /** Percentage change from the previous close to the current price. */
  function PercentChangeOf(current: real, previous: real): real
    requires previous != 0.0
  {
    (current - previous) / previous * 100.0
  }

  /**
   * `check_alerts` divides by the previous close when it evaluates an Active percent-change
   * alert whose lookups both succeeded with at least two rows; that close must be non-zero.
   */
  predicate Evaluable(a: Alert, q: Quote)
  {
    (!a.triggered && a.kind.PercentChange? && q.current.Some? && q.twoDay.Some? && |q.twoDay.value| >= 2)
      ==> q.twoDay.value[|q.twoDay.value| - 2] != 0.0
  }

  /** The trigger rule of one alert against its quote; comparisons are strict. */
  predicate Fires(a: Alert, q: Quote)
    requires Evaluable(a, q)
    requires !a.triggered
  {
    match q.current
    case None => false
    case Some(price) =>
      match a.kind
      case PriceAbove => price > a.threshold
      case PriceBelow => price < a.threshold
      case PercentChange =>
        (match q.twoDay
         case None => false
         case Some(hist) =>
           |hist| >= 2 &&
           var pct := PercentChangeOf(price, hist[|hist| - 2]);
           (a.condition == "increase" && pct > a.threshold)
             || (a.condition == "decrease" && pct < -a.threshold))
      case OtherType(_) => false
  }

  /** One alert after one check: triggered alerts are skipped, a firing one is stamped. */
  function Step(a: Alert, q: Quote, now: string): (r: Alert)
    requires Evaluable(a, q)
    ensures a.triggered ==> r == a
    ensures r.triggered <==> a.triggered || Fires(a, q)
    ensures !a.triggered && Fires(a, q) ==>
      r == a.(triggered := true, triggeredAt := Some(now), triggeredPrice := q.current)
    ensures !a.triggered && !Fires(a, q) ==> r == a
    ensures q.current.None? ==> r == a
    ensures r.id == a.id && r.symbol == a.symbol && r.kind == a.kind && r.threshold == a.threshold
  {
    if a.triggered then a
    else if Fires(a, q) then a.(triggered := true, triggeredAt := Some(now), triggeredPrice := Some(q.current.value))
    else a
  }

  predicate AllEvaluable(alerts: seq<Alert>, quotes: seq<Quote>)
  {
    |quotes| == |alerts| && forall i :: 0 <= i < |alerts| ==> Evaluable(alerts[i], quotes[i])
  }

  /**
   * The alerts that went from Active to Triggered between two states of the store,
   * taken in store order from the later state.
   */
  function NewlyTriggered(before: seq<Alert>, after: seq<Alert>): seq<Alert>
    requires |before| == |after|
  {
    if |before| == 0 then []
    else
      var n := |before| - 1;
      NewlyTriggered(before[..n], after[..n])
        + (if !before[n].triggered && after[n].triggered then [after[n]] else [])
  }

  /**
   * The loop over the store, returning the updated store and the alerts it fired. Alert i
   * is stamped with its own clock reading `clock[i]`.
   */
  function Scan(alerts: seq<Alert>, quotes: seq<Quote>, clock: seq<string>): (r: (seq<Alert>, seq<Alert>))
    requires AllEvaluable(alerts, quotes)
    requires |clock| == |alerts|
    ensures |r.0| == |alerts|
    ensures forall i :: 0 <= i < |alerts| ==> r.0[i] == Step(alerts[i], quotes[i], clock[i])
    ensures r.1 == NewlyTriggered(alerts, r.0)
  {
    if |alerts| == 0 then ([], [])
    else
      var n := |alerts| - 1;
      var prefix := Scan(alerts[..n], quotes[..n], clock[..n]);
      var a := alerts[n];
      var q := quotes[n];
      var a' := Step(a, q, clock[n]);
      assert (prefix.0 + [a'])[..n] == prefix.0;
      var fired := !a.triggered && Fires(a, q);
      (prefix.0 + [a'], if fired then prefix.1 + [a'] else prefix.1)
  }

  /**
   * One check pass. Every Active alert is evaluated against its own quote; a failed lookup
   * leaves only that alert unchanged. The store is saved exactly when something fired.
   */
  function CheckAlerts(alerts: seq<Alert>, quotes: seq<Quote>, clock: seq<string>): (r: CheckResult)
    requires AllEvaluable(alerts, quotes)
    requires |clock| == |alerts|
    ensures |r.alerts| == |alerts|
    ensures forall i :: 0 <= i < |alerts| ==> r.alerts[i] == Step(alerts[i], quotes[i], clock[i])
    ensures r.triggered == NewlyTriggered(alerts, r.alerts)
    ensures r.saved <==> |r.triggered| > 0
  {
    var (updated, fired) := Scan(alerts, quotes, clock);
    CheckResult(updated, fired, |fired| > 0)
  }

  // ---------------------------------------------------------------------------------------
  // Properties of the check pass
  // ---------------------------------------------------------------------------------------

  /** Price alerts compare strictly: a price equal to the threshold never fires. */
  lemma PriceComparisonsAreStrict(a: Alert, price: real, hist: Option<seq<real>>)
    requires !a.triggered
    ensures a.kind.PriceAbove? ==> (Fires(a, Quote(Some(price), hist)) <==> price > a.threshold)
    ensures a.kind.PriceBelow? ==> (Fires(a, Quote(Some(price), hist)) <==> price < a.threshold)
    ensures a.kind.OtherType? ==> !Fires(a, Quote(Some(price), hist))
    ensures price == a.threshold && !a.kind.PercentChange? ==> !Fires(a, Quote(Some(price), hist))
  {
  }

  /**
   * A percent-change alert needs two rows of history; it then fires on a rise strictly
   * above the threshold (`increase`) or a fall strictly below its negation (`decrease`).
   */
  lemma PercentChangeRule(a: Alert, price: real, hist: seq<real>)
    requires !a.triggered && a.kind.PercentChange?
    requires |hist| >= 2 ==> hist[|hist| - 2] != 0.0
    ensures |hist| < 2 ==> !Fires(a, Quote(Some(price), Some(hist)))
    ensures |hist| >= 2 ==>
      var pct := PercentChangeOf(price, hist[|hist| - 2]);
      (Fires(a, Quote(Some(price), Some(hist))) <==>
        (a.condition == "increase" && pct > a.threshold) || (a.condition == "decrease" && pct < -a.threshold))
    ensures a.condition != "increase" && a.condition != "decrease" ==> !Fires(a, Quote(Some(price), Some(hist)))
    ensures !Fires(a, Quote(Some(price), None)) && !Fires(a, Quote(None, Some(hist)))
  {
  }

  /** Previous close 100 and threshold 5: a price of 106 (+6%) fires, 104 (+4%) does not. */
  lemma PercentChangeExample(a: Alert)
    requires !a.triggered && a.kind.PercentChange? && a.condition == "increase" && a.threshold == 5.0
    ensures Fires(a, Quote(Some(106.0), Some([100.0, 106.0])))
    ensures !Fires(a, Quote(Some(104.0), Some([100.0, 104.0])))
  {
    assert PercentChangeOf(106.0, 100.0) == 6.0;
    assert PercentChangeOf(104.0, 100.0) == 4.0;
  }

  lemma {:induction false} NewlyTriggeredOfSame(s: seq<Alert>)
    ensures NewlyTriggered(s, s) == []
  {
    if |s| > 0 {
      NewlyTriggeredOfSame(s[..|s| - 1]);
    }
  }

  /**
   * Every alert returned by a check is Triggered, has a price, and is the alert at some
   * position i that was Active before, stamped with that alert's own reading `clock[i]`.
   */
  lemma {:induction false} NewlyTriggeredAreStamped(before: seq<Alert>, quotes: seq<Quote>, clock: seq<string>)
    requires AllEvaluable(before, quotes)
    requires |clock| == |before|
    ensures var r := CheckAlerts(before, quotes, clock);
            forall t :: t in r.triggered ==>
              && t.triggered && t.triggeredPrice.Some?
              && exists i :: 0 <= i < |before| && !before[i].triggered && r.alerts[i] == t && t.triggeredAt == Some(clock[i])
  {
    var after := CheckAlerts(before, quotes, clock).alerts;
    NewlyTriggeredFromSteps(before, quotes, clock, after);
  }

  lemma {:induction false} NewlyTriggeredFromSteps(before: seq<Alert>, quotes: seq<Quote>, clock: seq<string>, after: seq<Alert>)
    requires AllEvaluable(before, quotes)
    requires |clock| == |before| && |after| == |before|
    requires forall i :: 0 <= i < |before| ==> after[i] == Step(before[i], quotes[i], clock[i])
    ensures forall t :: t in NewlyTriggered(before, after) ==>
      && t.triggered && t.triggeredPrice.Some?
      && exists i :: 0 <= i < |before| && !before[i].triggered && after[i] == t && t.triggeredAt == Some(clock[i])
  {
    if |before| > 0 {
      var n := |before| - 1;
      NewlyTriggeredFromSteps(before[..n], quotes[..n], clock[..n], after[..n]);
      forall t | t in NewlyTriggered(before, after)
        ensures exists i :: 0 <= i < |before| && !before[i].triggered && after[i] == t && t.triggeredAt == Some(clock[i])
      {
        if t in NewlyTriggered(before[..n], after[..n]) {
          var i :| 0 <= i < n && !before[..n][i].triggered && after[..n][i] == t && t.triggeredAt == Some(clock[..n][i]);
          assert !before[i].triggered && after[i] == t && t.triggeredAt == Some(clock[i]);
        } else {
          assert !before[n].triggered && after[n] == t && t.triggeredAt == Some(clock[n]);
        }
      }
    }
  }

  /**
   * A second check with the same quotes fires nothing and leaves the store as the first
   * check left it: an alert fires at most once.
   */
  lemma CheckIsIdempotent(alerts: seq<Alert>, quotes: seq<Quote>, clock: seq<string>, later: seq<string>)
    requires AllEvaluable(alerts, quotes)
    requires |clock| == |alerts| && |later| == |alerts|
    ensures AllEvaluable(CheckAlerts(alerts, quotes, clock).alerts, quotes)
    ensures var first := CheckAlerts(alerts, quotes, clock).alerts;
            var second := CheckAlerts(first, quotes, later);
            second.alerts == first && second.triggered == [] && !second.saved
  {
    var first := CheckAlerts(alerts, quotes, clock).alerts;
    assert AllEvaluable(first, quotes) by {
      forall i | 0 <= i < |first| ensures Evaluable(first[i], quotes[i]) {
        assert first[i] == Step(alerts[i], quotes[i], clock[i]);
      }
    }
    var second := CheckAlerts(first, quotes, later);
    forall i | 0 <= i < |first| ensures second.alerts[i] == first[i] {
      assert first[i] == Step(alerts[i], quotes[i], clock[i]);
    }
    assert second.alerts == first;
    NewlyTriggeredOfSame(first);
  }

  /**
   * A price-above alert at 100 watched at 98, 99, 101 and 95: it fires exactly on the
   * check that sees 101, records that price, and stays Triggered afterwards.
   */
  lemma PriceAboveFiresOnce()
    ensures
      var a := Alert(1, "AAPL", PriceAbove, 100.0, "", "t0", false, None, None);
      var s1 := CheckAlerts([a], [Quote(Some(98.0), None)], ["t1"]);
      var s2 := CheckAlerts(s1.alerts, [Quote(Some(99.0), None)], ["t2"]);
      var s3 := CheckAlerts(s2.alerts, [Quote(Some(101.0), None)], ["t3"]);
      var s4 := CheckAlerts(s3.alerts, [Quote(Some(95.0), None)], ["t4"]);
      && s1.triggered == [] && s2.triggered == [] && s4.triggered == []
      && s3.triggered == [a.(triggered := true, triggeredAt := Some("t3"), triggeredPrice := Some(101.0))]
      && s4.alerts == s3.alerts && s4.alerts[0].triggered && s4.alerts[0].triggeredPrice == Some(101.0)
  {
    var a := Alert(1, "AAPL", PriceAbove, 100.0, "", "t0", false, None, None);
    var s1 := CheckAlerts([a], [Quote(Some(98.0), None)], ["t1"]);
    assert s1.alerts == [a];
    var s2 := CheckAlerts(s1.alerts, [Quote(Some(99.0), None)], ["t2"]);
    assert s2.alerts == [a];
    var fired := a.(triggered := true, triggeredAt := Some("t3"), triggeredPrice := Some(101.0));
    var s3 := CheckAlerts(s2.alerts, [Quote(Some(101.0), None)], ["t3"]);
    assert s3.alerts == [fired];
    assert NewlyTriggered([a], [fired]) == [fired] by {
      assert [a][..0] == [] && [fired][..0] == [];
    }
    var s4 := CheckAlerts(s3.alerts, [Quote(Some(95.0), None)], ["t4"]);
    assert s4.alerts == [fired];
    NewlyTriggeredOfSame([fired]);
    assert NewlyTriggered([a], [a]) == [] by { NewlyTriggeredOfSame([a]); }
  }

  // ---------------------------------------------------------------------------------------
  // Properties of add and remove
  // ---------------------------------------------------------------------------------------

  /** Every alert id appears at most once in the store. */
  predicate UniqueIds(alerts: seq<Alert>)
  {
    forall i, j :: 0 <= i < j < |alerts| ==> alerts[i].id != alerts[j].id
  }

  /** The ids of a store only ever grown by `AddAlert` from empty: 1, 2, ..., n. */
  predicate SequentialIds(alerts: seq<Alert>)
  {
    forall i :: 0 <= i < |alerts| ==> alerts[i].id == i + 1
  }

  /** Without removals, `count + 1` ids stay sequential (and therefore unique). */
  lemma AddKeepsSequentialIds(alerts: seq<Alert>, symbol: string, kind: AlertType, threshold: real,
                              condition: string, now: string)
    requires SequentialIds(alerts)
    ensures SequentialIds(AddAlert(alerts, symbol, kind, threshold, condition, now).alerts)
    ensures UniqueIds(AddAlert(alerts, symbol, kind, threshold, condition, now).alerts)
  {
  }

  /** Removing an id no alert carries leaves the store as it was. */
  lemma {:induction false} RemoveAbsentIsIdentity(alerts: seq<Alert>, id: int)
    requires forall a :: a in alerts ==> a.id != id
    ensures RemoveAlert(alerts, id).alerts == alerts
  {
    if |alerts| > 0 {
      var init := alerts[..|alerts| - 1];
      assert forall a :: a in init ==> a in alerts;
      RemoveAbsentIsIdentity(init, id);
    }
  }

  /** Removing the same id twice is the same as removing it once. */
  lemma RemoveIsIdempotent(alerts: seq<Alert>, id: int)
    ensures var once := RemoveAlert(alerts, id).alerts;
            RemoveAlert(once, id).alerts == once
  {
    RemoveAbsentIsIdentity(RemoveAlert(alerts, id).alerts, id);
  }

  /** A check changes no id, so it preserves uniqueness of ids. */
  lemma CheckKeepsIds(alerts: seq<Alert>, quotes: seq<Quote>, clock: seq<string>)
    requires AllEvaluable(alerts, quotes)
    requires |clock| == |alerts|
    ensures forall i :: 0 <= i < |alerts| ==> CheckAlerts(alerts, quotes, clock).alerts[i].id == alerts[i].id
    ensures UniqueIds(alerts) ==> UniqueIds(CheckAlerts(alerts, quotes, clock).alerts)
  {
  }

  /**
   * As written, `count + 1` reuses an id after a removal: from ids [1, 2], removing 1 and
   * adding gives the new alert id 2, which the remaining alert already carries.
   */
  lemma IdReuseAfterRemove(a1: Alert, a2: Alert, symbol: string, kind: AlertType, threshold: real,
                           condition: string, now: string)
    requires a1.id == 1 && a2.id == 2
    ensures var kept := RemoveAlert([a1, a2], 1).alerts;
            var added := AddAlert(kept, symbol, kind, threshold, condition, now);
            added.alert.id == 2 && added.alerts == [a2, added.alert] && !UniqueIds(added.alerts)
  {
    assert [a1, a2][..1] == [a1];
    assert [a1][..0] == [];
    assert Without([], 1) == [];
    assert Without([a1], 1) == [];
    assert Without([a1, a2], 1) == [a2];
    var kept := RemoveAlert([a1, a2], 1).alerts;
    var added := AddAlert(kept, symbol, kind, threshold, condition, now);
    assert added.alerts[0].id == added.alerts[1].id;
  }

  /** Largest id in the store, 0 for an empty store. */
  function MaxId(alerts: seq<Alert>): (m: int)
    ensures forall a :: a in alerts ==> a.id <= m
    ensures m >= 0
  {
    if |alerts| == 0 then 0
    else
      var init := alerts[..|alerts| - 1];
      var last := alerts[|alerts| - 1];
      assert forall a :: a in alerts ==> a in init || a == last;
      var m := MaxId(init);
      if last.id > m then last.id else m
  }

  /**
   * Id assignment with a fresh id (one more than the largest in use) instead of the store
   * size; otherwise identical to `AddAlert`.
   */
  function AddAlertFreshId(alerts: seq<Alert>, symbol: string, kind: AlertType, threshold: real,
                           condition: string, now: string): (r: AddResult)
    ensures r.alerts == alerts + [r.alert]
    ensures forall a :: a in alerts ==> a.id < r.alert.id
    ensures r.alert == AddAlert(alerts, symbol, kind, threshold, condition, now).alert.(id := r.alert.id)
    ensures r.saved
  {
    var a := Alert(MaxId(alerts) + 1, symbol, kind, threshold, condition, now, false, None, None);
    AddResult(alerts + [a], a, true)
  }

  /** With fresh ids, one add and one remove each keep ids unique. */
  lemma FreshIdsStayUnique(alerts: seq<Alert>, symbol: string, kind: AlertType, threshold: real,
                           condition: string, now: string, id: int)
    requires UniqueIds(alerts)
    ensures UniqueIds(AddAlertFreshId(alerts, symbol, kind, threshold, condition, now).alerts)
    ensures UniqueIds(RemoveAlert(alerts, id).alerts)
  {
    var r := AddAlertFreshId(alerts, symbol, kind, threshold, condition, now).alerts;
    assert forall i :: 0 <= i < |alerts| ==> alerts[i] in alerts;
    RemovePreservesUnique(alerts, id);
  }

  lemma {:induction false} RemovePreservesUnique(alerts: seq<Alert>, id: int)
    requires UniqueIds(alerts)
    ensures UniqueIds(Without(alerts, id))
  {
    if |alerts| > 0 {
      var init := alerts[..|alerts| - 1];
      var last := alerts[|alerts| - 1];
      RemovePreservesUnique(init, id);
      var rest := Without(init, id);
      if last.id != id {
        forall k | 0 <= k < |rest| ensures rest[k].id != last.id {
          assert rest[k] in init;
        }
      }
    }
  }
}
