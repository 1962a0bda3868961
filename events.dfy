/**
 * The observer registry of event/event_dispatcher.py and the metrics collector of
 * event/event_handlers.py.
 *
 * A handler is known only by its identity, written here as a name; what a handler does
 * when called is outside this model, except whether it raises, which `Dispatch` takes as
 * an input. The four event classes of event/events.py are the cases of `Event`, with the
 * fields the metrics collector reads.
 */
module Events {
  import opened Wrappers
  import opened Lists

  type Handler = string

  /** `type(event)`: the key the per-type subscriber lists are kept under. */
  datatype EventType = CalculationStarted | CalculationCompleted | DataExport | ErrorRaised

  datatype Event =
    | CalculationStartedEvent(sectors: seq<string>, calculationType: string)
    | CalculationCompletedEvent(resultsCount: int, executionTime: real, success: bool)
    | DataExportEvent(recordCount: int, exportStatus: string)
    | ErrorEvent(errorType: string, errorMessage: string, severity: string)

  function TypeOf(e: Event): (t: EventType)
    ensures e.CalculationStartedEvent? <==> t == CalculationStarted
    ensures e.CalculationCompletedEvent? <==> t == CalculationCompleted
    ensures e.DataExportEvent? <==> t == DataExport
    ensures e.ErrorEvent? <==> t == ErrorRaised
  {
    match e
    case CalculationStartedEvent(_, _) => CalculationStarted
    case CalculationCompletedEvent(_, _, _) => CalculationCompleted
    case DataExportEvent(_, _) => DataExport
    case ErrorEvent(_, _, _) => ErrorRaised
  }

  /** Every event type once. */
  const AllTypes: seq<EventType> := [CalculationStarted, CalculationCompleted, DataExport, ErrorRaised]

  lemma AllTypesListsEachTypeOnce(t: EventType)
    ensures t in AllTypes && NoDuplicates(AllTypes)
  {
  }

  /** The `defaultdict(list)` lookup: a type nobody subscribed to has the empty list. */
  function ListIn(m: map<EventType, seq<Handler>>, t: EventType): seq<Handler> {
    if t in m then m[t] else []
  }

  /** The summed lengths of the lists of `types`. */
  function TotalIn(m: map<EventType, seq<Handler>>, types: seq<EventType>): nat {
    if |types| == 0 then 0 else TotalIn(m, types[..|types| - 1]) + |ListIn(m, types[|types| - 1])|
  }

  /** The total over `types` is at least the length of each listed type's list. */
  lemma {:induction false} TotalInBoundsEach(m: map<EventType, seq<Handler>>, types: seq<EventType>, t: EventType)
    requires t in types
    ensures |ListIn(m, t)| <= TotalIn(m, types)
  {
    var init := types[..|types| - 1];
    assert types == init + [types[|types| - 1]];
    if t != types[|types| - 1] {
      TotalInBoundsEach(m, init, t);
    }
  }

  /** Replacing the list of `t` changes the total over a duplicate-free `types` by the difference in length. */
  lemma {:induction false} TotalAfterUpdate(m: map<EventType, seq<Handler>>, t: EventType, l: seq<Handler>, types: seq<EventType>)
    requires NoDuplicates(types)
    ensures TotalIn(m[t := l], types) + (if t in types then |ListIn(m, t)| else 0)
         == TotalIn(m, types) + (if t in types then |l| else 0)
  {
    if |types| > 0 {
      var init := types[..|types| - 1];
      var last := types[|types| - 1];
      assert NoDuplicates(init);
      assert t in types <==> t in init || t == last;
      assert last !in init;
      TotalAfterUpdate(m, t, l, init);
    }
  }

  /** With no lists at all, the total is zero. */
  lemma {:induction false} TotalOfEmpty(types: seq<EventType>)
    ensures TotalIn(map[], types) == 0
  {
    if |types| > 0 {
      TotalOfEmpty(types[..|types| - 1]);
    }
  }

  /** The handlers among `hs` that raise, in calling order: the ones whose error is logged. */
  function Failing(hs: seq<Handler>, raises: Handler -> bool): seq<Handler> {
    if |hs| == 0 then [] else Failing(hs[..|hs| - 1], raises) + (if raises(hs[|hs| - 1]) then [hs[|hs| - 1]] else [])
  }

  /** A handler's error is logged exactly when it is called and raises. */
  lemma {:induction false} FailingIsFilter(hs: seq<Handler>, raises: Handler -> bool, h: Handler)
    ensures h in Failing(hs, raises) <==> h in hs && raises(h)
  {
    if |hs| > 0 {
      FailingIsFilter(hs[..|hs| - 1], raises, h);
      assert hs == hs[..|hs| - 1] + [hs[|hs| - 1]];
    }
  }

  class EventDispatcher {
    var subscribers: map<EventType, seq<Handler>>
    var globalSubscribers: seq<Handler>

    /** No list holds a handler twice, which `subscribe` and `subscribe_all` keep. */
    ghost predicate Valid()
      reads this
    {
      && (forall t :: t in subscribers ==> NoDuplicates(subscribers[t]))
      && NoDuplicates(globalSubscribers)
    }

    function HandlersFor(t: EventType): seq<Handler>
      reads this
    {
      ListIn(subscribers, t)
    }

    /** `get_subscriber_count`: one type's list, or every list plus the global one. */
    function SubscriberCount(t: Option<EventType>): (n: nat)
      reads this
      // The overall count covers the global list and every single type's count.
      ensures t.None? ==> n >= |globalSubscribers| && forall u :: |HandlersFor(u)| <= n
      ensures t.Some? ==> n == |HandlersFor(t.value)|
    {
      assert forall u :: |HandlersFor(u)| <= TotalIn(subscribers, AllTypes) by {
        forall u ensures |HandlersFor(u)| <= TotalIn(subscribers, AllTypes) {
          AllTypesListsEachTypeOnce(u);
          TotalInBoundsEach(subscribers, AllTypes, u);
        }
      }
      match t
      case Some(u) => |HandlersFor(u)|
      case None => TotalIn(subscribers, AllTypes) + |globalSubscribers|
    }

    constructor ()
      ensures Valid() && subscribers == map[] && globalSubscribers == []
      ensures SubscriberCount(None) == 0
    {
      subscribers := map[];
      globalSubscribers := [];
      new;
      TotalOfEmpty(AllTypes);
    }

    /** `subscribe`: append the handler to the type's list unless it is already there. */
    method Subscribe(t: EventType, h: Handler)
      requires Valid()
      modifies this
      ensures Valid()
      ensures HandlersFor(t) == if h in old(HandlersFor(t)) then old(HandlersFor(t)) else old(HandlersFor(t)) + [h]
      ensures subscribers == old(subscribers)[t := HandlersFor(t)] && globalSubscribers == old(globalSubscribers)
      ensures SubscriberCount(None) == old(SubscriberCount(None)) + (if h in old(HandlersFor(t)) then 0 else 1)
    {
      var list := HandlersFor(t);
      if h !in list {
        list := list + [h];
      }
      AllTypesListsEachTypeOnce(t);
      TotalAfterUpdate(subscribers, t, list, AllTypes);
      subscribers := subscribers[t := list];
    }

    /** `unsubscribe`: remove the handler from the type's list if it is there. */
    method Unsubscribe(t: EventType, h: Handler)
      requires Valid()
      modifies this
      ensures Valid()
      ensures h in old(HandlersFor(t)) ==> HandlersFor(t) == RemoveFirst(old(HandlersFor(t)), h)
      ensures h !in old(HandlersFor(t)) ==> HandlersFor(t) == old(HandlersFor(t))
      ensures h !in HandlersFor(t)
      ensures subscribers == old(subscribers)[t := HandlersFor(t)] && globalSubscribers == old(globalSubscribers)
      ensures SubscriberCount(None) == old(SubscriberCount(None)) - (if h in old(HandlersFor(t)) then 1 else 0)
    {
      var list := HandlersFor(t);
      if h in list {
        RemoveFirstKeepsUnique(list, h);
        list := RemoveFirst(list, h);
      }
      AllTypesListsEachTypeOnce(t);
      TotalAfterUpdate(subscribers, t, list, AllTypes);
      subscribers := subscribers[t := list];
    }

    /** `subscribe_all`. */
    method SubscribeAll(h: Handler)
      requires Valid()
      modifies this
      ensures Valid()
      ensures globalSubscribers == if h in old(globalSubscribers) then old(globalSubscribers) else old(globalSubscribers) + [h]
      ensures subscribers == old(subscribers)
      ensures SubscriberCount(None) == old(SubscriberCount(None)) + (if h in old(globalSubscribers) then 0 else 1)
    {
      if h !in globalSubscribers {
        globalSubscribers := globalSubscribers + [h];
      }
    }

    /** `unsubscribe_all`: only the global list; the per-type lists keep the handler. */
    method UnsubscribeAll(h: Handler)
      requires Valid()
      modifies this
      ensures Valid()
      ensures h in old(globalSubscribers) ==> globalSubscribers == RemoveFirst(old(globalSubscribers), h)
      ensures h !in old(globalSubscribers) ==> globalSubscribers == old(globalSubscribers)
      ensures h !in globalSubscribers
      ensures subscribers == old(subscribers)
      ensures SubscriberCount(None) == old(SubscriberCount(None)) - (if h in old(globalSubscribers) then 1 else 0)
    {
      if h in globalSubscribers {
        RemoveFirstKeepsUnique(globalSubscribers, h);
        globalSubscribers := RemoveFirst(globalSubscribers, h);
      }
    }

    /**
     * `dispatch`: call the handlers of the event's exact type in subscription order, then
     * the global handlers in order. A handler that raises has its error logged and the
     * loop goes on, so which handlers are called does not depend on `raises`.
     */
    method Dispatch(e: Event, raises: Handler -> bool) returns (called: seq<Handler>, logged: seq<Handler>)
      ensures called == HandlersFor(TypeOf(e)) + globalSubscribers
      ensures logged == Failing(called, raises)
    {
      var typed := HandlersFor(TypeOf(e));
      called := [];
      logged := [];
      var i := 0;
      while i < |typed|
        invariant 0 <= i <= |typed|
        invariant called == typed[..i] && logged == Failing(called, raises)
      {
        var h := typed[i];
        called := called + [h];
        if raises(h) {
          logged := logged + [h];
        }
        assert typed[..i + 1] == typed[..i] + [h];
        i := i + 1;
      }
      assert typed[..|typed|] == typed;
      var j := 0;
      while j < |globalSubscribers|
        invariant 0 <= j <= |globalSubscribers|
        invariant called == typed + globalSubscribers[..j] && logged == Failing(called, raises)
      {
        var h := globalSubscribers[j];
        called := called + [h];
        if raises(h) {
          logged := logged + [h];
        }
        assert globalSubscribers[..j + 1] == globalSubscribers[..j] + [h];
        j := j + 1;
      }
      assert globalSubscribers[..|globalSubscribers|] == globalSubscribers;
    }

    /** `clear_subscribers(t)` empties the list of `t`; `clear_subscribers()` empties every list. */
    method ClearSubscribers(t: Option<EventType>)
      requires Valid()
      modifies this
      ensures Valid()
      ensures t.Some? ==> subscribers == old(subscribers)[t.value := []] && globalSubscribers == old(globalSubscribers)
      ensures t.Some? ==> SubscriberCount(t) == 0 && SubscriberCount(None) == old(SubscriberCount(None)) - old(SubscriberCount(t))
      ensures t.None? ==> subscribers == map[] && globalSubscribers == [] && SubscriberCount(None) == 0
    {
      if t.Some? {
        AllTypesListsEachTypeOnce(t.value);
        TotalAfterUpdate(subscribers, t.value, [], AllTypes);
        subscribers := subscribers[t.value := []];
      } else {
        TotalOfEmpty(AllTypes);
        subscribers := map[];
        globalSubscribers := [];
      }
    }
  }

  /** A client: subscribing a new handler and unsubscribing it again leaves the registry as it was. */
  method SubscribeThenUnsubscribe(d: EventDispatcher, t: EventType, h: Handler)
    requires d.Valid() && h !in d.HandlersFor(t)
    modifies d
    ensures d.HandlersFor(t) == old(d.HandlersFor(t)) && d.globalSubscribers == old(d.globalSubscribers)
    ensures d.SubscriberCount(None) == old(d.SubscriberCount(None))
  {
    d.Subscribe(t, h);
    AppendThenRemove(old(d.HandlersFor(t)), h);
    d.Unsubscribe(t, h);
  }

  /** The `metrics` dict of `MetricsEventHandler`, one field per key. */
  datatype Metrics = Metrics(
    calculationsStarted: nat,
    calculationsCompleted: nat,
    calculationsFailed: nat,
    totalExecutionTime: real,
    errorsByType: map<string, nat>,
    exportsCompleted: nat)

  const InitialMetrics: Metrics := Metrics(0, 0, 0, 0.0, map[], 0)

  /** `handle`: the `elif` chain, so at most one branch applies to an event. */
  function Record(m: Metrics, e: Event): Metrics {
    match e
    case CalculationStartedEvent(_, _) => m.(calculationsStarted := m.calculationsStarted + 1)
    case CalculationCompletedEvent(_, time, success) =>
      if success then m.(calculationsCompleted := m.calculationsCompleted + 1, totalExecutionTime := m.totalExecutionTime + time)
      else m.(calculationsFailed := m.calculationsFailed + 1)
    case ErrorEvent(errorType, _, _) =>
      m.(errorsByType := m.errorsByType[errorType := (if errorType in m.errorsByType then m.errorsByType[errorType] else 0) + 1])
    case DataExportEvent(_, status) =>
      if status == "completed" then m.(exportsCompleted := m.exportsCompleted + 1) else m
  }

  /** How many of the five counters (started, completed, failed, per-type errors, exports) differ. */
  function CountersChanged(a: Metrics, b: Metrics): nat {
    (if a.calculationsStarted != b.calculationsStarted then 1 else 0)
    + (if a.calculationsCompleted != b.calculationsCompleted then 1 else 0)
    + (if a.calculationsFailed != b.calculationsFailed then 1 else 0)
    + (if a.errorsByType != b.errorsByType then 1 else 0)
    + (if a.exportsCompleted != b.exportsCompleted then 1 else 0)
  }

  /** One event moves at most one counter, and the total time only with a successful completion. */
  lemma RecordMovesOneCounter(m: Metrics, e: Event)
    ensures CountersChanged(m, Record(m, e)) <= 1
    ensures Record(m, e).totalExecutionTime != m.totalExecutionTime ==>
      e.CalculationCompletedEvent? && e.success && Record(m, e).calculationsCompleted == m.calculationsCompleted + 1
    ensures e.DataExportEvent? && e.exportStatus != "completed" ==> Record(m, e) == m
  {
    if e.ErrorEvent? {
      assert e.errorType in Record(m, e).errorsByType;
      assert Record(m, e).errorsByType[e.errorType] != (if e.errorType in m.errorsByType then m.errorsByType[e.errorType] else 0);
    }
  }

  /** The events in order recorded one after another. */
  function RecordAll(m: Metrics, es: seq<Event>): Metrics {
    if |es| == 0 then m else Record(RecordAll(m, es[..|es| - 1]), es[|es| - 1])
  }

  /** How many of `es` satisfy `p`: the independent reference for the counters. */
  function CountWhere(es: seq<Event>, p: Event -> bool): nat {
    if |es| == 0 then 0 else CountWhere(es[..|es| - 1], p) + (if p(es[|es| - 1]) then 1 else 0)
  }

  /** The execution times of the successful completions among `es`, summed. */
  function SuccessTime(es: seq<Event>): real {
    if |es| == 0 then 0.0
    else
      var e := es[|es| - 1];
      SuccessTime(es[..|es| - 1]) + (if e.CalculationCompletedEvent? && e.success then e.executionTime else 0.0)
  }

  predicate IsStarted(e: Event) { e.CalculationStartedEvent? }
  predicate IsSucceeded(e: Event) { e.CalculationCompletedEvent? && e.success }
  predicate IsFailed(e: Event) { e.CalculationCompletedEvent? && !e.success }
  predicate IsCompletedExport(e: Event) { e.DataExportEvent? && e.exportStatus == "completed" }
  predicate IsErrorOf(t: string, e: Event) { e.ErrorEvent? && e.errorType == t }

  /** From fresh metrics, every counter is the number of matching events, and the total time their sum. */
  lemma {:induction false} RecordAllCounts(es: seq<Event>)
    ensures var r := RecordAll(InitialMetrics, es);
      && r.calculationsStarted == CountWhere(es, IsStarted)
      && r.calculationsCompleted == CountWhere(es, IsSucceeded)
      && r.calculationsFailed == CountWhere(es, IsFailed)
      && r.exportsCompleted == CountWhere(es, IsCompletedExport)
      && r.totalExecutionTime == SuccessTime(es)
  {
    if |es| > 0 {
      RecordAllCounts(es[..|es| - 1]);
    }
  }

  /** From fresh metrics, an error type has an entry iff such an error occurred, and the entry counts them. */
  lemma {:induction false} RecordAllCountsErrors(es: seq<Event>, t: string)
    ensures var r := RecordAll(InitialMetrics, es);
      && (t in r.errorsByType <==> CountWhere(es, e => IsErrorOf(t, e)) > 0)
      && (t in r.errorsByType ==> r.errorsByType[t] == CountWhere(es, e => IsErrorOf(t, e)))
  {
    if |es| > 0 {
      RecordAllCountsErrors(es[..|es| - 1], t);
    }
  }

  class MetricsEventHandler {
    var metrics: Metrics

    constructor ()
      ensures metrics == InitialMetrics
    {
      metrics := InitialMetrics;
    }

    /** `handle`. */
    method Handle(e: Event)
      modifies this
      ensures metrics == Record(old(metrics), e)
    {
      match e
      case CalculationStartedEvent(_, _) =>
        metrics := metrics.(calculationsStarted := metrics.calculationsStarted + 1);
      case CalculationCompletedEvent(_, time, success) =>
        if success {
          metrics := metrics.(calculationsCompleted := metrics.calculationsCompleted + 1);
          metrics := metrics.(totalExecutionTime := metrics.totalExecutionTime + time);
        } else {
          metrics := metrics.(calculationsFailed := metrics.calculationsFailed + 1);
        }
      case ErrorEvent(errorType, _, _) =>
        var seen := if errorType in metrics.errorsByType then metrics.errorsByType[errorType] else 0;
        metrics := metrics.(errorsByType := metrics.errorsByType[errorType := seen + 1]);
      case DataExportEvent(_, status) =>
        if status == "completed" {
          metrics := metrics.(exportsCompleted := metrics.exportsCompleted + 1);
        }
    }

    /** `get_metrics`: a copy of the current values. */
    method GetMetrics() returns (r: Metrics)
      ensures r == metrics
    {
      r := metrics;
    }

    /** `reset_metrics`. */
    method ResetMetrics()
      modifies this
      ensures metrics == InitialMetrics
    {
      metrics := InitialMetrics;
    }
  }

  /** A client: a fresh handler fed `es` holds the counts of `es`. */
  method CollectMetrics(es: seq<Event>) returns (r: Metrics)
    ensures r == RecordAll(InitialMetrics, es)
    ensures r.calculationsStarted == CountWhere(es, IsStarted) && r.exportsCompleted == CountWhere(es, IsCompletedExport)
  {
    var handler := new MetricsEventHandler();
    var i := 0;
    while i < |es|
      invariant 0 <= i <= |es|
      invariant handler.metrics == RecordAll(InitialMetrics, es[..i])
    {
      handler.Handle(es[i]);
      assert es[..i + 1][..i] == es[..i];
      i := i + 1;
    }
    assert es[..|es|] == es;
    r := handler.GetMetrics();
    RecordAllCounts(es);
  }
}
