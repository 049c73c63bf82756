/**
  The result-folding half of `GMBClient.get_performance_metrics`: the
  `reportInsights` response is folded into six named counters. The request
  itself (the 30-day window, the API call) is not part of this model; the
  response arrives as a parameter.
*/
module MetricsNormalizer {
  import opened Wrappers
  import opened PyValues
  import opened PyNumbers

  /** The six counters of the metrics dict; `Key` is the dict key the source uses. */
  datatype Counter = QueriesDirect | QueriesIndirect | Views | Calls | Directions | WebsiteClicks {
    function Key(): string {
      match this
      case QueriesDirect => "queries_direct"
      case QueriesIndirect => "queries_indirect"
      case Views => "views"
      case Calls => "calls"
      case Directions => "directions"
      case WebsiteClicks => "website_clicks"
    }
  }

  /** The counters in the order the source creates them. */
  const CounterOrder: seq<Counter> :=
    [QueriesDirect, QueriesIndirect, Views, Calls, Directions, WebsiteClicks]

  const AllCounters: set<Counter> :=
    {QueriesDirect, QueriesIndirect, Views, Calls, Directions, WebsiteClicks}

  /** The record every successful run starts from. */
  const ZeroCounters: map<Counter, int> :=
    map[QueriesDirect := 0, QueriesIndirect := 0, Views := 0,
        Calls := 0, Directions := 0, WebsiteClicks := 0]

  /** The counter an API metric name feeds; any other value feeds none. */
  function CounterFor(metric: Json): Option<Counter> {
    if metric == JStr("QUERIES_DIRECT") then Some(QueriesDirect)
    else if metric == JStr("QUERIES_INDIRECT") then Some(QueriesIndirect)
    else if metric == JStr("VIEWS") then Some(Views)
    else if metric == JStr("ACTIONS_PHONE") then Some(Calls)
    else if metric == JStr("ACTIONS_DIRECTIONS") then Some(Directions)
    else if metric == JStr("ACTIONS_WEBSITE") then Some(WebsiteClicks)
    else None
  }

  /** The elements `for x in v` visits: the items of a list, the one-character
      strings of a str, the keys of a dict; anything else is not iterable. */
  function Iterate(v: Json): Result<seq<Json>, PyError> {
    match v
    case JList(items) => Success(items)
    case JStr(s) => Success(seq(|s|, k requires 0 <= k < |s| => JStr([s[k]])))
    case JObj(members) => Success(seq(|members|, k requires 0 <= k < |members| => JStr(members[k].0)))
    case _ => Failure(TypeError)
  }

  /** What one insight contributes: the counter it feeds, if any, and its value. */
  datatype Reading = Reading(counter: Option<Counter>, value: int)

  /** `insight['metric']` and `int(insight.get('value', 0))`, both read before
      the name is looked at, so an unrecognised metric with a bad value still raises. */
  function ReadInsight(insight: Json): Result<Reading, PyError> {
    match insight
    case JObj(members) =>
      (match Get(members, "metric")
       case None => Failure(KeyError)
       case Some(metric) =>
         var value :- IntCoerce(GetOr(members, "value", JInt(0)));
         Success(Reading(CounterFor(metric), value)))
    case _ => Failure(TypeError)
  }

  function Apply(counters: map<Counter, int>, r: Reading): map<Counter, int> {
    if r.counter.Some? then counters[r.counter.value := r.value] else counters
  }

  /** The counters after the insights have been read in order, or the first exception. */
  function FoldInsights(insights: seq<Json>): Result<map<Counter, int>, PyError> {
    if insights == [] then Success(ZeroCounters)
    else
      var before := FoldInsights(insights[..|insights| - 1]);
      var r := ReadInsight(insights[|insights| - 1]);
      if before.Failure? then before
      else if r.Failure? then Failure(r.error)
      else Success(Apply(before.value, r.value))
  }

  /** What `get_performance_metrics` returns for a response: the counters, or
      the empty dict its `except` clause returns once anything raised. */
  function Normalized(result: Dict): map<Counter, int> {
    match Get(result, "insights")
    case None => ZeroCounters
    case Some(v) =>
      match Iterate(v)
      case Failure(_) => map[]
      case Success(items) =>
        match FoldInsights(items)
        case Success(counters) => counters
        case Failure(_) => map[]
  }

  /** The response-processing lines of `get_performance_metrics`, step by step
      as the source runs them. */
  method NormalizeMetrics(result: Dict) returns (metrics: map<Counter, int>)
    ensures metrics == Normalized(result)
  {
    metrics := map[QueriesDirect := 0, QueriesIndirect := 0, Views := 0,
                   Calls := 0, Directions := 0, WebsiteClicks := 0];
    var found := Get(result, "insights");
    if found.None? {
      return;
    }
    var elements := Iterate(found.value);
    if elements.Failure? {
      return map[];
    }
    var insights := elements.value;
    var i := 0;
    while i < |insights|
      invariant 0 <= i <= |insights|
      invariant FoldInsights(insights[..i]) == Success(metrics)
    {
      var insight := insights[i];
      ReadBranches(insight);
      if !insight.JObj? {
        FoldRaises(insights, i);
        return map[];
      }
      var metricType := Get(insight.members, "metric");
      if metricType.None? {
        FoldRaises(insights, i);
        return map[];
      }
      var coerced := IntCoerce(GetOr(insight.members, "value", JInt(0)));
      if coerced.Failure? {
        FoldRaises(insights, i);
        return map[];
      }
      var value := coerced.value;
      var name := metricType.value;
      ghost var before := metrics;
      ghost var fed := CounterFor(name);
      if name == JStr("QUERIES_DIRECT") {
        assert fed == Some(QueriesDirect);
        metrics := metrics[QueriesDirect := value];
      } else if name == JStr("QUERIES_INDIRECT") {
        assert fed == Some(QueriesIndirect);
        metrics := metrics[QueriesIndirect := value];
      } else if name == JStr("VIEWS") {
        assert fed == Some(Views);
        metrics := metrics[Views := value];
      } else if name == JStr("ACTIONS_PHONE") {
        assert fed == Some(Calls);
        metrics := metrics[Calls := value];
      } else if name == JStr("ACTIONS_DIRECTIONS") {
        assert fed == Some(Directions);
        metrics := metrics[Directions := value];
      } else if name == JStr("ACTIONS_WEBSITE") {
        assert fed == Some(WebsiteClicks);
        metrics := metrics[WebsiteClicks := value];
      } else {
        assert fed == None;
      }
      assert metrics == Apply(before, Reading(fed, value));
      FoldExtends(insights, i, before);
      i := i + 1;
    }
    assert insights[..|insights|] == insights;
  }

  /** `ReadInsight` case by case, in the order the source tests the insight. */
  lemma ReadBranches(insight: Json)
    ensures !insight.JObj? ==> ReadInsight(insight).Failure?
    ensures insight.JObj? && Get(insight.members, "metric").None? ==> ReadInsight(insight).Failure?
    ensures insight.JObj? && Get(insight.members, "metric").Some? &&
            IntCoerce(GetOr(insight.members, "value", JInt(0))).Failure? ==>
            ReadInsight(insight).Failure?
    ensures insight.JObj? && Get(insight.members, "metric").Some? &&
            IntCoerce(GetOr(insight.members, "value", JInt(0))).Success? ==>
            ReadInsight(insight) == Success(Reading(CounterFor(Get(insight.members, "metric").value),
                                                    IntCoerce(GetOr(insight.members, "value", JInt(0))).value))
  {
  }

  /** An insight that raises after a clean prefix makes the whole fold raise. */
  lemma FoldRaises(insights: seq<Json>, i: nat)
    requires i < |insights|
    requires FoldInsights(insights[..i]).Success?
    requires ReadInsight(insights[i]).Failure?
    ensures FoldInsights(insights).Failure?
  {
    assert insights[..i + 1][..i] == insights[..i];
    FoldFailurePersists(insights, i + 1);
  }

  /** Reading one more insight applies its reading to the counters. */
  lemma FoldExtends(insights: seq<Json>, i: nat, counters: map<Counter, int>)
    requires i < |insights|
    requires FoldInsights(insights[..i]) == Success(counters)
    requires ReadInsight(insights[i]).Success?
    ensures FoldInsights(insights[..i + 1]) == Success(Apply(counters, ReadInsight(insights[i]).value))
  {
    assert insights[..i + 1][..i] == insights[..i];
  }

  /** Once a prefix of the insights raises, the whole fold raises. */
  lemma {:induction false} FoldFailurePersists(insights: seq<Json>, i: nat)
    requires i <= |insights|
    requires FoldInsights(insights[..i]).Failure?
    ensures FoldInsights(insights).Failure?
  {
    if i < |insights| {
      var p := insights[..|insights| - 1];
      assert p[..i] == insights[..i];
      FoldFailurePersists(p, i);
    } else {
      assert insights[..i] == insights;
    }
  }

  /** The insight `x` reads without raising and feeds counter `c`. */
  predicate Feeds(x: Json, c: Counter) {
    ReadInsight(x).Success? && ReadInsight(x).value.counter == Some(c)
  }

  /** The response is processed without an exception. */
  predicate Coercible(result: Dict) {
    match Get(result, "insights")
    case None => true
    case Some(v) =>
      && Iterate(v).Success?
      && forall k :: 0 <= k < |Iterate(v).value| ==> ReadInsight(Iterate(v).value[k]).Success?
  }

  /** The fold runs to the end exactly when no insight raises, and then it
      holds exactly the six counters. */
  lemma {:induction false} FoldSucceedsIff(insights: seq<Json>)
    ensures FoldInsights(insights).Success? <==>
            forall k :: 0 <= k < |insights| ==> ReadInsight(insights[k]).Success?
    ensures FoldInsights(insights).Success? ==> FoldInsights(insights).value.Keys == AllCounters
  {
    if insights != [] {
      var p := insights[..|insights| - 1];
      FoldSucceedsIff(p);
      assert forall k :: 0 <= k < |p| ==> p[k] == insights[k];
    } else {
      assert ZeroCounters.Keys == AllCounters;
    }
  }

  /** Insight `j` feeds counter `c` and no later insight does. */
  predicate LastFeeder(insights: seq<Json>, j: int, c: Counter) {
    && 0 <= j < |insights|
    && Feeds(insights[j], c)
    && forall l :: j < l < |insights| ==> !Feeds(insights[l], c)
  }

  /** One step of the fold, seen from counter `c`. */
  lemma FoldStep(insights: seq<Json>, c: Counter)
    requires insights != [] && FoldInsights(insights).Success?
    ensures FoldInsights(insights[..|insights| - 1]).Success?
    ensures ReadInsight(insights[|insights| - 1]).Success?
    ensures FoldInsights(insights).value ==
            Apply(FoldInsights(insights[..|insights| - 1]).value, ReadInsight(insights[|insights| - 1]).value)
  {
  }

  lemma ApplyAt(counters: map<Counter, int>, r: Reading, c: Counter)
    requires c in counters
    ensures c in Apply(counters, r)
    ensures Apply(counters, r)[c] == if r.counter == Some(c) then r.value else counters[c]
  {
  }

  /** Last write wins: each counter holds the value of the last insight that
      feeds it, and 0 when none does; unrecognised metrics change nothing. */
  lemma {:induction false} LastWriteWins(insights: seq<Json>, c: Counter)
    requires FoldInsights(insights).Success?
    requires c in AllCounters
    ensures c in FoldInsights(insights).value
    ensures (forall j :: 0 <= j < |insights| ==> !Feeds(insights[j], c)) ==>
            FoldInsights(insights).value[c] == 0
    ensures forall j :: LastFeeder(insights, j, c) ==>
            FoldInsights(insights).value[c] == ReadInsight(insights[j]).value.value
  {
    if insights == [] {
      assert FoldInsights(insights).value == ZeroCounters;
    } else {
      var n := |insights| - 1;
      var p, x := insights[..n], insights[n];
      FoldStep(insights, c);
      LastWriteWins(p, c);
      var mp := FoldInsights(p).value;
      var r := ReadInsight(x).value;
      ApplyAt(mp, r, c);
      assert Feeds(x, c) <==> r.counter == Some(c);
      if Feeds(x, c) {
        forall j | LastFeeder(insights, j, c)
          ensures j == n
        {
        }
      } else {
        forall j | LastFeeder(insights, j, c)
          ensures LastFeeder(p, j, c) && p[j] == insights[j]
        {
        }
        if forall j :: 0 <= j < |insights| ==> !Feeds(insights[j], c) {
          forall j | 0 <= j < |p|
            ensures !Feeds(p[j], c)
          {
            assert p[j] == insights[j];
          }
        }
      }
    }
  }

  /** The result is either the empty dict or all six counters, and it is the
      empty dict exactly when processing the response raised. */
  lemma NormalizedShape(result: Dict)
    ensures Normalized(result) == map[] || Normalized(result).Keys == AllCounters
    ensures Normalized(result) != map[] <==> Coercible(result)
  {
    assert ZeroCounters.Keys == AllCounters;
    assert Views in ZeroCounters;
    match Get(result, "insights")
    case None =>
    case Some(v) =>
      if Iterate(v).Success? {
        FoldSucceedsIff(Iterate(v).value);
      }
  }

  /** Without an `insights` key every counter is 0. */
  lemma NoInsightsGivesZeros(result: Dict)
    requires Get(result, "insights") == None
    ensures Normalized(result).Keys == AllCounters
    ensures forall c :: c in AllCounters ==> Normalized(result)[c] == 0
  {
  }

  /** An insight without a value reads as 0 for its metric, whatever else it holds. */
  lemma MissingValueReadsAsZero(members: Dict, metric: Json)
    requires Get(members, "metric") == Some(metric) && Get(members, "value").None?
    ensures ReadInsight(JObj(members)) == Success(Reading(CounterFor(metric), 0))
  {
  }

  /** A value text of more than `MaxStrDigits` digits is refused by `int()`, and
      the whole record is then `{}`. */
  lemma LongValueEmptiesRecord(result: Dict, members: Dict, n: nat)
    requires Get(result, "insights") == Some(JList([JObj(members)]))
    requires Get(members, "metric").Some? && Get(members, "value") == Some(JStr(Decimal(n)))
    requires DigitCount(n) > MaxStrDigits
    ensures Normalized(result) == map[]
  {
    IntCoerceNumberOrText(n);
    BadValueEmptiesRecord(result, 0);
  }

  /** A single value `int()` refuses empties the whole record, even when its
      metric is not one of the six: the result is `{}`, not a zeroed counter. */
  lemma BadValueEmptiesRecord(result: Dict, k: nat)
    requires Get(result, "insights").Some? && Get(result, "insights").value.JList?
    requires k < |Get(result, "insights").value.items|
    requires ReadInsight(Get(result, "insights").value.items[k]).Failure?
    ensures Normalized(result) == map[]
  {
    FoldSucceedsIff(Get(result, "insights").value.items);
  }

  /** `int()` does not strip an ASCII separator such as U+001C, so a value
      text that begins with one empties the record. */
  lemma SeparatorValueEmptiesRecord(result: Dict, members: Dict)
    requires Get(result, "insights") == Some(JList([JObj(members)]))
    requires Get(members, "metric").Some? && Get(members, "value") == Some(JStr("\U{1C}5"))
    ensures Normalized(result) == map[]
  {
    SeparatorNotStripped();
    assert IntCoerce(JStr("\U{1C}5")) == Failure(ValueError);
    assert ReadInsight(JObj(members)).Failure?;
    BadValueEmptiesRecord(result, 0);
  }

  /** Insights whose metrics are all unrecognised leave the zeroed record. */
  lemma UnrecognisedOnlyGivesZeros(result: Dict)
    requires Get(result, "insights").Some? && Get(result, "insights").value.JList?
    requires forall x :: x in Get(result, "insights").value.items ==>
               ReadInsight(x).Success? && ReadInsight(x).value.counter.None?
    ensures Normalized(result) == ZeroCounters
  {
    var items := Get(result, "insights").value.items;
    FoldSucceedsIff(items);
    var m := FoldInsights(items).value;
    forall c | c in AllCounters
      ensures m[c] == 0
    {
      LastWriteWins(items, c);
    }
    assert ZeroCounters.Keys == AllCounters;
  }

  /** The counters as the Python dict a caller hands on as `performance`,
      members in the order the source creates them. */
  function AsDict(counters: map<Counter, int>): Dict {
    DictOver(counters, CounterOrder)
  }

  function DictOver(counters: map<Counter, int>, order: seq<Counter>): Dict {
    if order == [] then []
    else
      (if order[0] in counters then [(order[0].Key(), JInt(counters[order[0]]))] else [])
      + DictOver(counters, order[1..])
  }

  /** Looking a counter's key up in the dict finds the counter's value. */
  lemma {:induction false} DictOverLookup(counters: map<Counter, int>, order: seq<Counter>, c: Counter)
    ensures Get(DictOver(counters, order), c.Key()) ==
            if c in order && c in counters then Some(JInt(counters[c])) else None
  {
    if order != [] {
      DictOverLookup(counters, order[1..], c);
      var head := if order[0] in counters then [(order[0].Key(), JInt(counters[order[0]]))] else [];
      var tail := DictOver(counters, order[1..]);
      GetConcat(head, tail, c.Key());
      KeyInjective(order[0], c);
      assert c in order <==> c == order[0] || c in order[1..];
    }
  }

  lemma KeyInjective(a: Counter, b: Counter)
    ensures a.Key() == b.Key() <==> a == b
  {
    if a != b {
      assert |a.Key()| != |b.Key()| || a.Key()[0] != b.Key()[0];
    }
  }

  /** The dict holds a key only for a counter the record has. */
  lemma AsDictLookup(counters: map<Counter, int>, c: Counter)
    ensures Get(AsDict(counters), c.Key()) == if c in counters then Some(JInt(counters[c])) else None
  {
    DictOverLookup(counters, CounterOrder, c);
  }

  lemma GetConcat(d: Dict, e: Dict, key: string)
    ensures Get(d + e, key) == if Get(d, key).Some? then Get(d, key) else Get(e, key)
  {
    if d != [] {
      assert (d + e)[1..] == d[1..] + e;
      GetConcat(d[1..], e, key);
    } else {
      assert d + e == e;
    }
  }
}
