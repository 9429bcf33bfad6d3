/**
 * The selection and filter rules of the two collection paths: which cache
 * entries the stats cycle reports for (`collect_stats_and_send`), which stats
 * results lead to metric emissions, and which runtime events are forwarded and
 * under what name (`collect_container_events`). Metric conversion and the
 * property maps come from a converter that is not part of this model; they
 * appear as function parameters.
 */
module Selection {
  import opened Wrappers
  import opened ContainerState

  // ---------------------------------------------------------------------------
  // Stats
  // ---------------------------------------------------------------------------

  /** One raw stats sample as the Docker stats endpoint returns it. */
  datatype StatsSample = StatsSample(fields: map<string, string>)

  /** One converted metric. */
  datatype Metric = Metric(name: string, value: real)

  /** What the stats cycle sends: `{'metric': metric, 'properties': properties}`. */
  datatype MetricEvent = MetricEvent(metric: Metric, properties: map<string, string>)

  /**
   * The containers the collector reports stats for itself (`containers_without_sdk`):
   * exactly the cached containers that are the collector's own or have no ikey.
   */
  function StatsTargets(m: State, myId: Option<ContainerId>): (r: set<Container>)
    requires Consistent(m)
    ensures forall c :: c in r <==> c.id in m && m[c.id].container == c && (Some(c.id) == myId || m[c.id].ikey.None?)
  {
    set k | k in m && (Some(k) == myId || m[k].ikey.None?) :: m[k].container
  }

  /** The events sent for one stats result: one per converted metric, or none when there are too few samples. */
  function EmissionsFor(container: Container, stats: seq<StatsSample>, hostName: string,
                        toMetrics: seq<StatsSample> -> seq<Metric>,
                        containerProperties: (Container, string) -> map<string, string>): (r: seq<MetricEvent>)
    ensures |stats| <= 1 ==> r == []
    ensures |stats| > 1 ==> |r| == |toMetrics(stats)|
    ensures forall j :: 0 <= j < |r| ==> r[j] == MetricEvent(toMetrics(stats)[j], containerProperties(container, hostName))
  {
    if |stats| > 1 then
      var metrics := toMetrics(stats);
      seq(|metrics|, i requires 0 <= i < |metrics| => MetricEvent(metrics[i], containerProperties(container, hostName)))
    else []
  }

  /** The events sent for a list of `(container, stats)` results, in order. */
  function Emissions(results: seq<(Container, seq<StatsSample>)>, hostName: string,
                     toMetrics: seq<StatsSample> -> seq<Metric>,
                     containerProperties: (Container, string) -> map<string, string>): seq<MetricEvent>
  {
    if results == [] then []
    else
      var last := results[|results| - 1];
      Emissions(results[..|results| - 1], hostName, toMetrics, containerProperties)
        + EmissionsFor(last.0, last.1, hostName, toMetrics, containerProperties)
  }

  /** The `(container, stats)` pairs the fan-out over `targets` yields, in the order of `targets`. */
  function StatsResults(targets: seq<Container>, getStats: (Container, int) -> seq<StatsSample>, samples: int)
    : (r: seq<(Container, seq<StatsSample>)>)
    ensures |r| == |targets|
    ensures forall j :: 0 <= j < |targets| ==> r[j] == (targets[j], getStats(targets[j], samples))
  {
    seq(|targets|, j requires 0 <= j < |targets| => (targets[j], getStats(targets[j], samples)))
  }

  /**
   * `containers_without_sdk`: the selected containers, each once, in the order
   * in which the cache is walked (the model fixes no order).
   */
  method SelectStatsTargets(m: State, myId: Option<ContainerId>) returns (targets: seq<Container>)
    requires Consistent(m)
    ensures forall c :: c in targets <==> c in StatsTargets(m, myId)
    ensures forall j, k :: 0 <= j < k < |targets| ==> targets[j] != targets[k]
  {
    var remaining := StatsTargets(m, myId);
    targets := [];
    while remaining != {}
      invariant forall c :: c in targets ==> c !in remaining
      invariant forall c :: c in targets || c in remaining <==> c in StatsTargets(m, myId)
      invariant forall j, k :: 0 <= j < k < |targets| ==> targets[j] != targets[k]
      decreases remaining
    {
      var container :| container in remaining;
      targets := targets + [container];
      remaining := remaining - {container};
    }
  }

  /** The thread-pool `map` of `get_stats` over the targets, run one container after the other. */
  method FetchStats(targets: seq<Container>, getStats: (Container, int) -> seq<StatsSample>, samples: int)
    returns (results: seq<(Container, seq<StatsSample>)>)
    ensures |results| == |targets|
    ensures forall j :: 0 <= j < |targets| ==> results[j].0 == targets[j] && results[j].1 == getStats(targets[j], samples)
  {
    results := [];
    for i := 0 to |targets|
      invariant |results| == i
      invariant forall j :: 0 <= j < i ==> results[j] == (targets[j], getStats(targets[j], samples))
    {
      results := results + [(targets[i], getStats(targets[i], samples))];
    }
  }

  /** The events for one result: one per converted metric when it has more than one sample. */
  method SendResult(container: Container, stats: seq<StatsSample>, hostName: string,
                    toMetrics: seq<StatsSample> -> seq<Metric>,
                    containerProperties: (Container, string) -> map<string, string>)
    returns (sent: seq<MetricEvent>)
    ensures sent == EmissionsFor(container, stats, hostName, toMetrics, containerProperties)
  {
    sent := [];
    if |stats| > 1 {
      var metrics := toMetrics(stats);
      var properties := containerProperties(container, hostName);
      for n := 0 to |metrics|
        invariant |sent| == n
        invariant forall j :: 0 <= j < n ==> sent[j] == MetricEvent(metrics[j], properties)
      {
        sent := sent + [MetricEvent(metrics[n], properties)];
      }
    }
  }

  /** Sends one event per converted metric of every result with more than one sample, in order. */
  method SendMetrics(results: seq<(Container, seq<StatsSample>)>, hostName: string,
                     toMetrics: seq<StatsSample> -> seq<Metric>,
                     containerProperties: (Container, string) -> map<string, string>)
    returns (sent: seq<MetricEvent>)
    ensures sent == Emissions(results, hostName, toMetrics, containerProperties)
  {
    sent := [];
    for i := 0 to |results|
      invariant sent == Emissions(results[..i], hostName, toMetrics, containerProperties)
    {
      var (container, stats) := results[i];
      assert results[..i + 1][..i] == results[..i];
      var events := SendResult(container, stats, hostName, toMetrics, containerProperties);
      sent := sent + events;
    }
    assert results[..|results|] == results;
  }

  /**
   * An event is sent exactly for each metric converted from a result with more
   * than one sample, carrying the properties of that result's container.
   */
  lemma {:induction false} EmissionsSpec(results: seq<(Container, seq<StatsSample>)>, hostName: string,
                                         toMetrics: seq<StatsSample> -> seq<Metric>,
                                         containerProperties: (Container, string) -> map<string, string>,
                                         e: MetricEvent)
    ensures e in Emissions(results, hostName, toMetrics, containerProperties) <==>
      exists r :: r in results && |r.1| > 1 && e.metric in toMetrics(r.1) &&
        e.properties == containerProperties(r.0, hostName)
  {
    if results != [] {
      var init := results[..|results| - 1];
      var last := results[|results| - 1];
      assert results == init + [last];
      EmissionsSpec(init, hostName, toMetrics, containerProperties, e);
      var here := EmissionsFor(last.0, last.1, hostName, toMetrics, containerProperties);
      if |last.1| > 1 && e.metric in toMetrics(last.1) && e.properties == containerProperties(last.0, hostName) {
        var i :| 0 <= i < |toMetrics(last.1)| && toMetrics(last.1)[i] == e.metric;
        assert here[i] == e;
      }
    }
  }

  /** The events of consecutive stretches of results are sent one stretch after the other. */
  lemma {:induction false} EmissionsConcat(a: seq<(Container, seq<StatsSample>)>, b: seq<(Container, seq<StatsSample>)>,
                                           hostName: string, toMetrics: seq<StatsSample> -> seq<Metric>,
                                           containerProperties: (Container, string) -> map<string, string>)
    ensures Emissions(a + b, hostName, toMetrics, containerProperties) ==
      Emissions(a, hostName, toMetrics, containerProperties) + Emissions(b, hostName, toMetrics, containerProperties)
  {
    if b == [] {
      assert a + b == a;
    } else {
      var ab := a + b;
      var init := b[..|b| - 1];
      var last := b[|b| - 1];
      assert ab[..|ab| - 1] == a + init;
      assert ab[|ab| - 1] == last;
      EmissionsConcat(a, init, hostName, toMetrics, containerProperties);
      var here := EmissionsFor(last.0, last.1, hostName, toMetrics, containerProperties);
      var ea := Emissions(a, hostName, toMetrics, containerProperties);
      var ei := Emissions(init, hostName, toMetrics, containerProperties);
      assert Emissions(ab, hostName, toMetrics, containerProperties) == (ea + ei) + here;
      assert Emissions(b, hostName, toMetrics, containerProperties) == ei + here;
      AppendAssociative(ea, ei, here);
    }
  }

  lemma AppendAssociative<T>(x: seq<T>, y: seq<T>, z: seq<T>)
    ensures (x + y) + z == x + (y + z)
  {
  }

  /** Results with one sample or none are dropped whole. */
  lemma {:induction false} ShortResultsDropped(results: seq<(Container, seq<StatsSample>)>, hostName: string,
                                               toMetrics: seq<StatsSample> -> seq<Metric>,
                                               containerProperties: (Container, string) -> map<string, string>)
    requires forall r :: r in results ==> |r.1| <= 1
    ensures Emissions(results, hostName, toMetrics, containerProperties) == []
  {
    if results != [] {
      assert results[|results| - 1] in results;
      ShortResultsDropped(results[..|results| - 1], hostName, toMetrics, containerProperties);
    }
  }

  // ---------------------------------------------------------------------------
  // Events
  // ---------------------------------------------------------------------------

  /** The statuses of the events the collector forwards. */
  const ReportedStatuses: set<string> := {"start", "stop", "die", "restart", "pause", "unpause"}

  /** The statuses after which the container has finished and its exit facts are attached. */
  const TerminalStatuses: set<string> := {"stop", "die"}

  const EventNamePrefix: string := "docker-container-"

  /** `event_name_template.format(status)`. */
  function EventName(status: string): (r: string)
    ensures |r| == |EventNamePrefix| + |status|
    ensures r[..|EventNamePrefix|] == EventNamePrefix && r[|EventNamePrefix|..] == status
  {
    EventNamePrefix + status
  }

  /** The ikey an event is sent with: the resolved one, or the empty string. */
  function IkeyToSend(ikey: Option<string>): string
  {
    if ikey.Some? then ikey.value else ""
  }

  /** The statuses of the events that are forwarded, in stream order. */
  function ReportedOnly(statuses: seq<string>): (r: seq<string>)
    ensures forall s :: s in r ==> s in ReportedStatuses
    ensures |r| <= |statuses|
  {
    if statuses == [] then []
    else
      var last := statuses[|statuses| - 1];
      ReportedOnly(statuses[..|statuses| - 1]) + (if last in ReportedStatuses then [last] else [])
  }

  /** Filtering one more status of a stream appends it exactly when it is forwarded. */
  lemma ReportedOnlyStep(statuses: seq<string>, i: nat)
    requires i < |statuses|
    ensures ReportedOnly(statuses[..i + 1]) ==
      ReportedOnly(statuses[..i]) + (if statuses[i] in ReportedStatuses then [statuses[i]] else [])
  {
    assert statuses[..i + 1][..i] == statuses[..i];
  }

  /** Distinct statuses give distinct event names. */
  lemma EventNameInjective(a: string, b: string)
    requires EventName(a) == EventName(b)
    ensures a == b
  {
    assert a == EventName(a)[|EventNamePrefix|..];
  }

  /** Filtering a stream in two stretches gives the forwarded statuses of the first, then those of the second. */
  lemma {:induction false} ReportedOnlyConcat(a: seq<string>, b: seq<string>)
    ensures ReportedOnly(a + b) == ReportedOnly(a) + ReportedOnly(b)
  {
    if b == [] {
      assert a + b == a;
    } else {
      var init := b[..|b| - 1];
      assert (a + b)[..|a + b| - 1] == a + init;
      assert (a + b)[|a + b| - 1] == b[|b| - 1];
      ReportedOnlyConcat(a, init);
    }
  }

  /** Filtering keeps every forwarded status and drops every other, in order. */
  lemma {:induction false} ReportedOnlySpec(statuses: seq<string>, s: string)
    ensures s in ReportedOnly(statuses) <==> s in statuses && s in ReportedStatuses
  {
    if statuses != [] {
      var init := statuses[..|statuses| - 1];
      assert statuses == init + [statuses[|statuses| - 1]];
      ReportedOnlySpec(init, s);
    }
  }
}
