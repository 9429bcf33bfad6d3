/**
 * `DockerCollector`: the object that owns the container-state cache and runs
 * the two collection paths. Every call into Docker is an input: a `Snapshot`
 * stands for the listing, the command outcomes and the clock seen by one
 * refresh pass; stats, conversions and property maps are function parameters;
 * what the collector sends is returned as the sequence of sent records.
 */
module Collector {
  import opened Wrappers
  import opened SdkInfo
  import opened ContainerState
  import opened Selection

  /** What one refresh pass observes: the container listing, the command outcomes and the time. */
  datatype Snapshot = Snapshot(containers: Listing, probe: Probe, now: Time)

  /** A value in an event's property map. */
  datatype PropertyValue = Text(text: string) | Integer(number: int) | Decimal(amount: real)

  type Properties = map<string, PropertyValue>

  /** The fields of `docker inspect` that the event path attaches. */
  datatype Inspection = Inspection(created: string, startedAt: string, finishedAt: string,
                                   exitCode: int, error: Option<string>, restartCount: int)

  /**
   * One event from the stream with everything handling it consults: its
   * status, the inspection of its container, the converter's property map for
   * that inspection, the time between `StartedAt` and `FinishedAt` in seconds,
   * and what a refresh pass would observe if the lookup needs one.
   */
  datatype EventInput = EventInput(status: string, inspection: Inspection, inspectionProperties: Properties,
                                   elapsedSeconds: real, runtime: Snapshot)

  /** What the event path sends: `{'name', 'ikey', 'properties'}`. */
  datatype EventRecord = EventRecord(name: string, ikey: string, properties: Properties)

  /** The property the converter fills with the inspected container's id. */
  const ContainerIdProperty: string := "Docker container id"

  /** The container id that the lookup for an event uses. */
  predicate HasContainerId(ev: EventInput)
  {
    ContainerIdProperty in ev.inspectionProperties && ev.inspectionProperties[ContainerIdProperty].Text?
  }

  /** The properties every forwarded event sets. */
  const BaseProperties: set<string> := {"docker-status", "docker-Created", "docker-StartedAt", "docker-RestartCount"}

  /** The properties only a terminal event (`stop` or `die`) sets. */
  const TerminalProperties: set<string> := {"docker-FinishedAt", "docker-ExitCode", "docker-Error",
    "docker-duration-seconds", "docker-duration-minutes", "docker-duration-hours", "docker-duration-days"}

  /**
   * The properties an event is sent with: the converter's map with the status
   * and start facts set; a terminal event also has its exit facts set, with a
   * missing error as the empty string and the duration in seconds, minutes,
   * hours and days. Every other property of the converter's map is kept as
   * it is, and no other property is added.
   */
  function EventProperties(ev: EventInput): (props: Properties)
    ensures BaseProperties <= props.Keys
    ensures ev.status in TerminalStatuses ==> TerminalProperties <= props.Keys
    ensures "docker-status" in props && props["docker-status"] == Text(ev.status)
    ensures "docker-Created" in props && props["docker-Created"] == Text(ev.inspection.created)
    ensures "docker-StartedAt" in props && props["docker-StartedAt"] == Text(ev.inspection.startedAt)
    ensures "docker-RestartCount" in props && props["docker-RestartCount"] == Integer(ev.inspection.restartCount)
    ensures ev.status in TerminalStatuses ==>
      && "docker-FinishedAt" in props && props["docker-FinishedAt"] == Text(ev.inspection.finishedAt)
      && "docker-Error" in props
      && props["docker-Error"] == Text(if ev.inspection.error.None? then "" else ev.inspection.error.value)
      && "docker-ExitCode" in props && props["docker-ExitCode"] == Integer(ev.inspection.exitCode)
      && "docker-duration-seconds" in props && props["docker-duration-seconds"] == Decimal(ev.elapsedSeconds)
      && "docker-duration-minutes" in props && props["docker-duration-minutes"].Decimal?
      && props["docker-duration-minutes"].amount * 60.0 == ev.elapsedSeconds
      && "docker-duration-hours" in props && props["docker-duration-hours"].Decimal?
      && props["docker-duration-hours"].amount * 3600.0 == ev.elapsedSeconds
      && "docker-duration-days" in props && props["docker-duration-days"].Decimal?
      && props["docker-duration-days"].amount * 86400.0 == ev.elapsedSeconds
    ensures forall p :: (p in ev.inspectionProperties && p !in BaseProperties &&
                         (p !in TerminalProperties || ev.status !in TerminalStatuses)) ==>
      p in props && props[p] == ev.inspectionProperties[p]
    ensures forall p :: p in props ==>
      (p in ev.inspectionProperties || p in BaseProperties || (p in TerminalProperties && ev.status in TerminalStatuses))
  {
    var insp := ev.inspection;
    var props := ev.inspectionProperties["docker-status" := Text(ev.status)]
      ["docker-Created" := Text(insp.created)]["docker-StartedAt" := Text(insp.startedAt)]
      ["docker-RestartCount" := Integer(insp.restartCount)];
    if ev.status in TerminalStatuses then
      props["docker-FinishedAt" := Text(insp.finishedAt)]["docker-ExitCode" := Integer(insp.exitCode)]
        ["docker-Error" := Text(if insp.error.Some? then insp.error.value else "")]
        ["docker-duration-seconds" := Decimal(ev.elapsedSeconds)]
        ["docker-duration-minutes" := Decimal(ev.elapsedSeconds / 60.0)]
        ["docker-duration-hours" := Decimal(ev.elapsedSeconds / 3600.0)]
        ["docker-duration-days" := Decimal(ev.elapsedSeconds / 86400.0)]
    else props
  }

  /** The statuses of a sequence of events. */
  function Statuses(events: seq<EventInput>): (r: seq<string>)
    ensures |r| == |events| && forall j :: 0 <= j < |events| ==> r[j] == events[j].status
  {
    seq(|events|, j requires 0 <= j < |events| => events[j].status)
  }

  class DockerCollector {
    /** `_samples_in_each_metric`: the number of stats samples requested per container. */
    const samplesInEachMetric: int
    /** `_my_container_id`: the collector's own container, asked for once it is needed. */
    var myContainerId: Option<ContainerId>
    /** `_containers_state`: the container-state cache. */
    var containersState: State

    ghost predicate Valid()
      reads this
    {
      samplesInEachMetric > 1 && Consistent(containersState)
    }

    /** `__init__`: a metric needs at least two samples, so fewer is refused. */
    constructor (samplesInEachMetric: int)
      requires samplesInEachMetric > 1
      ensures Valid()
      ensures this.samplesInEachMetric == samplesInEachMetric
      ensures myContainerId == None && containersState == map[]
    {
      this.samplesInEachMetric := samplesInEachMetric;
      myContainerId := None;
      containersState := map[];
    }

    /**
     * The first-sighting branch of `_update_container_state`: up to
     * `DiscoveryAttempts` discovery attempts, each rewriting the whole entry,
     * stopping at the first ikey found. `found(i)` is what the `i`-th run of
     * the discovery command in the container finds (`Attempts`), and
     * `attempts` counts the runs.
     */
    method RegisterContainer(c: Container, found: nat -> Option<string>, now: Time)
      returns (ikey: Option<string>, ghost attempts: nat)
      requires Valid() && c.id !in containersState
      modifies this
      ensures Valid() && myContainerId == old(myContainerId)
      ensures ikey == Retry(found, 0).ikey && attempts == Retry(found, 0).attempts
      ensures containersState == old(containersState)[c.id := Entry(ikey, now, None, c)]
    {
      attempts := 0;
      for i := 0 to DiscoveryAttempts
        invariant attempts == i
        invariant Valid() && myContainerId == old(myContainerId)
        invariant forall j :: 0 <= j < i ==> found(j).None?
        invariant containersState == if i == 0 then old(containersState)
                                     else old(containersState)[c.id := Entry(None, now, None, c)]
      {
        ikey := found(i);
        attempts := attempts + 1;
        containersState := containersState[c.id := Entry(ikey, now, None, c)];
        if ikey.Some? {
          RetryFirstSuccess(found, i);
          return;
        }
        // time.sleep(1) between attempts is not modelled
      }
      RetryAllFail(found);
      ikey := None;
    }

    /**
     * `_update_container_state`: resolves the ikey of one listed container.
     * `attempts` counts the runs of the discovery command.
     */
    method UpdateContainerState(c: Container, probe: Probe, now: Time) returns (ikey: Option<string>, ghost attempts: nat)
      requires Valid()
      modifies this
      ensures Valid() && myContainerId == old(myContainerId)
      ensures containersState == ResolveOne(old(containersState), c, probe, now)
      ensures ikey == containersState[c.id].ikey
      ensures attempts == AttemptsMade(Lookup(old(containersState), c.id), c, probe, now)
    {
      var id := c.id;
      if id !in containersState {
        ikey, attempts := RegisterContainer(c, Attempts(probe, id), now);
        return;
      }
      attempts := 0;
      var status := containersState[id];
      if status.ikey.Some? {
        ikey := status.ikey;
        return;
      }
      if status.registered > now - RetryWindow {
        ikey := DiscoverIkey(probe(id, 0));
        attempts := 1;
        containersState := containersState[id := status.(ikey := ikey)];
        return;
      }
      ikey := None;
    }

    /** The thread-pool `map` of `_update_container_state` over a listing, run one container after the other. */
    method ResolveListing(containers: Listing, probe: Probe, now: Time)
      requires Valid()
      modifies this
      ensures Valid() && myContainerId == old(myContainerId)
      ensures containersState == ResolveAll(old(containersState), containers, probe, now)
    {
      ghost var start := containersState;
      for i := 0 to |containers|
        invariant Valid() && myContainerId == old(myContainerId)
        invariant containersState == ResolveAll(start, containers[..i], probe, now)
      {
        var ikey;
        ghost var attempts;
        ikey, attempts := UpdateContainerState(containers[i], probe, now);
        ResolveAllStep(start, containers, i, probe, now);
      }
      assert containers[..|containers|] == containers;
    }

    /** `_update_containers_state`: the eviction pass, then the resolution of every listed container. */
    method UpdateContainersState(runtime: Snapshot)
      requires Valid()
      modifies this
      ensures Valid() && myContainerId == old(myContainerId)
      ensures containersState == Refresh(old(containersState), runtime.containers, runtime.probe, runtime.now)
    {
      containersState := RemoveOldContainers(containersState, runtime.containers, runtime.now);
      ResolveListing(runtime.containers, runtime.probe, runtime.now);
    }

    /** `_get_container_sdk_ikey_from_containers_state`: refreshes only for an unknown id, then reads the cache. */
    method GetContainerSdkIkeyFromContainersState(id: ContainerId, runtime: Snapshot) returns (ikey: Option<string>)
      requires Valid()
      modifies this
      ensures Valid() && myContainerId == old(myContainerId)
      ensures containersState ==
        if id in old(containersState) then old(containersState)
        else Refresh(old(containersState), runtime.containers, runtime.probe, runtime.now)
      ensures ikey == if id in containersState then containersState[id].ikey else None
    {
      if id !in containersState {
        UpdateContainersState(runtime);
      }
      if id in containersState {
        ikey := containersState[id].ikey;
      } else {
        ikey := None;
      }
    }

    /**
     * `collect_stats_and_send`: one stats cycle. `targets` is the order in
     * which the selected containers were visited.
     */
    method CollectStatsAndSend(injectorId: Option<ContainerId>, hostName: string, runtime: Snapshot,
                               getStats: (Container, int) -> seq<StatsSample>,
                               toMetrics: seq<StatsSample> -> seq<Metric>,
                               containerProperties: (Container, string) -> map<string, string>)
      returns (sent: seq<MetricEvent>, targets: seq<Container>)
      requires Valid()
      modifies this
      ensures Valid()
      ensures myContainerId == if old(myContainerId).None? then injectorId else old(myContainerId)
      ensures containersState == Refresh(old(containersState), runtime.containers, runtime.probe, runtime.now)
      ensures forall c :: c in targets <==> c in StatsTargets(containersState, myContainerId)
      ensures forall j, k :: 0 <= j < k < |targets| ==> targets[j] != targets[k]
      ensures sent == Emissions(StatsResults(targets, getStats, samplesInEachMetric), hostName, toMetrics, containerProperties)
    {
      if myContainerId.None? {
        myContainerId := injectorId;
      }
      UpdateContainersState(runtime);
      targets := SelectStatsTargets(containersState, myContainerId);
      var containerStats := FetchStats(targets, getStats, samplesInEachMetric);
      assert containerStats == StatsResults(targets, getStats, samplesInEachMetric);
      sent := SendMetrics(containerStats, hostName, toMetrics, containerProperties);
    }

    /** The property map of one forwarded event, filled in one property at a time. */
    static method BuildProperties(ev: EventInput) returns (properties: Properties)
      ensures properties == EventProperties(ev)
    {
      var status := ev.status;
      var inspect := ev.inspection;
      properties := ev.inspectionProperties;
      properties := properties["docker-status" := Text(status)];
      properties := properties["docker-Created" := Text(inspect.created)];
      properties := properties["docker-StartedAt" := Text(inspect.startedAt)];
      properties := properties["docker-RestartCount" := Integer(inspect.restartCount)];
      if status in TerminalStatuses {
        properties := properties["docker-FinishedAt" := Text(inspect.finishedAt)];
        properties := properties["docker-ExitCode" := Integer(inspect.exitCode)];
        var error := inspect.error;
        properties := properties["docker-Error" := Text(if error.Some? then error.value else "")];
        var durationSeconds := ev.elapsedSeconds;
        properties := properties["docker-duration-seconds" := Decimal(durationSeconds)];
        properties := properties["docker-duration-minutes" := Decimal(durationSeconds / 60.0)];
        properties := properties["docker-duration-hours" := Decimal(durationSeconds / 3600.0)];
        properties := properties["docker-duration-days" := Decimal(durationSeconds / 86400.0)];
      }
    }

    /** The handling of one event of `collect_container_events`. */
    method HandleEvent(ev: EventInput) returns (sent: Option<EventRecord>)
      requires Valid()
      requires ev.status in ReportedStatuses ==> HasContainerId(ev)
      modifies this
      ensures Valid() && myContainerId == old(myContainerId)
      ensures sent.Some? <==> ev.status in ReportedStatuses
      ensures sent.Some? ==> sent.value.name == EventName(ev.status)
      ensures ev.status !in ReportedStatuses ==> containersState == old(containersState)
      ensures ev.status in ReportedStatuses ==>
        var id := ev.inspectionProperties[ContainerIdProperty].text;
        && containersState == (if id in old(containersState) then old(containersState)
                               else Refresh(old(containersState), ev.runtime.containers, ev.runtime.probe, ev.runtime.now))
        && sent == Some(EventRecord(EventName(ev.status),
                                    IkeyToSend(if id in containersState then containersState[id].ikey else None),
                                    EventProperties(ev)))
    {
      var status := ev.status;
      if status !in ReportedStatuses {
        return None;
      }
      var eventName := EventName(status);
      var ikeyToSendEvent := GetContainerSdkIkeyFromContainersState(ev.inspectionProperties[ContainerIdProperty].text, ev.runtime);
      var properties := BuildProperties(ev);
      sent := Some(EventRecord(eventName, if ikeyToSendEvent.Some? then ikeyToSendEvent.value else "", properties));
    }

    /** `collect_container_events` over a finite stretch of the event stream. */
    method CollectContainerEvents(events: seq<EventInput>) returns (sent: seq<EventRecord>)
      requires Valid()
      requires forall j :: 0 <= j < |events| && events[j].status in ReportedStatuses ==> HasContainerId(events[j])
      modifies this
      ensures Valid() && myContainerId == old(myContainerId)
      ensures |sent| == |ReportedOnly(Statuses(events))|
      ensures forall j :: 0 <= j < |sent| ==> sent[j].name == EventName(ReportedOnly(Statuses(events))[j])
    {
      ghost var statuses := Statuses(events);
      ghost var forwarded: seq<string> := [];
      sent := [];
      for i := 0 to |events|
        invariant Valid() && myContainerId == old(myContainerId)
        invariant forwarded == ReportedOnly(statuses[..i])
        invariant |sent| == |forwarded|
        invariant forall j :: 0 <= j < |sent| ==> sent[j].name == EventName(forwarded[j])
      {
        var record := HandleEvent(events[i]);
        ReportedOnlyStep(statuses, i);
        if record.Some? {
          sent := sent + [record.value];
          forwarded := forwarded + [events[i].status];
        }
      }
      assert statuses[..|events|] == statuses;
    }
  }
}
