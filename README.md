# DockerCollector container-state cache, in Dafny

This project models the core of the Application Insights Docker collector
(`python/appinsights/dockercollector.py`): the cache that records, for every
container id, whether the container reports telemetry under its own
instrumentation key (ikey), and the rules that read it.

- `SdkInfo.dfy`: ikey discovery from the output of the command that reads
  the SDK info file inside a container. The output is stripped (Python's
  `str.strip`). Blank output or a wrapper error gives no ikey. Otherwise the
  output is split on `=` (Python's `str.split`), and the ikey is the second
  field.
- `ContainerState.dfy`: the cache entries `{ikey, registered, unregistered,
  container}`, the eviction pass `remove_old_containers`, the five-attempt
  discovery loop for a new container, the single re-query of a recent entry
  without an ikey, and one refresh pass over a whole listing. It also holds
  the lemmas about these rules: the grace period, monotonic resolution, the
  retry bound and the on-demand lookup.
- `Selection.dfy`: which cache entries the stats cycle reports for, which
  stats results lead to metric events, and which runtime events are
  forwarded and under what name.
- `Collector.dfy`: the class `DockerCollector`. Its fields are the cache,
  the collector's own container id and the sample count. Each method is
  proved against the specification functions above.
- `Wrappers.dfy`: `Option`, standing for Python's `None`.

Every call into Docker is an input. A `Snapshot` gives the container
listing, the clock reading of the pass, and a `Probe` that gives the outcome
of the n-th run of the discovery command in a container during that pass.
Docker lists each container once, so a `Listing` carries distinct ids. One
pass therefore resolves each id once, and its n-th run in the pass is its
n-th run in the model. Stats, metric conversion and property maps are
function parameters. What the collector sends is returned as a sequence.

Two behaviours of the code are easy to miss, and the model states both:

- An entry's `unregistered` stamp is never cleared. The eviction pass
  (python/appinsights/dockercollector.py:143-148) only sets the stamp or
  deletes the entry, and a listed entry is left untouched.
  `ContainerState.StampSurvivesReappearance` shows the consequence. A
  container that was briefly missing, and goes missing again more than 60 s
  after its old stamp, is deleted in that same pass, with no new grace
  period.
- The ikey is only the second `=`-separated field of the stripped output
  (python/appinsights/dockercollector.py:209), not everything after the
  first `=`. So `a=b=c` gives `b`, and `k=` gives the empty key.

## Model

| member | source | states |
|---|---|---|
| `SdkInfo.Strip` | python/appinsights/dockercollector.py:156 | the result is the stretch of the text that starts where the leading whitespace ends, with only whitespace before and after it; it is empty exactly when the text is all whitespace; a non-empty result neither starts nor ends with whitespace; it keeps every non-whitespace character of the text and adds none |
| `SdkInfo.StripUnchanged` | python/appinsights/dockercollector.py:156 | text that neither starts nor ends with whitespace is left as it is |
| `SdkInfo.SdkInfoContent` | python/appinsights/dockercollector.py:152-160 | no content exactly for a wrapper error or all-whitespace output; otherwise the stripped output |
| `SdkInfo.Split` | python/appinsights/dockercollector.py:206 | a split has one more piece than the text has separators |
| `SdkInfo.JoinSplit` | python/appinsights/dockercollector.py:206 | joining the pieces of a split with the separator gives back the text |
| `SdkInfo.SplitPiecesFree` | python/appinsights/dockercollector.py:206 | no piece of a split contains the separator |
| `SdkInfo.HasSecondField` | python/appinsights/dockercollector.py:206-207 | a split has a second field exactly when the text holds the separator |
| `SdkInfo.SecondField` | python/appinsights/dockercollector.py:206-209 | when the text holds `=`, its split has a second field, and that field is the text between the first and the second `=` |
| `SdkInfo.IkeyFromContent` | python/appinsights/dockercollector.py:203-209 | no ikey exactly when there is no content or the content has no `=`; otherwise the text between the first and the second `=` (or the end) of the content |
| `SdkInfo.DiscoverIkey` | python/appinsights/dockercollector.py:202-209 | no ikey exactly when the command failed or its output has no `=`; otherwise the text between the first and the second `=` of the stripped output |
| `SdkInfo.DiscoveredIkeyHasNoSeparator` | python/appinsights/dockercollector.py:206-209 | a discovered ikey never contains `=` |
| `SdkInfo.EmptyKeyExample` | python/appinsights/dockercollector.py:206-209 | `k=` gives the empty ikey, not `None` |
| `SdkInfo.ExtraFieldsExample` | python/appinsights/dockercollector.py:206-209 | `a=b=c` gives `b` |
| `ContainerState.EvictMissing` | python/appinsights/dockercollector.py:143-148 | an entry missing from the listing is deleted exactly when it carries a stamp older than `now - 60`; a kept entry differs at most in its stamp, which becomes `now` if it had none and is otherwise kept |
| `ContainerState.EvictionPass` | python/appinsights/dockercollector.py:141-148 | adds no key; a listed entry is unchanged; an unlisted unstamped entry is stamped with `now`; an unlisted stamped entry is kept exactly when its stamp is `now - 60` or later, and is then unchanged |
| `ContainerState.RemoveOldContainers` | python/appinsights/dockercollector.py:133-150 | the loop over the unlisted keys computes `EvictionPass` of the cache against the listed ids |
| `ContainerState.Retry` | python/appinsights/dockercollector.py:179-189 | makes between 1 and 5 attempts; keeps the outcome of the last one; every earlier attempt found nothing; it gives up with `None` only after all 5 |
| `ContainerState.RetryFirstSuccess` | python/appinsights/dockercollector.py:180-185 | the loop stops at the first attempt that finds an ikey and keeps that ikey |
| `ContainerState.RetryAllFail` | python/appinsights/dockercollector.py:180-189 | when no attempt finds an ikey, all 5 attempts are made and the entry keeps `None` |
| `ContainerState.ResolveEntry` | python/appinsights/dockercollector.py:177-200 | a new id gets `{retry ikey, now, None, container}`; a known entry changes at most in its ikey; it is unchanged unless it has no ikey and was registered less than 60 s ago, in which case its ikey becomes the outcome of one more run |
| `ContainerState.AttemptsMade` | python/appinsights/dockercollector.py:177-200 | at most 5 discovery runs; at least 1 for a new id and all 5 when it ends without an ikey; at most 1 for a known id, and none once its entry has an ikey or was registered 60 s ago or earlier |
| `ContainerState.ResolveOne` | python/appinsights/dockercollector.py:177-200 | resolving one container adds its id to the cache and changes no other entry |
| `ContainerState.ResolveAll` | python/appinsights/dockercollector.py:172-175 | after resolving a listing, the cache holds exactly the ids it held before and the listed ids |
| `ContainerState.ResolveAllKeeps` | python/appinsights/dockercollector.py:172-175 | resolving a listing leaves the entry of every unlisted id untouched |
| `ContainerState.ResolveAllAt` | python/appinsights/dockercollector.py:172-177 | a listed id ends with what resolving its container against the id's previous entry gives |
| `ContainerState.ResolveAllOrderFree` | python/appinsights/dockercollector.py:174-175 | resolving the same containers in any order leaves the same cache, since each container writes only its own key |
| `ContainerState.ResolveAllConsistent` | python/appinsights/dockercollector.py:177-182 | resolution keeps every entry filed under its own container's id |
| `ContainerState.Refresh` | python/appinsights/dockercollector.py:172-175 | after a refresh pass every listed id is cached, and no id is cached that was neither cached before nor listed |
| `ContainerState.RefreshAt` | python/appinsights/dockercollector.py:141-200 | after a refresh pass, an id stays exactly when it is listed or eviction keeps it. A listed entry is unchanged, stamp included, unless it is recent and has no ikey; then it is re-queried once. A new id gets `unregistered = None`, `registered = now` and the retry loop's ikey |
| `ContainerState.ResolutionMonotonic` | python/appinsights/dockercollector.py:191-193 | a known ikey is never changed by a refresh; a listed entry with an ikey is not modified at all |
| `ContainerState.GracePeriodLaw` | python/appinsights/dockercollector.py:143-148 | an unstamped entry missing from two listings is stamped by the first pass; the second pass removes it exactly when it comes more than 60 s later |
| `ContainerState.StampSurvivesReappearance` | python/appinsights/dockercollector.py:141-148 | a stamp survives a pass in which the container is listed again; once it is older than 60 s, the next pass without the container deletes the entry |
| `ContainerState.RefreshUnknownId` | python/appinsights/dockercollector.py:162-170 | after the on-demand refresh, an unknown id is cached exactly when it is listed, with the retry loop's ikey |
| `Selection.StatsTargets` | python/appinsights/dockercollector.py:77-78 | a container is selected exactly when it is the cached container of an entry that is the collector's own or has no ikey |
| `Selection.SelectStatsTargets` | python/appinsights/dockercollector.py:77-78 | the selected containers, each exactly once |
| `Selection.FetchStats` | python/appinsights/dockercollector.py:80-85 | each target is paired with its own stats, and the pairs keep the order of the targets |
| `Selection.EmissionsFor` | python/appinsights/dockercollector.py:87-91 | a result with one sample or none sends nothing; otherwise one event per converted metric, in order, each with the container's properties |
| `Selection.SendResult` | python/appinsights/dockercollector.py:87-91 | the events for one result are `EmissionsFor` it |
| `Selection.SendMetrics` | python/appinsights/dockercollector.py:87-91 | sends exactly the events `Emissions` gives for the results, in order |
| `Selection.EmissionsSpec` | python/appinsights/dockercollector.py:87-91 | an event is sent exactly for each metric converted from a result with more than one sample, with that container's properties |
| `Selection.EmissionsConcat` | python/appinsights/dockercollector.py:87-91 | the events for two stretches of results are those of the first followed by those of the second |
| `Selection.ShortResultsDropped` | python/appinsights/dockercollector.py:87 | results with one sample or none send nothing |
| `Selection.ReportedOnly` | python/appinsights/dockercollector.py:100-103 | only forwarded statuses are kept, none are added, and the stream does not grow |
| `Selection.ReportedOnlySpec` | python/appinsights/dockercollector.py:100-103 | a status is kept exactly when it occurs in the stream and is one of start, stop, die, restart, pause, unpause |
| `Selection.ReportedOnlyConcat` | python/appinsights/dockercollector.py:100-103 | filtering two stretches of the stream gives the forwarded statuses of the first followed by those of the second |
| `Selection.EventName` | python/appinsights/dockercollector.py:98-105 | an event name is `docker-container-` followed by the status |
| `Selection.EventNameInjective` | python/appinsights/dockercollector.py:98-105 | distinct statuses give distinct event names |
| `Collector.EventProperties` | python/appinsights/dockercollector.py:107-128 | every forwarded event carries its status, creation time, start time and restart count. A stop/die event also carries its finish time, exit code, error (`""` for none) and duration in seconds, minutes, hours and days. Every other property of the converter's map is kept, and nothing else is added |
| `Collector.DockerCollector.constructor` | python/appinsights/dockercollector.py:41-63 | only a sample count above 1 is accepted; the cache starts empty and the collector's own id unknown |
| `Collector.DockerCollector.RegisterContainer` | python/appinsights/dockercollector.py:179-189 | a new id gets the entry `{retry ikey, now, None, container}`, where the retry ikey is what the first successful attempt found, or `None` after 5 failures; the command runs as often as the retry loop says |
| `Collector.DockerCollector.UpdateContainerState` | python/appinsights/dockercollector.py:177-200 | the cache becomes `ResolveOne` of the old cache; returns the entry's ikey; runs the command `AttemptsMade` times |
| `Collector.DockerCollector.ResolveListing` | python/appinsights/dockercollector.py:174-175 | the cache becomes `ResolveAll` of the old cache over the listing |
| `Collector.DockerCollector.UpdateContainersState` | python/appinsights/dockercollector.py:172-175 | the cache becomes the eviction pass followed by the resolution of every listed container |
| `Collector.DockerCollector.GetContainerSdkIkeyFromContainersState` | python/appinsights/dockercollector.py:162-170 | refreshes only when the id is unknown; returns the cached ikey if the id is then present, and `None` otherwise |
| `Collector.DockerCollector.CollectStatsAndSend` | python/appinsights/dockercollector.py:65-91 | the own id is memoised once the injector gives one; the cache is refreshed; stats are requested for exactly the selected containers, each once; the events sent are `Emissions` of those results |
| `Collector.DockerCollector.BuildProperties` | python/appinsights/dockercollector.py:107-128 | the property updates, made one after the other, give `EventProperties` of the event |
| `Collector.DockerCollector.HandleEvent` | python/appinsights/dockercollector.py:100-130 | an unlisted status sends nothing and leaves the cache alone. A forwarded one sends `docker-container-<status>` with the looked-up ikey (`''` for none) and the event properties |
| `Collector.DockerCollector.CollectContainerEvents` | python/appinsights/dockercollector.py:93-130 | sends one record per forwarded event, in stream order, named after its status |

## Left out

- Thread-pool concurrency (`ThreadPoolExecutor`) and its pool size. Each fan-out is a sequential loop. Each worker writes only its own key, so the order does not matter (`ContainerState.ResolveAllOrderFree`). Interleaving inside one worker is not modelled.
- `time.time()` and `time.sleep(1)`. Each pass reads the clock once (`now`), and the sleep between attempts does nothing. The code reads the clock at every comparison and stamps `registered` again at each attempt, so the real stamps are a few seconds later than `now`.
- Calls into Docker and the injector. `get_containers`, `run_command`, `get_stats`, `get_events`, `get_inspection`, `get_host_name` and `get_my_container_id` are inputs. The command template and the SDK file path are not modelled: only the command's outcome is.
- The non-`None` assertions on `docker_wrapper` and `docker_injector` in `__init__`. Those objects are not modelled.
- `dockerconvertors` is not part of this model. Metric conversion and the two property maps are function parameters.
- The `send_event` sink. Sent records are returned as sequences.
- The `dateutil` parsing of `StartedAt` and `FinishedAt`. The elapsed seconds are an input, and the division into minutes, hours and days is exact real arithmetic, not floating point.
- Exceptions from calls into Docker other than `DockerWrapperError`. An exception from `get_stats` inside the stats fan-out (lines 80-85), or one from `run_command` that is not a `DockerWrapperError` (re-raised through the resolution fan-out at line 175), would abort the pass; the model gives every call an outcome.
- The infinite event stream. It is a finite sequence, and an exception raised while one event is handled is not modelled.
- Collector.DockerCollector.HandleEvent: requires the converter's property map to hold the container id as text. The code indexes `properties['Docker container id']`, and a missing key would raise `KeyError`; that path is not modelled.
- Collector.DockerCollector.CollectContainerEvents: states only the number of records sent, their order and their names. The content of each record is stated per event by `HandleEvent`.
- ContainerState.RemoveOldContainers: the code updates the dictionary in place and returns that same object. The model returns the updated map as a value, and the only caller assigns it back to the cache, so the aliasing is not modelled.
- Listings that name a container twice. Docker gives each container a unique id, and `ContainerState.Listing` holds only listings with distinct ids, so a second resolution of the same id within one pass is not modelled.
- Dictionary iteration order. `Selection.SelectStatsTargets` visits the selected containers in an order the model does not fix.
