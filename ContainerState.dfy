/**
 * The collector's container-state cache (`_containers_state`): a map from a
 * container id to what is known about that container, the eviction pass
 * (`remove_old_containers`) and the rules by which one refresh pass resolves
 * each listed container's instrumentation key (`_update_container_state`).
 *
 * Time is a parameter (`time.time()` read once per pass); the command run inside
 * each container is an oracle `Probe` giving the outcome of its n-th run. A
 * listing names every container once, so one pass resolves each id once and
 * the n-th run of a pass is the n-th run for that container.
 */
module ContainerState {
  import opened Wrappers
  import opened SdkInfo

  type ContainerId = string

  /** Seconds since the epoch, as `time.time()` returns them. */
  type Time = real

  /** A container descriptor as the Docker API lists it; only `Id` is read by the cache. */
  datatype Container = Container(id: ContainerId, attributes: map<string, string>)

  /** One cache entry: `{ikey, registered, unregistered, container}`. */
  datatype Entry = Entry(ikey: Option<string>, registered: Time, unregistered: Option<Time>, container: Container)

  type State = map<ContainerId, Entry>

  /** The outcome of the n-th run of the SDK-info command in a container during one pass. */
  type Probe = (ContainerId, nat) -> CommandOutput

  /** An entry stamped as missing is deleted once its stamp is older than this many seconds. */
  const GracePeriod: real := 60.0

  /** An entry without an ikey is re-queried only while it was registered less than this many seconds ago. */
  const RetryWindow: real := 60.0

  /** Discovery attempts for a container seen for the first time. */
  const DiscoveryAttempts: nat := 5

  /** The ids of a listing (`curr_containers_ids`). */
  function Ids(cs: seq<Container>): set<ContainerId>
  {
    set c | c in cs :: c.id
  }

  /** No container id occurs twice in a listing. */
  predicate DistinctIds(cs: seq<Container>)
  {
    forall j, k :: 0 <= j < k < |cs| ==> cs[j].id != cs[k].id
  }

  /** A container listing as the Docker daemon returns it: each container once. */
  type Listing = cs: seq<Container> | DistinctIds(cs) witness []

  /** Every entry is filed under the id of the container it describes. */
  ghost predicate Consistent(m: State)
  {
    forall k :: k in m ==> m[k].container.id == k
  }

  // ---------------------------------------------------------------------------
  // Eviction (`remove_old_containers`)
  // ---------------------------------------------------------------------------

  /** What the eviction pass does to an entry whose id is missing from the listing: `None` deletes it. */
  function EvictMissing(e: Entry, now: Time): (r: Option<Entry>)
    ensures r.None? <==> e.unregistered.Some? && e.unregistered.value < now - GracePeriod
    ensures r.Some? ==> r.value == e.(unregistered := r.value.unregistered)
    ensures r.Some? ==> r.value.unregistered == Some(if e.unregistered.None? then now else e.unregistered.value)
  {
    match e.unregistered
    case None => Some(e.(unregistered := Some(now)))
    case Some(since) => if since < now - GracePeriod then None else Some(e)
  }

  /** The cache after one eviction pass against the ids `listed`. */
  function EvictionPass(current: State, listed: set<ContainerId>, now: Time): (r: State)
    ensures r.Keys <= current.Keys
    ensures forall k :: k in current && k in listed ==> k in r && r[k] == current[k]
    ensures forall k :: k in current && k !in listed && current[k].unregistered.None? ==>
      k in r && r[k] == current[k].(unregistered := Some(now))
    ensures forall k :: k in current && k !in listed && current[k].unregistered.Some? ==>
      (k in r <==> current[k].unregistered.value >= now - GracePeriod) &&
      (k in r ==> r[k] == current[k])
  {
    map k | k in current && (k in listed || EvictMissing(current[k], now).Some?) ::
      if k in listed then current[k] else EvictMissing(current[k], now).value
  }

  /**
   * `remove_old_containers`: stamps every entry missing from the listing, deletes
   * the ones stamped more than `GracePeriod` seconds ago, and leaves listed
   * entries alone. The Python version updates the dictionary in place and
   * returns it; here the updated map is the result.
   */
  method RemoveOldContainers(current: State, newContainers: seq<Container>, now: Time) returns (result: State)
    ensures result == EvictionPass(current, Ids(newContainers), now)
  {
    var currIds := Ids(newContainers);
    var pending := set k | k in current && k !in currIds;
    result := current;
    while pending != {}
      invariant pending <= current.Keys - currIds
      invariant result.Keys <= current.Keys
      invariant forall k :: k in pending ==> k in result && result[k] == current[k]
      invariant forall k :: k in current && k !in pending ==>
        (k in result <==> k in EvictionPass(current, currIds, now)) &&
        (k in result ==> result[k] == EvictionPass(current, currIds, now)[k])
      decreases pending
    {
      var key :| key in pending;
      if result[key].unregistered.None? {
        result := result[key := result[key].(unregistered := Some(now))];
      } else if result[key].unregistered.value < now - GracePeriod {
        result := result - {key};
      }
      pending := pending - {key};
    }
  }

  // ---------------------------------------------------------------------------
  // Resolution (`_update_container_state`)
  // ---------------------------------------------------------------------------

  /** The outcome of the discovery retry loop: the ikey kept and how many attempts were made. */
  datatype Discovery = Discovery(ikey: Option<string>, attempts: nat)

  /**
   * The retry loop for a container seen for the first time, from attempt
   * `attempt` on, where `found(i)` is what attempt `i` discovers: it stops at
   * the first attempt that finds an ikey, and after `DiscoveryAttempts`
   * attempts in all.
   */
  function Retry(found: nat -> Option<string>, attempt: nat): (d: Discovery)
    requires attempt < DiscoveryAttempts
    ensures 1 <= d.attempts <= DiscoveryAttempts - attempt
    ensures d.ikey == found(attempt + d.attempts - 1)
    ensures forall i :: attempt <= i < attempt + d.attempts - 1 ==> found(i).None?
    ensures d.ikey.None? ==> d.attempts == DiscoveryAttempts - attempt
    decreases DiscoveryAttempts - attempt
  {
    var ikey := found(attempt);
    if ikey.Some? || attempt + 1 == DiscoveryAttempts then Discovery(ikey, 1)
    else
      var rest := Retry(found, attempt + 1);
      Discovery(rest.ikey, rest.attempts + 1)
  }

  /** The retry loop ends at the first attempt that finds an ikey. */
  lemma RetryFirstSuccess(found: nat -> Option<string>, i: nat)
    requires i < DiscoveryAttempts && found(i).Some?
    requires forall j :: 0 <= j < i ==> found(j).None?
    ensures Retry(found, 0) == Discovery(found(i), i + 1)
  {
    var d := Retry(found, 0);
    assert d.ikey == found(d.attempts - 1);
  }

  /** When no attempt finds an ikey, the retry loop makes every attempt and keeps `None`. */
  lemma RetryAllFail(found: nat -> Option<string>)
    requires forall j :: 0 <= j < DiscoveryAttempts ==> found(j).None?
    ensures Retry(found, 0) == Discovery(None, DiscoveryAttempts)
  {
    var d := Retry(found, 0);
    assert found(d.attempts - 1).None?;
  }

  /** What each run of the discovery command in container `id` finds. */
  function Attempts(probe: Probe, id: ContainerId): nat -> Option<string>
  {
    (i: nat) => DiscoverIkey(probe(id, i))
  }

  /** Whether an existing entry is queried again: it has no ikey yet and was registered recently. */
  predicate Requery(e: Entry, now: Time)
  {
    e.ikey.None? && e.registered > now - RetryWindow
  }

  /** The entry that resolving container `c` leaves, given the entry it had before (if any). */
  function ResolveEntry(prior: Option<Entry>, c: Container, probe: Probe, now: Time): (e: Entry)
    ensures prior.None? ==>
      e.ikey == Retry(Attempts(probe, c.id), 0).ikey && e.registered == now && e.unregistered.None? && e.container == c
    ensures prior.Some? ==> e == prior.value.(ikey := e.ikey)
    ensures prior.Some? && !Requery(prior.value, now) ==> e == prior.value
    ensures prior.Some? && Requery(prior.value, now) ==> e.ikey == DiscoverIkey(probe(c.id, 0))
  {
    match prior
    case None => Entry(Retry(Attempts(probe, c.id), 0).ikey, now, None, c)
    case Some(e) => if Requery(e, now) then e.(ikey := DiscoverIkey(probe(c.id, 0))) else e
  }

  /** How many times resolving `c` runs the discovery command. */
  function AttemptsMade(prior: Option<Entry>, c: Container, probe: Probe, now: Time): (n: nat)
    ensures n <= DiscoveryAttempts
    ensures prior.None? ==> n >= 1
    ensures prior.Some? ==> n <= 1
    ensures prior.Some? && (prior.value.ikey.Some? || prior.value.registered <= now - RetryWindow) ==> n == 0
    ensures prior.None? && ResolveEntry(prior, c, probe, now).ikey.None? ==> n == DiscoveryAttempts
  {
    match prior
    case None => Retry(Attempts(probe, c.id), 0).attempts
    case Some(e) => if Requery(e, now) then 1 else 0
  }

  /** The entry currently filed under `id`, if any. */
  function Lookup(m: State, id: ContainerId): (r: Option<Entry>)
    ensures r.Some? <==> id in m
    ensures r.Some? ==> r.value == m[id]
  {
    if id in m then Some(m[id]) else None
  }

  /** The cache after resolving one listed container. */
  function ResolveOne(m: State, c: Container, probe: Probe, now: Time): (r: State)
    ensures r.Keys == m.Keys + {c.id}
    ensures forall k :: k in m && k != c.id ==> r[k] == m[k]
  {
    m[c.id := ResolveEntry(Lookup(m, c.id), c, probe, now)]
  }

  /** The cache after resolving every container of a listing, one after the other. */
  function ResolveAll(m: State, cs: seq<Container>, probe: Probe, now: Time): (r: State)
    ensures r.Keys == m.Keys + Ids(cs)
  {
    if cs == [] then m
    else
      var init := cs[..|cs| - 1];
      assert cs == init + [cs[|cs| - 1]];
      assert Ids(cs) == Ids(init) + {cs[|cs| - 1].id};
      ResolveOne(ResolveAll(m, init, probe, now), cs[|cs| - 1], probe, now)
  }

  /** Resolving one more container of a listing. */
  lemma ResolveAllStep(m: State, cs: seq<Container>, i: nat, probe: Probe, now: Time)
    requires i < |cs|
    ensures ResolveAll(m, cs[..i + 1], probe, now) == ResolveOne(ResolveAll(m, cs[..i], probe, now), cs[i], probe, now)
  {
    assert cs[..i + 1][..i] == cs[..i];
  }

  /** The container of a listing that carries the id `id`. */
  function ContainerWithId(cs: Listing, id: ContainerId): (c: Container)
    requires id in Ids(cs)
    ensures c in cs && c.id == id
  {
    var init := cs[..|cs| - 1];
    assert cs == init + [cs[|cs| - 1]];
    if id in Ids(init) then ContainerWithId(init, id) else cs[|cs| - 1]
  }

  /** One refresh pass (`_update_containers_state`): eviction, then resolution of every listed container. */
  function Refresh(m: State, cs: Listing, probe: Probe, now: Time): (r: State)
    ensures Ids(cs) <= r.Keys <= m.Keys + Ids(cs)
  {
    ResolveAll(EvictionPass(m, Ids(cs), now), cs, probe, now)
  }

  // ---------------------------------------------------------------------------
  // Lemmas
  // ---------------------------------------------------------------------------

  /** A non-empty sequence is its prefix followed by its last element. */
  lemma InitLast<T>(s: seq<T>)
    requires s != []
    ensures s == s[..|s| - 1] + [s[|s| - 1]]
  {
  }

  /** A listing holds at most one container with a given id. */
  lemma ListedOnce(cs: Listing, c: Container, d: Container)
    requires c in cs && d in cs && c.id == d.id
    ensures c == d
  {
    var j :| 0 <= j < |cs| && cs[j] == c;
    var k :| 0 <= k < |cs| && cs[k] == d;
    assert cs[j].id == cs[k].id;
    assert j == k;
  }

  /** The last container of a listing carries an id no earlier container has. */
  lemma LastIdNew(cs: Listing)
    requires cs != []
    ensures cs[|cs| - 1].id !in Ids(cs[..|cs| - 1])
  {
    var init := cs[..|cs| - 1];
    forall c | c in init
      ensures c.id != cs[|cs| - 1].id
    {
      var j :| 0 <= j < |init| && init[j] == c;
      assert cs[j] == c;
    }
  }

  /** Resolving a listing leaves the entry of every unlisted id untouched. */
  lemma {:induction false} ResolveAllKeeps(m: State, cs: seq<Container>, probe: Probe, now: Time, k: ContainerId)
    requires k in m && k !in Ids(cs)
    ensures ResolveAll(m, cs, probe, now)[k] == m[k]
  {
    if cs != [] {
      var init := cs[..|cs| - 1];
      InitLast(cs);
      ResolveAllKeeps(m, init, probe, now, k);
    }
  }

  /**
   * Resolving a listing leaves under each listed id what resolving that id's
   * container against the id's previous entry gives.
   */
  lemma {:induction false} ResolveAllAt(m: State, cs: Listing, probe: Probe, now: Time, k: ContainerId)
    requires k in Ids(cs)
    ensures ResolveAll(m, cs, probe, now)[k] == ResolveEntry(Lookup(m, k), ContainerWithId(cs, k), probe, now)
  {
    if k == cs[|cs| - 1].id {
      ResolveLastAt(m, cs, probe, now);
    } else {
      var init := InitListing(cs);
      ResolveAllAt(m, init, probe, now, k);
      ResolveEarlierAt(m, cs, probe, now, k);
    }
  }

  /** A listing without its last container is still a listing. */
  function InitListing(cs: Listing): (r: Listing)
    requires cs != []
    ensures r == cs[..|cs| - 1]
  {
    cs[..|cs| - 1]
  }

  /** The last container of a listing is resolved against the id's original entry. */
  lemma ResolveLastAt(m: State, cs: Listing, probe: Probe, now: Time)
    requires cs != []
    ensures var last := cs[|cs| - 1];
      ResolveAll(m, cs, probe, now)[last.id] == ResolveEntry(Lookup(m, last.id), ContainerWithId(cs, last.id), probe, now)
  {
    var init := cs[..|cs| - 1];
    var last := cs[|cs| - 1];
    InitLast(cs);
    LastIdNew(cs);
    if last.id in m {
      ResolveAllKeeps(m, init, probe, now, last.id);
    }
    assert Lookup(ResolveAll(m, init, probe, now), last.id) == Lookup(m, last.id);
  }

  /** A container listed before the last one keeps what the shorter listing gave it. */
  lemma ResolveEarlierAt(m: State, cs: Listing, probe: Probe, now: Time, k: ContainerId)
    requires cs != [] && k in Ids(cs) && k != cs[|cs| - 1].id
    requires k in Ids(cs[..|cs| - 1])
    requires ResolveAll(m, cs[..|cs| - 1], probe, now)[k] ==
      ResolveEntry(Lookup(m, k), ContainerWithId(cs[..|cs| - 1], k), probe, now)
    ensures ResolveAll(m, cs, probe, now)[k] == ResolveEntry(Lookup(m, k), ContainerWithId(cs, k), probe, now)
  {
    InitLast(cs);
  }

  /** Resolution keeps every entry filed under its own container's id. */
  lemma ResolveAllConsistent(m: State, cs: Listing, probe: Probe, now: Time)
    requires Consistent(m)
    ensures Consistent(ResolveAll(m, cs, probe, now))
  {
    var r := ResolveAll(m, cs, probe, now);
    forall k | k in r ensures r[k].container.id == k {
      if k in Ids(cs) {
        ResolveAllAt(m, cs, probe, now, k);
      } else {
        ResolveAllKeeps(m, cs, probe, now, k);
      }
    }
  }

  /**
   * The order in which a listing is resolved does not matter: each container
   * writes only its own key, so resolving the same containers in any order
   * leaves the same cache (the thread pool of `_update_containers_state`).
   */
  lemma ResolveAllOrderFree(m: State, cs1: Listing, cs2: Listing, probe: Probe, now: Time)
    requires forall c :: c in cs1 <==> c in cs2
    ensures ResolveAll(m, cs1, probe, now) == ResolveAll(m, cs2, probe, now)
  {
    var r1 := ResolveAll(m, cs1, probe, now);
    var r2 := ResolveAll(m, cs2, probe, now);
    assert Ids(cs1) == Ids(cs2);
    forall k | k in r1
      ensures r1[k] == r2[k]
    {
      if k in Ids(cs1) {
        ResolveAllAt(m, cs1, probe, now, k);
        ResolveAllAt(m, cs2, probe, now, k);
        ListedOnce(cs2, ContainerWithId(cs1, k), ContainerWithId(cs2, k));
      } else {
        ResolveAllKeeps(m, cs1, probe, now, k);
        ResolveAllKeeps(m, cs2, probe, now, k);
      }
    }
  }

  /**
   * One refresh pass, id by id: an id stays exactly when it is listed or the
   * eviction pass keeps it; a listed id with an entry keeps that entry
   * (including its `unregistered` stamp) except that a recent entry without an
   * ikey is queried once more; a new listed id gets a fresh entry holding the
   * outcome of the retry loop; an unlisted id gets the eviction outcome.
   */
  lemma RefreshAt(m: State, cs: Listing, probe: Probe, now: Time, k: ContainerId)
    ensures k in Refresh(m, cs, probe, now) <==> k in Ids(cs) || (k in m && EvictMissing(m[k], now).Some?)
    ensures k in Ids(cs) && k in m && !Requery(m[k], now) ==> Refresh(m, cs, probe, now)[k] == m[k]
    ensures k in Ids(cs) && k in m && Requery(m[k], now) ==>
      Refresh(m, cs, probe, now)[k] == m[k].(ikey := DiscoverIkey(probe(k, 0)))
    ensures k in Ids(cs) && k !in m ==>
      Refresh(m, cs, probe, now)[k] ==
        Entry(Retry(Attempts(probe, k), 0).ikey, now, None, ContainerWithId(cs, k))
    ensures k !in Ids(cs) && k in m && EvictMissing(m[k], now).Some? ==>
      Refresh(m, cs, probe, now)[k] == EvictMissing(m[k], now).value
  {
    var evicted := EvictionPass(m, Ids(cs), now);
    if k in Ids(cs) {
      ResolveAllAt(evicted, cs, probe, now, k);
      assert Lookup(evicted, k) == Lookup(m, k);
    } else if k in evicted {
      ResolveAllKeeps(evicted, cs, probe, now, k);
    }
  }

  /** Resolution is monotonic: a refresh never changes or forgets an ikey that is already known, unless it evicts the entry. */
  lemma ResolutionMonotonic(m: State, cs: Listing, probe: Probe, now: Time, k: ContainerId)
    requires k in m && m[k].ikey.Some?
    requires k in Refresh(m, cs, probe, now)
    ensures Refresh(m, cs, probe, now)[k].ikey == m[k].ikey
    ensures k in Ids(cs) ==> Refresh(m, cs, probe, now)[k] == m[k]
  {
    RefreshAt(m, cs, probe, now, k);
  }

  /**
   * The grace period over two passes: a container missing from two listings in
   * a row is kept by the first (which stamps it) and removed by the second
   * exactly when the second comes more than `GracePeriod` seconds later.
   */
  lemma GracePeriodLaw(m: State, cs1: Listing, cs2: Listing, probe1: Probe, probe2: Probe,
                       t1: Time, t2: Time, k: ContainerId)
    requires k in m && m[k].unregistered.None?
    requires k !in Ids(cs1) && k !in Ids(cs2)
    ensures k in Refresh(m, cs1, probe1, t1)
    ensures Refresh(m, cs1, probe1, t1)[k].unregistered == Some(t1)
    ensures k in Refresh(Refresh(m, cs1, probe1, t1), cs2, probe2, t2) <==> t1 >= t2 - GracePeriod
  {
    RefreshAt(m, cs1, probe1, t1, k);
    RefreshAt(Refresh(m, cs1, probe1, t1), cs2, probe2, t2, k);
  }

  /**
   * The on-demand refresh of the lookup: an id the cache does not know is in
   * the cache afterwards exactly when it is listed, with a fresh entry holding
   * what the retry loop found.
   */
  lemma RefreshUnknownId(m: State, cs: Listing, probe: Probe, now: Time, id: ContainerId)
    requires id !in m
    ensures id in Refresh(m, cs, probe, now) <==> id in Ids(cs)
    ensures id in Ids(cs) ==>
      && Refresh(m, cs, probe, now)[id].ikey == Retry(Attempts(probe, id), 0).ikey
      && Refresh(m, cs, probe, now)[id].unregistered == None
      && Refresh(m, cs, probe, now)[id].registered == now
  {
    RefreshAt(m, cs, probe, now, id);
  }

  /**
   * A missing-since stamp is never cleared: a container stamped while briefly
   * missing keeps its stamp when it is listed again, and the next time it goes
   * missing it is deleted at once if that old stamp is more than `GracePeriod`
   * seconds old, with no new grace period.
   */
  lemma StampSurvivesReappearance(m: State, cs1: Listing, cs2: Listing, probe1: Probe, probe2: Probe,
                                  t1: Time, t2: Time, k: ContainerId)
    requires k in m && m[k].unregistered.Some?
    requires k in Ids(cs1) && k !in Ids(cs2)
    requires m[k].unregistered.value < t2 - GracePeriod
    ensures k in Refresh(m, cs1, probe1, t1)
    ensures Refresh(m, cs1, probe1, t1)[k].unregistered == m[k].unregistered
    ensures k !in Refresh(Refresh(m, cs1, probe1, t1), cs2, probe2, t2)
  {
    RefreshAt(m, cs1, probe1, t1, k);
    RefreshAt(Refresh(m, cs1, probe1, t1), cs2, probe2, t2, k);
  }
}
