/**
 * The admin server's DeploymentSupervisor: the leader-selector lifecycle
 * driven by application and connection events, and the set-up and teardown
 * of the caches an elected leader runs (LeaderListener.takeLeadership).
 *
 * Each call is one atomic step. The leader's blocking Thread.sleep is
 * modelled by TakeLeadership returning with its frame kept in `suspended`;
 * the interrupt that ends the sleep is the separate event Revoke.
 */
module Supervisor {
  import opened Wrappers
  import opened Coordination
  import opened XdPaths
  import opened Reconciliation

  /** A node delivered by a PathChildrenCache: its full path and its data. */
  datatype ChildData = ChildData(path: Path, data: Bytes)

  /** A cluster member as the supervisor reports it: its id and attributes. */
  datatype Container = Container(name: string, attributes: map<string, string>)

  /** Paths.stripPath: the last segment of a path. */
  function StripPath(p: Path): string
  {
    if p == [] then "" else p[|p| - 1]
  }

  /** A PathChildrenCache: the path it watches and the nodes it holds. */
  datatype Cache = Cache(path: Path, nodes: seq<ChildData>)

  /** The four caches a leader opens. */
  datatype CacheRole = StreamsCache | StreamDeploymentsCache | JobDeploymentsCache | ContainersCache

  /** Curator's LeaderSelector state: created, started, closed. */
  datatype SelectorState = Latent | Running | ClosedDown
  datatype Selector = Selector(id: Option<string>, state: SelectorState)

  /** LeaderSelector.close(): only a started selector can be closed; any
      other state raises IllegalStateException. */
  function Close(s: Selector): Result<Selector, SupervisorError>
  {
    if s.state == Running then Success(s.(state := ClosedDown)) else Failure(IllegalState)
  }

  /** A selector is closed at most once: closing it again is an error. */
  lemma CloseAtMostOnce(s: Selector)
    ensures Close(s).Success? <==> s.state == Running
    ensures Close(s).Success? ==> Close(s).value.id == s.id && Close(Close(s).value).Failure?
  {
  }

  /** The set-up steps of takeLeadership that run code outside this model and
      may raise: the listener constructors and the cache starts. */
  datatype SetupStep =
    | StreamListenerCreation | StreamsStart | StreamDeploymentsStart
    | JobListenerCreation | JobDeploymentsStart
    | ContainerListenerCreation | ContainersStart

  /** An exception raised at a set-up step; an InterruptedException is
      caught by takeLeadership, any other one propagates after the teardown. */
  datatype Fault = Fault(at: SetupStep, interrupted: bool)

  predicate Raises(fault: Option<Fault>, s: SetupStep) {
    fault.Some? && fault.value.at == s
  }

  /** What happens to the caches and the containers slot, in order. */
  datatype Action =
    | Reconciled
    | CacheCreated(role: CacheRole)
    | CacheStarted(role: CacheRole)
    | SlotSet
    | SlotCleared
    | CacheClosed(role: CacheRole)

  datatype Cause = KeeperCause(error: KeeperError) | NullContext

  datatype SupervisorError =
    | LeadershipRequestFailed(cause: Cause)   // requestLeadership's RuntimeException
    | IllegalState                            // closing a selector that is not started
    | CleanupFailed(error: KeeperError)       // cleanupDeployments raised
    | SetupFailed(at: SetupStep)              // a set-up step raised
    | ContextMissing                          // getId() without an application context

  datatype ApplicationEvent = ContextRefreshed(id: string) | ContextStopped | OtherEvent

  /** The set-up of takeLeadership when nothing raises, up to the sleep. */
  const FullSetup: seq<Action> := [
    CacheCreated(StreamsCache), CacheStarted(StreamsCache),
    CacheCreated(StreamDeploymentsCache), CacheStarted(StreamDeploymentsCache),
    CacheCreated(JobDeploymentsCache), CacheStarted(JobDeploymentsCache),
    CacheCreated(ContainersCache), CacheStarted(ContainersCache),
    SlotSet]

  /** How much of the full set-up is done before step s raises. */
  function Reached(s: SetupStep): nat
  {
    match s
    case StreamListenerCreation => 0
    case StreamsStart => 1
    case StreamDeploymentsStart => 3
    case JobListenerCreation => 4
    case JobDeploymentsStart => 5
    case ContainerListenerCreation => 6
    case ContainersStart => 7
  }

  /** The set-up actions performed under a given fault. */
  function SetupLog(fault: Option<Fault>): seq<Action>
  {
    if fault.None? then FullSetup else FullSetup[..Reached(fault.value.at)]
  }

  /** The finally block of takeLeadership: swap the slot to null and close
      the cache it held, then close each of the other caches that was
      constructed, in the order streams, streamDeployments, jobDeployments. */
  function Closing(slotHeld: bool, streams: bool, streamDeployments: bool, jobDeployments: bool): seq<Action>
  {
    [SlotCleared]
    + (if slotHeld then [CacheClosed(ContainersCache)] else [])
    + (if streams then [CacheClosed(StreamsCache)] else [])
    + (if streamDeployments then [CacheClosed(StreamDeploymentsCache)] else [])
    + (if jobDeployments then [CacheClosed(JobDeploymentsCache)] else [])
  }

  /** The finally block after the set-up actions `log`: the slot holds a
      cache once it was set, and a cache local is non-null once created. */
  function Teardown(log: seq<Action>): seq<Action>
  {
    Closing(SlotSet in log, CacheCreated(StreamsCache) in log,
            CacheCreated(StreamDeploymentsCache) in log, CacheCreated(JobDeploymentsCache) in log)
  }

  /** Where the step that creates a cache stands in the full set-up. */
  function CreatedAt(role: CacheRole): nat
  {
    match role
    case StreamsCache => 0
    case StreamDeploymentsCache => 2
    case JobDeploymentsCache => 4
    case ContainersCache => 6
  }

  /** Where an action stands in the full set-up, or -1 when it is not a set-up action. */
  function Position(a: Action): int
  {
    match a
    case CacheCreated(role) => CreatedAt(role)
    case CacheStarted(role) => CreatedAt(role) + 1
    case SlotSet => 8
    case _ => -1
  }

  lemma PositionsOfFullSetup()
    ensures |FullSetup| == 9
    ensures forall i | 0 <= i < |FullSetup| :: Position(FullSetup[i]) == i
    ensures forall a: Action | 0 <= Position(a) :: Position(a) < |FullSetup| && FullSetup[Position(a)] == a
  {
    forall a: Action | 0 <= Position(a) ensures Position(a) < |FullSetup| && FullSetup[Position(a)] == a {
      match a
      case CacheCreated(role) =>
      case CacheStarted(role) =>
      case _ =>
    }
  }

  /** The first k set-up actions are those whose position is below k. */
  lemma InSetupPrefix(k: nat, a: Action)
    requires k <= |FullSetup|
    ensures a in FullSetup[..k] <==> 0 <= Position(a) < k
  {
    PositionsOfFullSetup();
    if a in FullSetup[..k] {
      var i :| 0 <= i < k && FullSetup[..k][i] == a;
      assert FullSetup[i] == a;
    }
    if 0 <= Position(a) < k {
      assert FullSetup[..k][Position(a)] == a;
    }
  }

  /** The teardown after the first k set-up actions. */
  lemma TeardownOfPrefix(k: nat)
    requires k <= |FullSetup|
    ensures Teardown(FullSetup[..k]) == Closing(k > 8, k > 0, k > 2, k > 4)
  {
    InSetupPrefix(k, SlotSet);
    InSetupPrefix(k, CacheCreated(StreamsCache));
    InSetupPrefix(k, CacheCreated(StreamDeploymentsCache));
    InSetupPrefix(k, CacheCreated(JobDeploymentsCache));
  }

  /** Extending a set-up prefix by the next action. */
  lemma ExtendSetupPrefix(k: nat)
    requires k < |FullSetup|
    ensures FullSetup[..k + 1] == FullSetup[..k] + [FullSetup[k]]
  {
  }

  /** How far the set-up has come: `done` is the first k actions, and `up`
      says that no step so far has raised; a raising step stops it exactly
      at its own position. */
  ghost predicate SetupProgress(fault: Option<Fault>, up: bool, k: nat, done: seq<Action>) {
    k <= 7 && done == FullSetup[..k]
    && (up ==> fault.None? || Reached(fault.value.at) > k)
    && (!up ==> fault.Some? && Reached(fault.value.at) == k)
  }

  /** The set-up log is a prefix of the full set-up, all of it exactly when nothing raises. */
  lemma SetupLogIsPrefix(fault: Option<Fault>)
    ensures |SetupLog(fault)| <= |FullSetup| && SetupLog(fault) == FullSetup[..|SetupLog(fault)|]
    ensures |SetupLog(fault)| == |FullSetup| <==> fault.None?
  {
    PositionsOfFullSetup();
    assert FullSetup[..|FullSetup|] == FullSetup;
  }

  /** The slot is set only when the whole set-up succeeded, and only after
      the containers cache has started. */
  lemma SlotSetOnlyAfterContainersStart(fault: Option<Fault>)
    ensures SlotSet in SetupLog(fault) <==> fault.None?
    ensures forall i | 0 <= i < |SetupLog(fault)| && SetupLog(fault)[i] == SlotSet ::
      CacheStarted(ContainersCache) in SetupLog(fault)[..i]
  {
    SetupLogIsPrefix(fault);
    var log := SetupLog(fault);
    InSetupPrefix(|log|, SlotSet);
    forall i | 0 <= i < |log| && log[i] == SlotSet
      ensures CacheStarted(ContainersCache) in log[..i]
    {
      PositionsOfFullSetup();
      assert FullSetup[i] == SlotSet;
      assert log[..i] == FullSetup[..i];
      InSetupPrefix(i, CacheStarted(ContainersCache));
    }
  }

  /** What a finally block closes: exactly those caches it is told about. */
  lemma ClosingContents(slotHeld: bool, streams: bool, streamDeployments: bool, jobDeployments: bool)
    ensures var c := Closing(slotHeld, streams, streamDeployments, jobDeployments);
      c[0] == SlotCleared
      && (CacheClosed(ContainersCache) in c <==> slotHeld)
      && (CacheClosed(StreamsCache) in c <==> streams)
      && (CacheClosed(StreamDeploymentsCache) in c <==> streamDeployments)
      && (CacheClosed(JobDeploymentsCache) in c <==> jobDeployments)
  {
  }

  /** No action occurs twice. */
  ghost predicate Distinct(s: seq<Action>) {
    forall i, j | 0 <= i < j < |s| :: s[i] != s[j]
  }

  lemma AppendFresh(s: seq<Action>, x: Action)
    requires Distinct(s) && x !in s
    ensures Distinct(s + [x])
  {
    var t := s + [x];
    forall i, j | 0 <= i < j < |t| ensures t[i] != t[j] {
      if j == |s| { assert t[i] == s[i]; }
    }
  }

  /** Appending nothing or a fresh action keeps a sequence free of repeats. */
  lemma AppendOptional(s: seq<Action>, b: bool, x: Action)
    requires Distinct(s) && x !in s
    ensures Distinct(s + (if b then [x] else []))
  {
    if b { AppendFresh(s, x); } else { assert s + [] == s; }
  }

  /** A finally block closes no cache twice. */
  lemma ClosingDistinct(slotHeld: bool, streams: bool, streamDeployments: bool, jobDeployments: bool)
    ensures Distinct(Closing(slotHeld, streams, streamDeployments, jobDeployments))
  {
    var c0 := [SlotCleared];
    var c1 := c0 + (if slotHeld then [CacheClosed(ContainersCache)] else []);
    AppendOptional(c0, slotHeld, CacheClosed(ContainersCache));
    var c2 := c1 + (if streams then [CacheClosed(StreamsCache)] else []);
    AppendOptional(c1, streams, CacheClosed(StreamsCache));
    var c3 := c2 + (if streamDeployments then [CacheClosed(StreamDeploymentsCache)] else []);
    AppendOptional(c2, streamDeployments, CacheClosed(StreamDeploymentsCache));
    AppendOptional(c3, jobDeployments, CacheClosed(JobDeploymentsCache));
  }

  /** The teardown first clears the slot, closes each cache at most once,
      closes the three stream/job caches exactly when they were constructed
      and the containers cache exactly when it was published in the slot. */
  lemma TeardownClosesWhatWasOpened(fault: Option<Fault>)
    ensures var log := SetupLog(fault); var td := Teardown(log);
      td[0] == SlotCleared
      && (forall role | role != ContainersCache :: CacheClosed(role) in td <==> CacheCreated(role) in log)
      && (CacheClosed(ContainersCache) in td <==> SlotSet in log)
      && (forall role :: CacheClosed(role) in td ==> CacheCreated(role) in log)
      && Distinct(td)
  {
    var log := SetupLog(fault);
    SetupLogIsPrefix(fault);
    var k := |log|;
    TeardownOfPrefix(k);
    var td := Closing(k > 8, k > 0, k > 2, k > 4);
    assert Teardown(log) == td;
    ClosingContents(k > 8, k > 0, k > 2, k > 4);
    InSetupPrefix(k, SlotSet);
    forall role ensures CacheCreated(role) in log <==> CreatedAt(role) < k {
      InSetupPrefix(k, CacheCreated(role));
    }
    forall role ensures CacheClosed(role) in td <==> CreatedAt(role) < k && (role != ContainersCache || k > 8) {
      match role
      case StreamsCache =>
      case StreamDeploymentsCache =>
      case JobDeploymentsCache =>
      case ContainersCache =>
    }
    ClosingDistinct(k > 8, k > 0, k > 2, k > 4);
  }

  /** When containersCache.start() raises, that cache was constructed but is
      never closed: the finally block only sees what the slot holds. This is
      the only set-up failure that leaves a cache open. */
  lemma ContainersCacheLeaksIffItsStartRaises(fault: Option<Fault>)
    ensures var log := SetupLog(fault);
      (CacheCreated(ContainersCache) in log && CacheClosed(ContainersCache) !in Teardown(log))
      <==> Raises(fault, ContainersStart)
  {
    SetupLogIsPrefix(fault);
    var k := |SetupLog(fault)|;
    TeardownOfPrefix(k);
    InSetupPrefix(k, CacheCreated(ContainersCache));
  }

  /** The selector after requestLeadership: unchanged when the paths could
      not be ensured or a selector exists; otherwise a new one, started and
      named after the context, or left unstarted when there is no context. */
  function SelectorAfterRequest(connected: bool, selector: Option<Selector>, contextId: Option<string>): Option<Selector>
  {
    if !connected || selector.Some? then selector
    else if contextId.None? then Some(Selector(None, Latent))
    else Some(Selector(contextId, Running))
  }

  /** What requestLeadership raises: a wrapped connection loss from
      ensurePath, or a wrapped null dereference from naming a new selector
      without a context. */
  function RequestOutcome(connected: bool, selector: Option<Selector>, contextId: Option<string>): Outcome<SupervisorError>
  {
    if !connected then Fail(LeadershipRequestFailed(KeeperCause(ConnectionLoss)))
    else if selector.None? && contextId.None? then Fail(LeadershipRequestFailed(NullContext))
    else Pass
  }

  /** requestLeadership creates a selector at most once: an existing one is
      kept, and a repeated request changes nothing; a request returns normally
      exactly when connected and a selector exists after it, and an absent
      selector is then created, named after the context and started. */
  lemma SelectorCreatedAtMostOnce(connected: bool, selector: Option<Selector>, contextId: Option<string>)
    ensures selector.Some? ==> SelectorAfterRequest(connected, selector, contextId) == selector
    ensures var s := SelectorAfterRequest(connected, selector, contextId);
      SelectorAfterRequest(connected, s, contextId) == s
    ensures RequestOutcome(connected, selector, contextId).Pass? <==>
      connected && SelectorAfterRequest(connected, selector, contextId).Some?
      && (selector.None? ==> SelectorAfterRequest(connected, selector, contextId) == Some(Selector(contextId, Running)))
  {
  }

  /** The frame of a takeLeadership call blocked in Thread.sleep: the caches
      its locals hold. */
  datatype LeaderFrame = LeaderFrame(streams: Cache, streamDeployments: Cache, jobDeployments: Cache)

  /** The nodes of a containers cache mirror the children of CONTAINERS in t:
      each node is a child with that child's data, and each child has a node. */
  ghost predicate Mirrors(nodes: seq<ChildData>, t: Tree) {
    (forall i | 0 <= i < |nodes| ::
       |nodes[i].path| == |Containers| + 1 && nodes[i].path[..|Containers|] == Containers
       && nodes[i].path in t && t[nodes[i].path] == nodes[i].data)
    && (forall c | c in Children(t, Containers) :: exists i | 0 <= i < |nodes| :: nodes[i].path == Containers + [c])
  }

  /** Paths.ensurePath for each path in turn, stopping at the first failure. */
  method EnsurePaths(zk: ZooKeeper, ps: seq<Path>) returns (r: Outcome<KeeperError>)
    requires zk.Valid()
    modifies zk
    ensures zk.Valid() && zk.connected == old(zk.connected)
    ensures !old(zk.connected) && ps != [] ==> r == Fail(ConnectionLoss) && zk.tree == old(zk.tree)
    ensures old(zk.connected) || ps == [] ==> r == Pass && Ensured(old(zk.tree), zk.tree, ps)
  {
    var i := 0;
    assert ps[0..] == ps;
    while i < |ps|
      invariant 0 <= i <= |ps|
      invariant zk.Valid() && zk.connected == old(zk.connected)
      invariant WithPaths(zk.tree, ps[i..]) == WithPaths(old(zk.tree), ps)
      invariant !zk.connected ==> i == 0 && zk.tree == old(zk.tree)
    {
      var e := zk.EnsurePath(ps[i]);
      if e.Fail? {
        r := e;
        return;
      }
      assert ps[i..][1..] == ps[i + 1..];
      i := i + 1;
    }
    WithPathsProperties(old(zk.tree), ps);
    r := Pass;
  }

  /** The full set-up ends by starting the containers cache and setting the slot. */
  lemma FullSetupEnd()
    ensures FullSetup == FullSetup[..7] + [CacheStarted(ContainersCache), SlotSet]
  {
  }

  /** The try block of takeLeadership up to containersCache.start(): the
      actions done, whether every step returned, and the cache locals that
      the finally block sees. The containers cache is a local of the try
      block only. */
  method TrySetup(fault: Option<Fault>)
    returns (up: bool, done: seq<Action>, streams: Option<Cache>,
             streamDeployments: Option<Cache>, jobDeployments: Option<Cache>)
    ensures up <==> fault.None?
    ensures done == if up then FullSetup[..7] else SetupLog(fault)
    ensures streams.Some? <==> |done| > 0
    ensures streamDeployments.Some? <==> |done| > 2
    ensures jobDeployments.Some? <==> |done| > 4
  {
    done := [];
    ghost var k: nat := 0;
    streams, streamDeployments, jobDeployments := None, None, None;
    up := !Raises(fault, StreamListenerCreation);
    if up {
      streams := Some(Cache(Streams, []));
      ExtendSetupPrefix(0);
      done, k := done + [CacheCreated(StreamsCache)], 1;
      up := !Raises(fault, StreamsStart);
    }
    assert SetupProgress(fault, up, k, done);
    if up {
      ExtendSetupPrefix(1);
      ExtendSetupPrefix(2);
      streamDeployments := Some(Cache(StreamDeployments, []));
      done, k := done + [CacheStarted(StreamsCache)] + [CacheCreated(StreamDeploymentsCache)], 3;
      up := !Raises(fault, StreamDeploymentsStart);
    }
    assert SetupProgress(fault, up, k, done);
    if up {
      ExtendSetupPrefix(3);
      done, k := done + [CacheStarted(StreamDeploymentsCache)], 4;
      up := !Raises(fault, JobListenerCreation);
    }
    assert SetupProgress(fault, up, k, done);
    if up {
      ExtendSetupPrefix(4);
      jobDeployments := Some(Cache(JobDeployments, []));
      done, k := done + [CacheCreated(JobDeploymentsCache)], 5;
      up := !Raises(fault, JobDeploymentsStart);
    }
    assert SetupProgress(fault, up, k, done);
    if up {
      ExtendSetupPrefix(5);
      done, k := done + [CacheStarted(JobDeploymentsCache)], 6;
      up := !Raises(fault, ContainerListenerCreation);
    }
    assert SetupProgress(fault, up, k, done);
    if up {
      ExtendSetupPrefix(6);
      done, k := done + [CacheCreated(ContainersCache)], 7;
      up := !Raises(fault, ContainersStart);
    }
    assert SetupProgress(fault, up, k, done);
  }

  class DeploymentSupervisor {
    /** The ZooKeeper connection's client. */
    const zk: ZooKeeper
    /** MapBytesUtility.toMap, whose code is not part of this model. */
    const toMap: Bytes -> map<string, string>
    /** The id of the application context, once a refresh event has set it. */
    var contextId: Option<string>
    /** How many times the connection listener has been added. */
    var listenerRegistrations: nat
    var leaderSelector: Option<Selector>
    /** The containers slot (an AtomicReference in the source). */
    var containers: Option<Cache>
    /** The frame of a takeLeadership call holding leadership. */
    var suspended: Option<LeaderFrame>
    /** Every cache and slot action so far. */
    var trace: seq<Action>

    /** The slot is set exactly while a leader is sleeping, and holds a cache
        of CONTAINERS. */
    ghost predicate Valid()
      reads this, zk
    {
      zk.Valid()
      && (suspended.Some? <==> containers.Some?)
      && (containers.Some? ==> containers.value.path == Containers)
    }

    constructor (zk: ZooKeeper, toMap: Bytes -> map<string, string>)
      requires zk.Valid()
      ensures Valid() && this.zk == zk && this.toMap == toMap
      ensures contextId.None? && listenerRegistrations == 0 && leaderSelector.None?
      ensures containers.None? && suspended.None? && trace == []
    {
      this.zk := zk;
      this.toMap := toMap;
      contextId := None;
      listenerRegistrations := 0;
      leaderSelector := None;
      containers := None;
      suspended := None;
      trace := [];
    }

    /** ContainerConverter.convert. */
    function Convert(source: ChildData): (r: Container)
      ensures source.path != [] ==> r.name == source.path[|source.path| - 1]
      ensures r.attributes == toMap(source.data)
    {
      Container(StripPath(source.path), toMap(source.data))
    }

    /** A node directly below CONTAINERS becomes the container it is named
        after, with its data decoded as attributes; the result depends on
        nothing but the node. */
    lemma ConvertNamesChild(source: ChildData, id: string)
      requires source.path == Containers + [id]
      ensures Convert(source) == Container(id, toMap(source.data))
    {
    }

    /** getContainerIterator, as the sequence it yields. */
    function ContainerIterator(): (r: seq<Container>)
      reads this
      ensures containers.None? ==> r == []
      ensures containers.Some? ==>
        |r| == |containers.value.nodes|
        && forall i :: 0 <= i < |r| ==> r[i] == Convert(containers.value.nodes[i])
    {
      match containers
      case None => []
      case Some(cache) => seq(|cache.nodes|, i requires 0 <= i < |cache.nodes| => Convert(cache.nodes[i]))
    }

    /** While no leader is sleeping the supervisor reports no containers. */
    lemma NoContainersWithoutLeadership()
      requires Valid() && suspended.None?
      ensures ContainerIterator() == []
    {
    }

    /** When the containers cache mirrors CONTAINERS, the iterator reports
        exactly the registered containers, each with its node's attributes. */
    lemma IteratorReportsLiveContainers(t: Tree)
      requires containers.Some? && Mirrors(containers.value.nodes, t)
      ensures var r := ContainerIterator();
        (set i | 0 <= i < |r| :: r[i].name) == Children(t, Containers)
        && forall i | 0 <= i < |r| :: Containers + [r[i].name] in t && r[i].attributes == toMap(t[Containers + [r[i].name]])
    {
      var nodes := containers.value.nodes;
      var r := ContainerIterator();
      forall i | 0 <= i < |r|
        ensures nodes[i].path == Containers + [r[i].name]
      {
        assert nodes[i].path == nodes[i].path[..|Containers|] + [nodes[i].path[|Containers|]];
      }
      forall c | c in Children(t, Containers) ensures c in (set i | 0 <= i < |r| :: r[i].name) {
        var i :| 0 <= i < |nodes| && nodes[i].path == Containers + [c];
        assert r[i].name == c;
      }
    }

    /** The selector half of requestLeadership: create, name and start a
        selector unless one exists. Naming it reads the application
        context's id, which raises when no context has been set. */
    method EnsureSelector() returns (r: Outcome<SupervisorError>)
      modifies this
      ensures contextId == old(contextId) && listenerRegistrations == old(listenerRegistrations)
      ensures containers == old(containers) && suspended == old(suspended) && trace == old(trace)
      ensures leaderSelector == SelectorAfterRequest(true, old(leaderSelector), contextId)
      ensures r == RequestOutcome(true, old(leaderSelector), contextId)
    {
      r := Pass;
      if leaderSelector.None? {
        leaderSelector := Some(Selector(None, Latent));
        if contextId.None? {
          // getId() dereferences the missing application context
          r := Fail(LeadershipRequestFailed(NullContext));
          return;
        }
        leaderSelector := Some(Selector(contextId, Latent));
        leaderSelector := Some(Selector(contextId, Running));
      }
    }

    /** requestLeadership: ensure the six paths, then the selector; any
        failure is wrapped and rethrown. */
    method RequestLeadership() returns (r: Outcome<SupervisorError>)
      requires Valid()
      modifies this, zk
      ensures Valid() && zk.connected == old(zk.connected)
      ensures contextId == old(contextId) && listenerRegistrations == old(listenerRegistrations)
      ensures containers == old(containers) && suspended == old(suspended) && trace == old(trace)
      ensures if old(zk.connected) then Ensured(old(zk.tree), zk.tree, RequiredPaths) else zk.tree == old(zk.tree)
      ensures leaderSelector == SelectorAfterRequest(old(zk.connected), old(leaderSelector), contextId)
      ensures r == RequestOutcome(old(zk.connected), old(leaderSelector), contextId)
    {
      var e := EnsurePaths(zk, RequiredPaths);
      if e.Fail? {
        r := Fail(LeadershipRequestFailed(KeeperCause(e.error)));
        return;
      }
      r := EnsureSelector();
    }

    /** destroy: close the selector and drop it; a failing close leaves it. */
    method Destroy() returns (r: Outcome<SupervisorError>)
      modifies this
      ensures contextId == old(contextId) && listenerRegistrations == old(listenerRegistrations)
      ensures containers == old(containers) && suspended == old(suspended) && trace == old(trace)
      ensures old(leaderSelector).None? ==> r == Pass && leaderSelector.None?
      ensures old(leaderSelector).Some? && old(leaderSelector).value.state == Running ==>
        r == Pass && leaderSelector.None?
      ensures old(leaderSelector).Some? && old(leaderSelector).value.state != Running ==>
        r == Fail(IllegalState) && leaderSelector == old(leaderSelector)
    {
      r := Pass;
      if leaderSelector.Some? {
        var closed := Close(leaderSelector.value);
        if closed.Failure? {
          r := Fail(closed.error);
          return;
        }
        leaderSelector := None;
      }
    }

    /** onApplicationEvent for a context-refreshed event: remember the
        context, request leadership when connected, then add the connection
        listener. */
    method OnContextRefreshed(id: string) returns (r: Outcome<SupervisorError>)
      requires Valid()
      modifies this, zk
      ensures Valid() && zk.connected == old(zk.connected)
      ensures containers == old(containers) && suspended == old(suspended) && trace == old(trace)
      ensures r == Pass && contextId == Some(id)
      ensures listenerRegistrations == old(listenerRegistrations) + 1
      ensures if old(zk.connected) then Ensured(old(zk.tree), zk.tree, RequiredPaths) else zk.tree == old(zk.tree)
      ensures leaderSelector == SelectorAfterRequest(old(zk.connected), old(leaderSelector), Some(id))
    {
      contextId := Some(id);
      if zk.connected {
        var requested := RequestLeadership();
        // connected, and the context id was just set: nothing can raise
        assert requested.Pass?;
      }
      listenerRegistrations := listenerRegistrations + 1;
      r := Pass;
    }

    /** onApplicationEvent for a context-stopped event: close the selector
        if there is one, without setting it to null. */
    method OnContextStopped() returns (r: Outcome<SupervisorError>)
      modifies this
      ensures contextId == old(contextId) && listenerRegistrations == old(listenerRegistrations)
      ensures containers == old(containers) && suspended == old(suspended) && trace == old(trace)
      ensures old(leaderSelector).None? ==> r == Pass && leaderSelector.None?
      ensures old(leaderSelector).Some? && old(leaderSelector).value.state == Running ==>
        r == Pass && leaderSelector == Some(old(leaderSelector).value.(state := ClosedDown))
      ensures old(leaderSelector).Some? && old(leaderSelector).value.state != Running ==>
        r == Fail(IllegalState) && leaderSelector == old(leaderSelector)
    {
      r := Pass;
      if leaderSelector.Some? {
        var closed := Close(leaderSelector.value);
        if closed.Failure? {
          r := Fail(closed.error);
        } else {
          leaderSelector := Some(closed.value);
        }
      }
    }

    /** onApplicationEvent: a refresh or a stop of the application context;
        any other event is ignored. */
    method OnApplicationEvent(event: ApplicationEvent) returns (r: Outcome<SupervisorError>)
      requires Valid()
      modifies this, zk
      ensures Valid() && zk.connected == old(zk.connected)
      ensures containers == old(containers) && suspended == old(suspended) && trace == old(trace)
      ensures !event.ContextRefreshed? ==>
        zk.tree == old(zk.tree) && contextId == old(contextId)
        && listenerRegistrations == old(listenerRegistrations)
      ensures event.OtherEvent? ==> r == Pass && leaderSelector == old(leaderSelector)
      ensures event.ContextRefreshed? ==>
        r == Pass && contextId == Some(event.id)
        && listenerRegistrations == old(listenerRegistrations) + 1
        && (if old(zk.connected) then Ensured(old(zk.tree), zk.tree, RequiredPaths) else zk.tree == old(zk.tree))
        && leaderSelector == SelectorAfterRequest(old(zk.connected), old(leaderSelector), Some(event.id))
      ensures event.ContextStopped? && old(leaderSelector).None? ==> r == Pass && leaderSelector.None?
      ensures event.ContextStopped? && old(leaderSelector).Some? && old(leaderSelector).value.state == Running ==>
        r == Pass && leaderSelector == Some(old(leaderSelector).value.(state := ClosedDown))
      ensures event.ContextStopped? && old(leaderSelector).Some? && old(leaderSelector).value.state != Running ==>
        r == Fail(IllegalState) && leaderSelector == old(leaderSelector)
    {
      match event {
        case ContextRefreshed(id) =>
          r := OnContextRefreshed(id);
        case ContextStopped =>
          r := OnContextStopped();
        case OtherEvent =>
          r := Pass;
      }
    }

    /** ConnectionListener.onConnect: log the admin's id, then request
        leadership. Reading the id raises when no context has been set. */
    method OnConnect() returns (r: Outcome<SupervisorError>)
      requires Valid()
      modifies this, zk
      ensures Valid() && zk.connected == old(zk.connected)
      ensures contextId == old(contextId) && listenerRegistrations == old(listenerRegistrations)
      ensures containers == old(containers) && suspended == old(suspended) && trace == old(trace)
      ensures contextId.None? ==>
        r == Fail(ContextMissing) && zk.tree == old(zk.tree) && leaderSelector == old(leaderSelector)
      ensures contextId.Some? ==>
        (if old(zk.connected) then Ensured(old(zk.tree), zk.tree, RequiredPaths) else zk.tree == old(zk.tree))
        && leaderSelector == SelectorAfterRequest(old(zk.connected), old(leaderSelector), contextId)
        && r == RequestOutcome(old(zk.connected), old(leaderSelector), contextId)
    {
      if contextId.None? {
        r := Fail(ContextMissing);
        return;
      }
      r := RequestLeadership();
    }

    /** ConnectionListener.onDisconnect: destroy, swallowing its exception.
        The containers slot is left as it is. */
    method OnDisconnect()
      modifies this
      ensures contextId == old(contextId) && listenerRegistrations == old(listenerRegistrations)
      ensures containers == old(containers) && suspended == old(suspended) && trace == old(trace)
      ensures leaderSelector ==
        if old(leaderSelector).Some? && old(leaderSelector).value.state != Running
        then old(leaderSelector) else None
    {
      var ignored := Destroy();
    }

    /** The finally block of takeLeadership, given the caches its locals hold. */
    method ReleaseCaches(streams: Option<Cache>, streamDeployments: Option<Cache>, jobDeployments: Option<Cache>)
      modifies this
      ensures containers.None?
      ensures trace == old(trace) + Closing(old(containers).Some?, streams.Some?, streamDeployments.Some?, jobDeployments.Some?)
      ensures contextId == old(contextId) && listenerRegistrations == old(listenerRegistrations)
      ensures leaderSelector == old(leaderSelector) && suspended == old(suspended)
    {
      var containersCache := containers;
      containers := None;
      var closing := [SlotCleared];
      if containersCache.Some? {
        closing := closing + [CacheClosed(ContainersCache)];
      }
      if streams.Some? {
        closing := closing + [CacheClosed(StreamsCache)];
      }
      if streamDeployments.Some? {
        closing := closing + [CacheClosed(StreamDeploymentsCache)];
      }
      if jobDeployments.Some? {
        closing := closing + [CacheClosed(JobDeploymentsCache)];
      }
      trace := trace + closing;
    }

    /** takeLeadership after cleanupDeployments: the try block, then either
        the sleep or, when a step raised, the finally block. */
    method SetUpCaches(fault: Option<Fault>, loaded: seq<ChildData>) returns (r: Outcome<SupervisorError>)
      requires containers.None? && suspended.None?
      modifies this
      ensures contextId == old(contextId) && listenerRegistrations == old(listenerRegistrations)
      ensures leaderSelector == old(leaderSelector)
      ensures fault.None? ==>
        r == Pass && trace == old(trace) + FullSetup
        && containers == Some(Cache(Containers, loaded)) && suspended.Some?
      ensures fault.Some? ==>
        trace == old(trace) + SetupLog(fault) + Teardown(SetupLog(fault))
        && containers.None? && suspended.None?
        && r == (if fault.value.interrupted then Pass else Fail(SetupFailed(fault.value.at)))
    {
      var up, done, streams, streamDeployments, jobDeployments := TrySetup(fault);
      if up {
        FullSetupEnd();
        containers := Some(Cache(Containers, loaded));
        trace := trace + (done + [CacheStarted(ContainersCache), SlotSet]);
        // Thread.sleep(Long.MAX_VALUE): the frame waits for Revoke
        suspended := Some(LeaderFrame(streams.value, streamDeployments.value, jobDeployments.value));
        r := Pass;
        return;
      }
      trace := trace + done;
      SetupLogIsPrefix(fault);
      TeardownOfPrefix(|done|);
      ReleaseCaches(streams, streamDeployments, jobDeployments);
      r := if fault.value.interrupted then Pass else Fail(SetupFailed(fault.value.at));
    }

    /** LeaderListener.takeLeadership up to the sleep. `fault` says which
        set-up step raises, if any; `loaded` is what the containers cache
        holds once started. Logging the admin's id raises without a context;
        a failing cleanupDeployments propagates before any cache exists. */
    method TakeLeadership(fault: Option<Fault>, loaded: seq<ChildData>) returns (r: Outcome<SupervisorError>)
      requires Valid() && suspended.None?
      modifies this, zk
      ensures Valid() && zk.connected == old(zk.connected)
      ensures contextId == old(contextId) && listenerRegistrations == old(listenerRegistrations)
      ensures leaderSelector == old(leaderSelector)
      ensures contextId.None? ==>
        r == Fail(ContextMissing) && zk.tree == old(zk.tree)
        && trace == old(trace) && containers.None? && suspended.None?
      ensures contextId.Some? && !old(zk.connected) ==>
        r == Fail(CleanupFailed(ConnectionLoss)) && zk.tree == old(zk.tree)
        && trace == old(trace) && containers.None? && suspended.None?
      ensures contextId.Some? && old(zk.connected) ==>
        zk.tree == RemoveAssignments(old(zk.tree), StaleAssignments(old(zk.tree)))
      ensures contextId.Some? && old(zk.connected) && fault.None? ==>
        r == Pass && trace == old(trace) + [Reconciled] + FullSetup
        && containers == Some(Cache(Containers, loaded)) && suspended.Some?
      ensures contextId.Some? && old(zk.connected) && fault.Some? ==>
        trace == old(trace) + [Reconciled] + SetupLog(fault) + Teardown(SetupLog(fault))
        && containers.None? && suspended.None?
        && r == (if fault.value.interrupted then Pass else Fail(SetupFailed(fault.value.at)))
    {
      if contextId.None? {
        r := Fail(ContextMissing);
        return;
      }
      var cleaned := CleanupDeployments(zk);
      if cleaned.Fail? {
        r := Fail(CleanupFailed(cleaned.error));
        return;
      }
      trace := trace + [Reconciled];
      r := SetUpCaches(fault, loaded);
    }

    /** The interrupt that ends a leader's sleep, followed by the finally block. */
    method Revoke()
      requires Valid() && suspended.Some?
      modifies this
      ensures Valid()
      ensures trace == old(trace) + Teardown(FullSetup)
      ensures containers.None? && suspended.None?
      ensures contextId == old(contextId) && listenerRegistrations == old(listenerRegistrations)
      ensures leaderSelector == old(leaderSelector)
    {
      var frame := suspended.value;
      suspended := None;
      TeardownOfPrefix(9);
      assert FullSetup[..9] == FullSetup;
      ReleaseCaches(Some(frame.streams), Some(frame.streamDeployments), Some(frame.jobDeployments));
    }

    /** A context-stopped event closes the selector without dropping it; the
        next disconnect's destroy then raises (swallowed) and keeps it, so a
        later connect never starts a new selector. */
    method StoppedAdminStaysOutOfElection()
      requires Valid() && zk.connected && leaderSelector.Some? && leaderSelector.value.state == Running
      modifies this, zk
      ensures leaderSelector == Some(old(leaderSelector).value.(state := ClosedDown))
    {
      var stopped := OnContextStopped();
      OnDisconnect();
      var reconnected := OnConnect();
    }
  }
}
