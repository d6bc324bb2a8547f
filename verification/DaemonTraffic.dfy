/** Requests and publication: every request that was let in is answered once,
    and the initial Hosts are published all together or not at all. */
module DaemonTraffic {
  import opened HostLedger
  import opened Options
  import opened Daemon
  import opened DaemonControl
  import opened DaemonTurns
  import opened DaemonStores

  /** The serving task has not published the initial Hosts. */
  predicate Early(p: Server) {
    p.Idle? || p.Refused? || p.BindTcp? || p.Preparing? || p.BindUnix? || p.Publishing?
  }

  /** The request queue was closed and emptied. */
  predicate Drained(p: Server) {
    p.Joining? || p == Settling(true)
  }

  // ------------------------------------------------------------- requests

  predicate QueueOk(p: Server, t: Traffic) {
    && |t.queue| <= OPEN_QUEUE_CAPACITY
    && (Early(p) ==> t.asked == [] && t.asking == [] && t.queue == [])
    && (Drained(p) || Cleans(p) ==> t.queue == [])
    && (p == DrainQueue || Drained(p) ==> t.closed)
    && (Cleans(p) ==> t.closed || (t.asked == [] && t.asking == []))
  }

  function Requests(replies: seq<Reply>): (qs: seq<Request>)
    ensures |qs| == |replies|
  {
    seq(|replies|, i requires 0 <= i < |replies| => replies[i].request)
  }

  function InWork(j: Job): multiset<Request> {
    if j == NoJob then multiset{} else multiset{j.request}
  }

  /** Where the requests let in are: waiting, queued, in work or answered. */
  function Everywhere(j: Job, t: Traffic): multiset<Request> {
    multiset(t.asking) + multiset(t.queue) + InWork(j) + multiset(Requests(t.replies))
  }

  /** No request is lost or answered twice: each was let in with a ticket of
      its own, and each is in one place. */
  predicate Counted(j: Job, t: Traffic) {
    && (forall k :: 0 <= k < |t.asked| ==> t.asked[k].ticket == k)
    && multiset(t.asked) == Everywhere(j, t)
  }

  predicate TrafficOk(s: State) {
    QueueOk(s.server, s.t) && Counted(s.job, s.t)
  }

  lemma RequestsGrow(replies: seq<Reply>, r: Reply)
    ensures Requests(replies + [r]) == Requests(replies) + [r.request]
  {
  }

  lemma HeadMoves(xs: seq<Request>)
    requires xs != []
    ensures multiset(xs) == multiset{xs[0]} + multiset(xs[1..])
  {
    assert xs == [xs[0]] + xs[1..];
  }

  lemma OneLeaves(xs: seq<Request>, k: nat)
    requires k < |xs|
    ensures multiset(xs) == multiset{xs[k]} + multiset(Without(xs, k))
  {
    assert xs == xs[..k] + [xs[k]] + xs[k + 1..];
  }

  /** The job's request is answered. */
  lemma AnsweredCounts(j: Job, t: Traffic, t': Traffic)
    requires j != NoJob && Counted(j, t) && Answered(t, t', j.request)
    ensures Counted(NoJob, t')
  {
    assert t'.replies == t.replies + [t'.replies[|t.replies|]];
    RequestsGrow(t.replies, t'.replies[|t.replies|]);
  }

  /** The head of the queue goes into work. */
  lemma ReceivedCounts(t: Traffic)
    requires Counted(NoJob, t) && t.queue != []
    ensures Counted(Checking(t.queue[0]), t.(queue := t.queue[1..]))
  {
    HeadMoves(t.queue);
  }

  /** The head of the closed queue is turned away. */
  lemma DrainedCounts(j: Job, t: Traffic)
    requires Counted(j, t) && t.queue != []
    ensures Counted(j, Answer(t.(queue := t.queue[1..]), t.queue[0], None))
  {
    HeadMoves(t.queue);
    RequestsGrow(t.replies, Reply(t.queue[0], None));
  }

  lemma Rejoin(q: Request, rest: multiset<Request>, a: multiset<Request>, b: multiset<Request>, c: multiset<Request>)
    ensures multiset{q} + rest + a + b + c == rest + (a + multiset{q}) + b + c == rest + a + b + (c + multiset{q})
  {
  }

  /** A waiting caller gets into the queue, is turned away, or gives up. */
  lemma LeavingCounts(j: Job, t: Traffic, k: nat)
    requires Counted(j, t) && k < |t.asking|
    ensures Counted(j, Answer(t.(asking := Without(t.asking, k)), t.asking[k], None))
    ensures Counted(j, t.(asking := Without(t.asking, k), queue := t.queue + [t.asking[k]]))
  {
    var q, rest := t.asking[k], multiset(Without(t.asking, k));
    OneLeaves(t.asking, k);
    RequestsGrow(t.replies, Reply(q, None));
    Rejoin(q, rest, multiset(t.queue), InWork(j), multiset(Requests(t.replies)));
    assert multiset(Requests(t.replies) + [q]) == multiset(Requests(t.replies)) + multiset{q};
    assert multiset(t.queue + [q]) == multiset(t.queue) + multiset{q};
  }

  /** A new request is let in. */
  lemma AskedCounts(j: Job, t: Traffic, q: Request)
    requires Counted(j, t) && q.ticket == |t.asked|
    ensures Counted(j, t.(asking := t.asking + [q], asked := t.asked + [q]))
  {
  }

  /** A waiting caller leaves: into the queue, or with an answer. */
  ghost predicate Leaves(t: Traffic, t': Traffic) {
    exists k: nat :: k < |t.asking|
      && (t' == Answer(t.(asking := Without(t.asking, k)), t.asking[k], None)
          || t' == t.(asking := Without(t.asking, k), queue := t.queue + [t.asking[k]]))
  }

  ghost predicate Enters(t: Traffic, t': Traffic) {
    exists q: Request :: q.ticket == |t.asked| && t' == t.(asking := t.asking + [q], asked := t.asked + [q])
  }

  /** All the ways in which one step can move a request. */
  ghost predicate Moves(j: Job, t: Traffic, j': Job, t': Traffic) {
    || (t' == t.(closed := t'.closed) && (j == NoJob <==> j' == NoJob) && (j != NoJob ==> j'.request == j.request))
    || (j != NoJob && j' == NoJob && Answered(t, t', j.request))
    || (j == NoJob && t.queue != [] && j' == Checking(t.queue[0]) && t' == t.(queue := t.queue[1..]))
    || (j' == j && t.queue != [] && t' == Answer(t.(queue := t.queue[1..]), t.queue[0], None))
    || (j' == j && Leaves(t, t'))
    || (j' == j && Enters(t, t'))
  }

  lemma LeavesCounts(j: Job, t: Traffic, t': Traffic)
    requires Counted(j, t) && Leaves(t, t')
    ensures Counted(j, t')
  {
    var k: nat :| k < |t.asking|
      && (t' == Answer(t.(asking := Without(t.asking, k)), t.asking[k], None)
          || t' == t.(asking := Without(t.asking, k), queue := t.queue + [t.asking[k]]));
    LeavingCounts(j, t, k);
  }

  lemma EntersCounts(j: Job, t: Traffic, t': Traffic)
    requires Counted(j, t) && Enters(t, t')
    ensures Counted(j, t')
  {
    var q: Request :| q.ticket == |t.asked| && t' == t.(asking := t.asking + [q], asked := t.asked + [q]);
    AskedCounts(j, t, q);
  }

  lemma MovesCount(j: Job, t: Traffic, j': Job, t': Traffic)
    requires Counted(j, t) && Moves(j, t, j', t')
    ensures Counted(j', t')
  {
    if j' == j && Leaves(t, t') {
      LeavesCounts(j, t, t');
    } else if j' == j && Enters(t, t') {
      EntersCounts(j, t, t');
    } else if j != NoJob && j' == NoJob && Answered(t, t', j.request) {
      AnsweredCounts(j, t, t');
    } else if j == NoJob && j' != NoJob {
      ReceivedCounts(t);
    } else if t'.replies != t.replies {
      DrainedCounts(j, t);
    } else {
      assert InWork(j') == InWork(j);
    }
  }

  ghost predicate TrafficStep(s: State, n: State) {
    Moves(s.job, s.t, n.job, n.t) && (QueueOk(s.server, s.t) ==> QueueOk(n.server, n.t))
  }

  lemma WorkMoves(s: State, e: Env)
    requires JobOk(s)
    ensures TrafficStep(s, WorkStep(s, e))
  {
    WorkFrame(s, e);
  }

  lemma SettleMoves(s: State, joining: bool)
    requires JobOk(s) && s.server == Settling(joining)
    ensures TrafficStep(s, Settle(s, joining))
  {
    SettleFrame(s, joining);
  }

  lemma WaitMoves(s: State, e: Event)
    requires JobOk(s) && s.server == Select
    ensures TrafficStep(s, Wait(s, e))
  {
  }

  lemma StartUpMoves(s: State, e: Env)
    requires JobOk(s)
    ensures TrafficStep(s, StartUp(s, e))
  {
    StartUpFrame(s, e);
  }

  lemma WindDownMoves(s: State)
    requires JobOk(s)
    ensures TrafficStep(s, WindDown(s))
  {
    WindDownFrame(s);
  }

  lemma ServerMoves(s: State, e: Env)
    requires JobOk(s)
    ensures TrafficStep(s, ServerStep(s, e))
  {
    match s.server
    case Settling(joining) => SettleMoves(s, joining);
    case Select => WaitMoves(s, e.event);
    case BindTcp | Preparing(_, _) | BindUnix(_) | Publishing(_) => StartUpMoves(s, e);
    case BeginShutdown | CloseQueue | DrainQueue | Joining => WindDownMoves(s);
    case ServerCleaning | Idle | Refused | ServerDone | LoopTop =>
  }

  lemma StopperMoves(s: State, i: nat, e: Env)
    requires i < |s.stoppers|
    ensures TrafficStep(s, StopperStep(s, i, e))
  {
    var n := StopperStep(s, i, e);
    assert n.t == s.t && n.job == s.job && n.server == s.server;
  }

  lemma EnqueueMoves(p: Server, t: Traffic, k: nat)
    requires k < |t.asking|
    ensures EnqueueStep(t, k) == t || Leaves(t, EnqueueStep(t, k))
    ensures QueueOk(p, t) ==> QueueOk(p, EnqueueStep(t, k))
  {
  }

  lemma AbandonMoves(p: Server, t: Traffic, k: nat)
    requires k < |t.asking|
    ensures var t' := Answer(t.(asking := Without(t.asking, k)), t.asking[k], None);
      Leaves(t, t') && (QueueOk(p, t) ==> QueueOk(p, t'))
  {
  }

  lemma AskMoves(p: Server, t: Traffic, q: Request)
    requires q.ticket == |t.asked| && !Early(p) && !Cleans(p)
    ensures var t' := t.(asking := t.asking + [q], asked := t.asked + [q]);
      Enters(t, t') && (QueueOk(p, t) ==> QueueOk(p, t'))
  {
  }

  lemma CallMoves(s: State, a: Action)
    requires ServerPhase(s) && WinnerOk(s) && CleanOk(s)
    ensures TrafficStep(s, CallStep(s, a))
  {
    match a
    case Ask(q) =>
      if s.phase == Running { AskMoves(s.server, s.t, q.(ticket := |s.t.asked|)); }
    case Enqueue(k) =>
      if k < |s.t.asking| { EnqueueMoves(s.server, s.t, k); }
    case Abandon(k) =>
      if k < |s.t.asking| { AbandonMoves(s.server, s.t, k); }
    case _ =>
  }

  lemma StepMoves(s: State, a: Action)
    requires Control(s)
    ensures TrafficStep(s, Next(s, a))
  {
    match a
    case Serve(e) => ServerMoves(s, e);
    case Work(e) => WorkMoves(s, e);
    case Stop(i, e) =>
      if i < |s.stoppers| { StopperMoves(s, i, e); }
    case _ => CallMoves(s, a);
  }

  lemma StepKeepsTraffic(s: State, a: Action)
    requires Control(s) && TrafficOk(s)
    ensures TrafficOk(Next(s, a))
  {
    StepMoves(s, a);
    var n := Next(s, a);
    MovesCount(s.job, s.t, n.job, n.t);
  }

  lemma {:induction false} EveryRunKeepsTraffic(r: Resources, acts: seq<Action>)
    ensures Control(Run(Start(r), acts)) && TrafficOk(Run(Start(r), acts))
  {
    EveryRunKeepsControl(r, acts);
    if acts != [] {
      EveryRunKeepsTraffic(r, acts[..|acts| - 1]);
      StepKeepsTraffic(Run(Start(r), acts[..|acts| - 1]), acts[|acts| - 1]);
    }
  }

  /** A request that occurs once among those let in is answered once. */
  lemma {:induction false} TicketsAreDistinct(asked: seq<Request>, q: Request)
    requires forall k :: 0 <= k < |asked| ==> asked[k].ticket == k
    ensures multiset(asked)[q] <= 1
  {
    if asked != [] {
      var front, last := asked[..|asked| - 1], asked[|asked| - 1];
      TicketsAreDistinct(front, q);
      assert asked == front + [last];
      assert q == last ==> q !in front;
    }
  }

  lemma TwiceCounts(qs: seq<Request>, i: nat, j: nat)
    requires i < j < |qs| && qs[i] == qs[j]
    ensures multiset(qs)[qs[i]] >= 2
  {
    assert qs == qs[..i] + [qs[i]] + qs[i + 1..j] + [qs[j]] + qs[j + 1..];
  }

  lemma TrafficMeans(s: State)
    requires Control(s) && TrafficOk(s)
    ensures |s.t.queue| <= OPEN_QUEUE_CAPACITY && Counted(s.job, s.t)
    ensures forall i, j :: 0 <= i < j < |s.t.replies| ==> s.t.replies[i].request != s.t.replies[j].request
    ensures forall i :: 0 <= i < |s.t.replies| ==> s.t.replies[i].request in s.t.asked
    ensures s.server == ServerDone ==>
      multiset(s.t.asked) == multiset(s.t.asking) + multiset(Requests(s.t.replies)) && (s.t.asking != [] ==> s.t.closed)
  {
    var qs := Requests(s.t.replies);
    forall i, j | 0 <= i < j < |s.t.replies| ensures s.t.replies[i].request != s.t.replies[j].request {
      if qs[i] == qs[j] {
        TwiceCounts(qs, i, j);
        TicketsAreDistinct(s.t.asked, qs[i]);
      }
    }
    forall i | 0 <= i < |s.t.replies| ensures s.t.replies[i].request in s.t.asked {
      assert qs[i] in multiset(qs);
      assert qs[i] in multiset(s.t.asked);
    }
  }

  /** In every state of every run: the requests let in, each under a ticket of
      its own, are exactly those waiting for the queue, queued, in work and
      answered; so none is lost, and none is answered twice. When serve has
      returned each was answered, except those of callers still waiting at
      the closed queue, which turns them away. */
  lemma EveryRequestIsAnswered(r: Resources, acts: seq<Action>)
    ensures var s := Run(Start(r), acts);
      && |s.t.queue| <= OPEN_QUEUE_CAPACITY
      && (forall k :: 0 <= k < |s.t.asked| ==> s.t.asked[k].ticket == k)
      && multiset(s.t.asked)
         == multiset(s.t.asking) + multiset(s.t.queue) + InWork(s.job) + multiset(Requests(s.t.replies))
      && (forall i, j :: 0 <= i < j < |s.t.replies| ==> s.t.replies[i].request != s.t.replies[j].request)
      && (s.server == ServerDone ==>
            multiset(s.t.asked) == multiset(s.t.asking) + multiset(Requests(s.t.replies)) && (s.t.asking != [] ==> s.t.closed))
  {
    EveryRunKeepsTraffic(r, acts);
    TrafficMeans(Run(Start(r), acts));
  }

  // ----------------------------------------------------------- publication

  /** What the serving task has prepared of the Hosts it started with. */
  predicate Initial(p: Server, phase: Phase, r: Resources, initial: set<Handle>) {
    && (p.Preparing? ==> p.todo + p.done == initial)
    && (p.BindUnix? || p.Publishing? ==> phase == Starting ==> p.done == initial)
    && ((Early(p) && phase != Finishing && phase != Finished) || p.BindTcp? ==> r.hosts.Values == initial)
  }

  predicate Published(p: Server, r: Resources, initial: set<Handle>) {
    && (Early(p) ==> r.published == {})
    && (p.LoopTop? || p.Select? ==> initial <= r.published)
    && (r.published == {} || initial <= r.published)
  }

  /** Only Hosts whose recovery succeeded are, or are about to be, published. */
  predicate Recovered(p: Server, r: Resources, j: Job) {
    && r.published <= r.recovered
    && (p.Preparing? || p.BindUnix? || p.Publishing? ==> p.done <= r.recovered)
    && (j.Ready? && j.outcome.Prepared? ==> j.outcome.slot in r.recovered)
    && (j.Announcing? ==> j.handle in r.recovered)
  }

  predicate PublicationOk(s: State, initial: set<Handle>) {
    && Initial(s.server, s.phase, s.r, initial) && Published(s.server, s.r, initial)
    && (s.phase == Running || s.job != NoJob ==> initial <= s.r.published)
    && Recovered(s.server, s.r, s.job)
  }

  lemma WorkRecovers(phase: Phase, r: Resources, j: Job, e: Env)
    requires Recovered(LoopTop, r, j)
    ensures var p := WorkOn(phase, r, j, e);
      p.r.published == r.published && r.recovered <= p.r.recovered && Recovered(LoopTop, p.r, p.job)
  {
    match j
    case Checking(q) => assert !CheckOpen(phase, r, q, e).Announcing?;
    case Provisioning(q, n) => assert !Provision(r, q, n, e).job.Announcing?;
    case _ =>
  }

  lemma WorkKeepsPublication(s: State, e: Env, initial: set<Handle>)
    requires JobOk(s) && PublicationOk(s, initial)
    ensures PublicationOk(WorkStep(s, e), initial)
  {
    WorkFrame(s, e);
    WorkRecovers(s.phase, s.r, s.job, e);
  }

  lemma SettleKeepsPublication(s: State, joining: bool, initial: set<Handle>)
    requires JobOk(s) && PublicationOk(s, initial) && s.server == Settling(joining)
    ensures PublicationOk(Settle(s, joining), initial)
  {
    SettleFrame(s, joining);
    assert SettleJob(s.phase, s.r, s.job).r.recovered == s.r.recovered;
  }

  lemma CleanKeepsPublication(s: State, e: Env, initial: set<Handle>)
    requires CleanOk(s) && InCleanup(s) && PublicationOk(s, initial)
    requires s.phase != New && s.phase != Running && !s.server.BindTcp? && (Early(s.server) ==> s.phase != Starting)
    ensures PublicationOk(CleanStep(s, e), initial)
  {
    CleanFrame(s, e);
  }

  lemma StartUpKeepsPublication(s: State, e: Env, initial: set<Handle>)
    requires JobOk(s) && ServerPhase(s) && PublicationOk(s, initial)
    requires s.server.BindTcp? || s.server.Preparing? || s.server.BindUnix? || s.server.Publishing?
    ensures PublicationOk(StartUp(s, e), initial)
  {
    match s.server
    case BindTcp =>
    case Preparing(todo, done) =>
    case BindUnix(_) =>
    case Publishing(_) =>
  }

  lemma WindDownKeepsPublication(s: State, initial: set<Handle>)
    requires ServerPhase(s) && PublicationOk(s, initial)
    ensures PublicationOk(WindDown(s), initial)
  {
    WindDownFrame(s);
  }

  lemma ServerKeepsPublication(s: State, e: Env, initial: set<Handle>)
    requires JobOk(s) && ServerPhase(s) && CleanOk(s) && PublicationOk(s, initial)
    ensures PublicationOk(ServerStep(s, e), initial)
  {
    match s.server
    case Settling(joining) => SettleKeepsPublication(s, joining, initial);
    case Select => WaitFrame(s, e.event);
    case ServerCleaning => CleanKeepsPublication(s, e, initial);
    case BindTcp | Preparing(_, _) | BindUnix(_) | Publishing(_) => StartUpKeepsPublication(s, e, initial);
    case BeginShutdown | CloseQueue | DrainQueue | Joining => WindDownKeepsPublication(s, initial);
    case LoopTop | Idle | Refused | ServerDone =>
  }

  lemma StopperKeepsPublication(s: State, i: nat, e: Env, initial: set<Handle>)
    requires i < |s.stoppers| && StopperOk(s, i) && WinnerOk(s) && CleanOk(s) && PublicationOk(s, initial)
    ensures PublicationOk(StopperStep(s, i, e), initial)
  {
    if s.stoppers[i] == StopperCleaning {
      CleanKeepsPublication(s, e, initial);
    }
  }

  lemma StepKeepsPublication(s: State, a: Action, initial: set<Handle>)
    requires Control(s) && PublicationOk(s, initial)
    ensures PublicationOk(Next(s, a), initial)
  {
    match a
    case Serve(e) => ServerKeepsPublication(s, e, initial);
    case Work(e) => WorkKeepsPublication(s, e, initial);
    case Stop(i, e) =>
      if i < |s.stoppers| {
        assert StopperOk(s, i);
        StopperKeepsPublication(s, i, e, initial);
      }
    case _ => CallFrame(s, a);
  }

  lemma {:induction false} EveryRunKeepsPublication(r: Resources, acts: seq<Action>)
    requires HandedOver(r)
    ensures Control(Run(Start(r), acts)) && PublicationOk(Run(Start(r), acts), r.hosts.Values)
  {
    EveryRunKeepsControl(r, acts);
    if acts != [] {
      EveryRunKeepsPublication(r, acts[..|acts| - 1]);
      StepKeepsPublication(Run(Start(r), acts[..|acts| - 1]), acts[|acts| - 1], r.hosts.Values);
    }
  }

  /** In every run the initial Hosts are published all together or not at all,
      and all of them are while the daemon is Running. */
  lemma InitialHostsPublishTogether(r: Resources, acts: seq<Action>)
    requires HandedOver(r)
    ensures var s := Run(Start(r), acts);
      && (s.r.published !! r.hosts.Values || r.hosts.Values <= s.r.published)
      && (s.phase == Running ==> r.hosts.Values <= s.r.published)
  {
    EveryRunKeepsPublication(r, acts);
  }

  /** In every run, a Host announced as ready was recovered; and if one initial
      Host is announced, all of them were recovered. */
  lemma OnlyRecoveredHostsPublish(r: Resources, acts: seq<Action>)
    requires HandedOver(r)
    ensures var s := Run(Start(r), acts);
      && s.r.published <= s.r.recovered
      && (s.r.published * r.hosts.Values != {} ==> r.hosts.Values <= s.r.recovered)
  {
    EveryRunKeepsPublication(r, acts);
  }

  lemma WorkLeaves(phase: Phase, r: Resources, j: Job, e: Env)
    ensures WorkOn(phase, r, j, e).r.published == r.published
  {
  }

  /** What is newly published is in the directory at that moment. */
  predicate PublishesListed(s: State, n: State) {
    forall h :: h in n.r.published && h !in s.r.published ==>
      h < |n.r.stores| && Listed(n.r.stores, n.r.hosts, h)
  }

  lemma ServerPublishesListed(s: State, e: Env, initial: set<Handle>)
    requires Control(s) && PublicationOk(s, initial) && HandlesOk(s.r, s.job, s.clean)
    ensures PublishesListed(s, ServerStep(s, e))
  {
    var n := ServerStep(s, e);
    if s.server.Publishing? && s.phase == Starting {
      forall h | h in n.r.published && h !in s.r.published
        ensures h < |n.r.stores| && Listed(n.r.stores, n.r.hosts, h)
      {
        var name :| name in s.r.hosts && s.r.hosts[name] == h;
        FiledValues(s.r.stores, s.r.hosts, h);
      }
    } else if s.server.Settling? {
      SettlePublishes(s, s.server.joining);
    } else if s.server == ServerCleaning {
    } else if !s.server.Select? {
      WindDownFrame(s);
    }
  }

  lemma SettlePublishes(s: State, joining: bool)
    requires HandlesOk(s.r, s.job, s.clean)
    ensures PublishesListed(s, Settle(s, joining))
  {
    if s.job.Announcing? {
      assert Listed(s.r.stores, s.r.hosts, s.job.handle);
    }
  }

  /** In every run, a Host is announced as ready only while it is listed. */
  lemma OnlyListedHostsPublish(r: Resources, acts: seq<Action>, a: Action)
    requires HandedOver(r)
    ensures PublishesListed(Run(Start(r), acts), Run(Start(r), acts + [a]))
  {
    EveryRunKeepsAccounts(r, acts);
    EveryRunKeepsPublication(r, acts);
    assert (acts + [a])[..|acts|] == acts;
    StepPublishesListed(Run(Start(r), acts), a, r.hosts.Values);
  }

  lemma StepPublishesListed(s: State, a: Action, initial: set<Handle>)
    requires Control(s) && PublicationOk(s, initial) && HandlesOk(s.r, s.job, s.clean)
    ensures PublishesListed(s, Next(s, a))
  {
    match a
    case Serve(e) => ServerPublishesListed(s, e, initial);
    case Work(e) => WorkLeaves(s.phase, s.r, s.job, e);
    case Stop(i, e) =>
      if i < |s.stoppers| {
        StopperPublishesNothing(s, i, e);
      }
    case _ => CallFrame(s, a);
  }

  lemma StopperPublishesNothing(s: State, i: nat, e: Env)
    requires i < |s.stoppers|
    ensures StopperStep(s, i, e).r.published == s.r.published
  {
  }
}
