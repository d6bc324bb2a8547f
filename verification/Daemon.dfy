/** The daemon after construction: one serving task, one provisioning job at a
    time, any number of stop callers and open callers, all interleaved. A step
    is what one task does between two points where another may run. */
module Daemon {
  import opened HostLedger
  import opened Options

  const OPEN_QUEUE_CAPACITY: nat := 16

  datatype Phase = New | Starting | Running | Finishing | Finished

  function Rank(p: Phase): nat {
    match p
    case New => 0
    case Starting => 1
    case Running => 2
    case Finishing => 3
    case Finished => 4
  }

  /** Create or open a Host, under a given name or a generated one; or reopen
      an existing one for an authenticated peer. The ticket tells requests
      apart that ask for the same. */
  datatype Request = Create(ticket: nat, id: Option<Name>) | Reopen(ticket: nat, host: Name, expected: Peer)

  function Wanted(q: Request): Option<Name> {
    match q
    case Create(_, id) => id
    case Reopen(_, host, _) => Some(host)
  }

  datatype HostInfo = HostInfo(name: Name, peer: Peer)

  datatype Reply = Reply(request: Request, info: Option<HostInfo>)

  datatype Outcome = Failed | Live(info: HostInfo) | Prepared(slot: Handle)

  /** Where the one provisioning job is. The last three stages are run by the
      serving task while it settles a finished job. */
  datatype Job =
    | NoJob
    | Checking(request: Request)
    | Provisioning(request: Request, name: Name)
    | Opened(request: Request, handle: Handle)
    | Attached(request: Request, handle: Handle)
    | Composed(request: Request, handle: Handle)
    | StopFailed(request: Request, handle: Handle)
    | CloseFailed(request: Request, handle: Handle)
    | Ready(request: Request, outcome: Outcome)
    | Announcing(request: Request, handle: Handle)
    | RollingStop(request: Request, handle: Handle)
    | RollingClose(request: Request, handle: Handle)

  datatype Server =
    | Idle
    | Refused
    | BindTcp
    | Preparing(todo: set<Handle>, done: set<Handle>)
    | BindUnix(done: set<Handle>)
    | Publishing(done: set<Handle>)
    | LoopTop
    | Select
    | Settling(joining: bool)
    | BeginShutdown
    | CloseQueue
    | DrainQueue
    | Joining
    | ServerCleaning
    | ServerDone

  datatype Stopper = Loading | TryCas | Beginning | Notifying | Waiting | StopperCleaning | StopReturned

  datatype Clean =
    | NotCleaning
    | Taking
    | StoppingServices(all: set<Handle>, left: set<Handle>)
    | StoppingEnsemble(all: set<Handle>)
    | ShuttingStores(left: set<Handle>)
    | MarkFinished
    | Signal
    | CleanDone

  /** Which task took the daemon out of the New phase. */
  datatype Winner = Nobody | ServerWon | StopperWon(index: nat)

  /** The stores, the directory, the Hosts whose recovery succeeded, those
      announced as ready, and the identities on disk. */
  datatype Resources = Resources(
    stores: seq<Store>,
    hosts: map<Name, Handle>,
    recovered: set<Handle>,
    published: set<Handle>,
    identities: map<Name, Peer>,
    bootstrap: bool)

  /** Callers waiting for room in the queue, the queue, every request ever let
      in, and the answers given. */
  datatype Traffic = Traffic(
    asking: seq<Request>,
    queue: seq<Request>,
    closed: bool,
    asked: seq<Request>,
    replies: seq<Reply>)

  /** `opening` counts the spawned jobs that were not joined; `job` is the one
      spawned last, until it is settled. */
  datatype State = State(
    phase: Phase,
    winner: Winner,
    server: Server,
    job: Job,
    opening: nat,
    clean: Clean,
    cleanups: nat,
    ensembleStops: nat,
    finished: bool,
    wake: bool,
    stoppers: seq<Stopper>,
    r: Resources,
    t: Traffic)

  /** What ended a wait of the serving loop. */
  datatype Event = TaskEnded | Woken | Joined | Received

  /** What the surroundings decide in one step. */
  datatype Env = Env(
    ok: bool,
    reserved: bool,
    pick: Handle,
    generated: Option<Name>,
    minted: Peer,
    event: Event)

  datatype Action =
    | CallServe
    | CallStop
    | Ask(request: Request)
    | Enqueue(caller: nat)
    | Abandon(caller: nat)
    | Serve(env: Env)
    | Work(env: Env)
    | Stop(index: nat, env: Env)

  // ------------------------------------------------------------- resources

  function StopAt(r: Resources, h: Handle): Resources {
    if h < |r.stores| then r.(stores := r.stores[h := HostLedger.StopService(r.stores[h])]) else r
  }

  function ShutAt(r: Resources, h: Handle): Resources {
    if h < |r.stores| then r.(stores := r.stores[h := HostLedger.Shut(r.stores[h])]) else r
  }

  function ComposeAt(r: Resources, h: Handle): Resources {
    if h < |r.stores| then r.(stores := r.stores[h := HostLedger.Compose(r.stores[h])]) else r
  }

  /** The service on store `h` restored its state. */
  function RecoverAt(r: Resources, h: Handle): Resources {
    r.(recovered := r.recovered + {h})
  }

  function OpenStore(r: Resources, n: Name, p: Peer): Resources {
    r.(stores := r.stores + [NewStore(n, p)])
  }

  function InfoOf(r: Resources, h: Handle): HostInfo {
    if h < |r.stores| then HostInfo(r.stores[h].name, r.stores[h].peer) else HostInfo(0, 0)
  }

  // --------------------------------------------------------------- cleanup

  function EnterCleanup(s: State): State {
    s.(clean := Taking, cleanups := s.cleanups + 1)
  }

  datatype Cleaning = Cleaning(clean: Clean, r: Resources)

  function CleanOn(c: Clean, r: Resources, e: Env): Cleaning {
    match c
    case Taking => Cleaning(StoppingServices(r.hosts.Values, r.hosts.Values), r.(hosts := map[]))
    case StoppingServices(all, left) =>
      if left == {} then Cleaning(StoppingEnsemble(all), r)
      else if e.pick in left then Cleaning(StoppingServices(all, left - {e.pick}), StopAt(r, e.pick))
      else Cleaning(c, r)
    case StoppingEnsemble(all) => Cleaning(ShuttingStores(all), r)
    case ShuttingStores(left) =>
      if left == {} then Cleaning(MarkFinished, r)
      else if e.pick in left then Cleaning(ShuttingStores(left - {e.pick}), ShutAt(r, e.pick))
      else Cleaning(c, r)
    case MarkFinished => Cleaning(Signal, r)
    case Signal => Cleaning(CleanDone, r)
    case _ => Cleaning(c, r)
  }

  /** One step of whichever task is in cleanup. */
  function CleanStep(s: State, e: Env): State {
    var x := CleanOn(s.clean, s.r, e);
    s.(clean := x.clean, r := x.r,
       phase := if s.clean.MarkFinished? then Finished else s.phase,
       ensembleStops := s.ensembleStops + (if s.clean.StoppingEnsemble? then 1 else 0),
       finished := s.finished || s.clean.Signal?)
  }

  /** Leave Starting or Running; a later phase is left alone. */
  function Shutdown(p: Phase): Phase {
    if p == Starting || p == Running then Finishing else p
  }

  // --------------------------------------------------------- the stop call

  function StopperStep(s: State, i: nat, e: Env): State
    requires i < |s.stoppers|
  {
    match s.stoppers[i]
    case Loading =>
      s.(stoppers := s.stoppers[i :=
        if s.phase == New then TryCas else if s.phase == Finished then StopReturned else Beginning])
    case TryCas =>
      if s.phase == New then
        EnterCleanup(s.(phase := Finishing, winner := StopperWon(i), stoppers := s.stoppers[i := StopperCleaning]))
      else s.(stoppers := s.stoppers[i := Loading])
    case Beginning => s.(phase := Shutdown(s.phase), stoppers := s.stoppers[i := Notifying])
    case Notifying => s.(wake := true, stoppers := s.stoppers[i := Waiting])
    case Waiting => if s.finished then s.(stoppers := s.stoppers[i := StopReturned]) else s
    case StopperCleaning =>
      var s' := CleanStep(s, e);
      if s'.clean == CleanDone then s'.(stoppers := s'.stoppers[i := StopReturned]) else s'
    case StopReturned => s
  }

  // ----------------------------------------------------- the provisioning job

  datatype Progress = Progress(job: Job, r: Resources)

  /** A name that is live answers at once; otherwise there must be room. */
  function CheckOpen(phase: Phase, r: Resources, q: Request, e: Env): Job {
    if phase != Running then Ready(q, Failed)
    else if Wanted(q).Some? && Wanted(q).value in r.hosts then
      var info := InfoOf(r, r.hosts[Wanted(q).value]);
      if (if q.Reopen? then info.peer == q.expected else e.ok) then Ready(q, Live(info)) else Ready(q, Failed)
    else if |r.hosts| >= MAX_LOCAL_HOSTS then Ready(q, Failed)
    else if Wanted(q).Some? then Provisioning(q, Wanted(q).value)
    else if e.generated.Some? && e.generated.value !in r.hosts then Provisioning(q, e.generated.value)
    else Ready(q, Failed)
  }

  /** A reopen needs the identity on disk to be the authenticated one. A create
      mints one where there is none and that is allowed. */
  function Provision(r: Resources, q: Request, n: Name, e: Env): Progress {
    match q
    case Reopen(_, _, expected) =>
      if e.ok && n in r.identities && r.identities[n] == expected then
        Progress(Opened(q, |r.stores|), OpenStore(r, n, expected))
      else Progress(Ready(q, Failed), r)
    case Create(_, _) =>
      if !e.reserved then Progress(Ready(q, Failed), r)
      else if n !in r.identities && !r.bootstrap then Progress(Ready(q, Failed), r)
      else
        var ids := if n in r.identities then r.identities else r.identities[n := e.minted];
        var r' := r.(identities := ids);
        if e.ok then Progress(Opened(q, |r.stores|), OpenStore(r', n, ids[n]))
        else Progress(Ready(q, Failed), r')
  }

  function WorkOn(phase: Phase, r: Resources, j: Job, e: Env): Progress {
    match j
    case Checking(q) => Progress(CheckOpen(phase, r, q, e), r)
    case Provisioning(q, n) => Provision(r, q, n, e)
    case Opened(q, h) => Progress(if e.ok then Attached(q, h) else CloseFailed(q, h), r)
    case Attached(q, h) => if e.ok then Progress(Composed(q, h), ComposeAt(r, h)) else Progress(CloseFailed(q, h), r)
    case Composed(q, h) =>
      if e.ok then Progress(Ready(q, Prepared(h)), RecoverAt(r, h)) else Progress(StopFailed(q, h), r)
    case StopFailed(q, h) => Progress(CloseFailed(q, h), StopAt(r, h))
    case CloseFailed(q, h) => Progress(Ready(q, Failed), ShutAt(r, h))
    case _ => Progress(j, r)
  }

  function WorkStep(s: State, e: Env): State {
    var p := WorkOn(s.phase, s.r, s.job, e);
    s.(job := p.job, r := p.r)
  }

  // ------------------------------------------------------- the serving task

  function Answer(t: Traffic, q: Request, info: Option<HostInfo>): Traffic {
    t.(replies := t.replies + [Reply(q, info)])
  }

  datatype Settled = Settled(job: Job, r: Resources, answer: Option<Option<HostInfo>>)

  /** A prepared Host enters the directory only while Running; otherwise its
      service is stopped and its store shut. */
  function SettleJob(phase: Phase, r: Resources, j: Job): Settled {
    match j
    case Ready(_, Failed) => Settled(NoJob, r, Some(None))
    case Ready(_, Live(info)) => Settled(NoJob, r, Some(if phase == Running then Some(info) else None))
    case Ready(q, Prepared(h)) =>
      if phase == Running then Settled(Announcing(q, h), r.(hosts := r.hosts[InfoOf(r, h).name := h]), None)
      else Settled(RollingStop(q, h), r, None)
    case Announcing(_, h) => Settled(NoJob, r.(published := r.published + {h}), Some(Some(InfoOf(r, h))))
    case RollingStop(q, h) => Settled(RollingClose(q, h), StopAt(r, h), None)
    case RollingClose(_, h) => Settled(NoJob, ShutAt(r, h), Some(None))
    case _ => Settled(j, r, None)
  }

  /** A job that is over is answered, and the serving task goes back to the
      loop it left. */
  function Settle(s: State, joining: bool): State {
    var x := SettleJob(s.phase, s.r, s.job);
    s.(job := x.job, r := x.r,
       t := if x.answer.Some? && !s.job.NoJob? then Answer(s.t, s.job.request, x.answer.value) else s.t,
       server := if x.job.NoJob? then (if joining then Joining else LoopTop) else s.server)
  }

  function Wait(s: State, event: Event): State {
    match event
    case TaskEnded => s.(server := BeginShutdown)
    case Woken => if s.wake then s.(wake := false, server := BeginShutdown) else s
    case Joined =>
      if s.opening > 0 && s.job.Ready? then s.(server := Settling(false), opening := s.opening - 1) else s
    case Received =>
      if s.opening == 0 && s.t.queue != [] then
        s.(job := Checking(s.t.queue[0]), opening := s.opening + 1, t := s.t.(queue := s.t.queue[1..]), server := LoopTop)
      else s
  }

  /** From the first bind to the publication of the initial Hosts. */
  function StartUp(s: State, e: Env): State {
    match s.server
    case BindTcp =>
      if e.ok then s.(server := Preparing(s.r.hosts.Values, {})) else EnterCleanup(s.(server := ServerCleaning))
    case Preparing(todo, done) =>
      if todo == {} || s.phase != Starting then s.(server := BindUnix(done))
      else if e.pick !in todo then s
      else if e.ok then s.(server := Preparing(todo - {e.pick}, done + {e.pick}), r := RecoverAt(s.r, e.pick))
      else s.(server := BeginShutdown)
    case BindUnix(done) => s.(server := if s.phase == Starting && e.ok then Publishing(done) else BeginShutdown)
    case Publishing(done) =>
      if s.phase == Starting then
        s.(phase := Running, server := LoopTop, r := s.r.(published := s.r.published + done))
      else s.(server := BeginShutdown)
    case _ => s
  }

  /** From the end of the loop to the start of cleanup. */
  function WindDown(s: State): State {
    match s.server
    case BeginShutdown => s.(phase := Shutdown(s.phase), server := CloseQueue)
    case CloseQueue => s.(t := s.t.(closed := true), server := DrainQueue)
    case DrainQueue =>
      if s.t.queue == [] then s.(server := Joining)
      else s.(t := Answer(s.t.(queue := s.t.queue[1..]), s.t.queue[0], None))
    case Joining =>
      if s.opening == 0 then EnterCleanup(s.(server := ServerCleaning))
      else if s.job.Ready? then s.(server := Settling(true), opening := s.opening - 1)
      else s
    case _ => s
  }

  function ServerStep(s: State, e: Env): State {
    match s.server
    case BindTcp | Preparing(_, _) | BindUnix(_) | Publishing(_) => StartUp(s, e)
    case LoopTop => s.(server := if s.phase == Running then Select else BeginShutdown)
    case Select => Wait(s, e.event)
    case Settling(joining) => Settle(s, joining)
    case BeginShutdown | CloseQueue | DrainQueue | Joining => WindDown(s)
    case ServerCleaning =>
      var s' := CleanStep(s, e);
      if s'.clean == CleanDone then s'.(server := ServerDone) else s'
    case Idle | Refused | ServerDone => s
  }

  // ------------------------------------------------------------ whole runs

  function Without(xs: seq<Request>, k: nat): seq<Request>
    requires k < |xs|
  {
    xs[..k] + xs[k + 1..]
  }

  /** A caller that passed the phase check waits for room in the queue. */
  function EnqueueStep(t: Traffic, k: nat): Traffic
    requires k < |t.asking|
  {
    var rest := t.(asking := Without(t.asking, k));
    if t.closed then Answer(rest, t.asking[k], None)
    else if |t.queue| < OPEN_QUEUE_CAPACITY then rest.(queue := t.queue + [t.asking[k]])
    else t
  }

  /** Calls into the daemon from outside its tasks. */
  function CallStep(s: State, a: Action): State {
    match a
    case CallServe =>
      if s.server != Idle then s
      else if s.phase == New then s.(phase := Starting, winner := ServerWon, server := BindTcp)
      else s.(server := Refused)
    case CallStop => s.(stoppers := s.stoppers + [Loading])
    case Ask(q) =>
      if s.phase != Running then s
      else
        var request := q.(ticket := |s.t.asked|);
        s.(t := s.t.(asking := s.t.asking + [request], asked := s.t.asked + [request]))
    case Enqueue(k) => if k < |s.t.asking| then s.(t := EnqueueStep(s.t, k)) else s
    case Abandon(k) =>
      if k < |s.t.asking| then s.(t := Answer(s.t.(asking := Without(s.t.asking, k)), s.t.asking[k], None)) else s
    case _ => s
  }

  function Next(s: State, a: Action): State {
    match a
    case Serve(e) => ServerStep(s, e)
    case Work(e) => WorkStep(s, e)
    case Stop(i, e) => if i < |s.stoppers| then StopperStep(s, i, e) else s
    case _ => CallStep(s, a)
  }

  /** The state after a run of actions, in any interleaving. */
  function Run(s: State, acts: seq<Action>): State {
    if acts == [] then s else Next(Run(s, acts[..|acts| - 1]), acts[|acts| - 1])
  }

  /** A daemon just constructed over these resources. */
  function Start(r: Resources): State {
    State(New, Nobody, Idle, NoJob, 0, NotCleaning, 0, 0, false, false, [], r, Traffic([], [], false, [], []))
  }
}
