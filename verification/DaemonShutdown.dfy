/** Shutdown ends: once it has begun, every step of any task brings the end
    nearer, and until the end some task can take one. */
module DaemonShutdown {
  import opened HostLedger
  import opened Options
  import opened Daemon
  import opened DaemonControl
  import opened DaemonStores
  import opened DaemonTraffic

  // --------------------------------------------------- no wake-up is lost

  /** A serving task asleep in its loop during shutdown has been, or is about
      to be, notified. */
  predicate WakeOk(s: State) {
    s.server == Select && s.phase == Finishing ==> s.wake || Notifying in s.stoppers
  }

  lemma StaysNotifying(stoppers: seq<Stopper>, i: nat, x: Stopper)
    requires i < |stoppers| && stoppers[i] != Notifying && Notifying in stoppers
    ensures Notifying in stoppers[i := x]
  {
    var k :| 0 <= k < |stoppers| && stoppers[k] == Notifying;
    assert stoppers[i := x][k] == Notifying;
  }

  lemma StopperKeepsWake(s: State, i: nat, e: Env)
    requires i < |s.stoppers| && StopperOk(s, i) && WinnerOk(s) && WakeOk(s)
    ensures WakeOk(StopperStep(s, i, e))
  {
    var n := StopperStep(s, i, e);
    if s.stoppers[i] == Beginning {
      assert n.stoppers[i] == Notifying;
    } else if s.stoppers[i] != Notifying && Notifying in s.stoppers {
      StaysNotifying(s.stoppers, i, n.stoppers[i]);
    }
  }

  lemma ServerKeepsWake(s: State, e: Env)
    requires ServerPhase(s) && WakeOk(s)
    ensures WakeOk(ServerStep(s, e))
  {
    match s.server
    case BindTcp | Preparing(_, _) | BindUnix(_) | Publishing(_) => assert StartUp(s, e).server != Select;
    case BeginShutdown | CloseQueue | DrainQueue | Joining => assert WindDown(s).server != Select;
    case LoopTop =>
    case Select =>
    case Settling(_) =>
    case ServerCleaning =>
    case Idle | Refused | ServerDone =>
  }

  lemma StepKeepsWake(s: State, a: Action)
    requires Control(s) && WakeOk(s)
    ensures WakeOk(Next(s, a))
  {
    match a
    case Serve(e) => ServerKeepsWake(s, e);
    case Stop(i, e) =>
      if i < |s.stoppers| {
        assert StopperOk(s, i);
        StopperKeepsWake(s, i, e);
      }
    case CallStop =>
      assert forall k :: 0 <= k < |s.stoppers| ==> Next(s, a).stoppers[k] == s.stoppers[k];
    case _ =>
  }

  // --------------------------------------------------------------- effort

  function ServerEffort(p: Server): nat {
    match p
    case BindTcp => 13
    case Preparing(_, _) => 12
    case BindUnix(_) => 11
    case Publishing(_) => 10
    case Select => 9
    case Settling(joining) => if joining then 2 else 8
    case LoopTop => 7
    case BeginShutdown => 6
    case CloseQueue => 5
    case DrainQueue => 4
    case Joining => 3
    case ServerCleaning => 1
    case Idle => 1
    case Refused => 0
    case ServerDone => 0
  }

  function JobEffort(j: Job): nat {
    match j
    case NoJob => 0
    case Announcing(_, _) => 2
    case RollingClose(_, _) => 2
    case RollingStop(_, _) => 4
    case Ready(_, _) => 6
    case CloseFailed(_, _) => 8
    case StopFailed(_, _) => 10
    case Composed(_, _) => 12
    case Attached(_, _) => 14
    case Opened(_, _) => 16
    case Provisioning(_, _) => 18
    case Checking(_) => 20
  }

  function CleanEffort(c: Clean, r: Resources): nat {
    match c
    case NotCleaning => 2 * |r.hosts.Values| + 8
    case Taking => 2 * |r.hosts.Values| + 7
    case StoppingServices(all, left) => |all| + |left| + 6
    case StoppingEnsemble(all) => |all| + 5
    case ShuttingStores(left) => |left| + 4
    case MarkFinished => 3
    case Signal => 2
    case CleanDone => 0
  }

  function TrafficEffort(t: Traffic): nat {
    31 * |t.asking| + 30 * |t.queue|
  }

  function StopperEffort(p: Stopper): nat {
    match p
    case TryCas => 6
    case Loading => 5
    case Beginning => 4
    case Notifying => 3
    case Waiting => 2
    case StopperCleaning => 1
    case StopReturned => 0
  }

  function StoppersEffort(ps: seq<Stopper>): nat {
    if ps == [] then 0 else StoppersEffort(ps[..|ps| - 1]) + StopperEffort(ps[|ps| - 1])
  }

  /** A bound on the steps still to come in a shutdown that has begun. */
  function Effort(s: State): nat {
    ServerEffort(s.server) + JobEffort(s.job) + CleanEffort(s.clean, s.r) + TrafficEffort(s.t) + StoppersEffort(s.stoppers)
  }

  lemma {:induction false} StoppersEffortAt(ps: seq<Stopper>, i: nat, x: Stopper)
    requires i < |ps|
    ensures StoppersEffort(ps[i := x]) == StoppersEffort(ps) - StopperEffort(ps[i]) + StopperEffort(x)
  {
    var front := ps[..|ps| - 1];
    if i == |ps| - 1 {
      assert ps[i := x][..|ps| - 1] == front;
    } else {
      assert ps[i := x][..|ps| - 1] == front[i := x];
      StoppersEffortAt(front, i, x);
    }
  }

  predicate Ending(p: Phase) {
    p == Finishing || p == Finished
  }

  /** Shutdown has begun: in its phases, or in the cleanup that the serving
      task enters straight from a failed bind, while still Starting. */
  predicate Closing(s: State) {
    Ending(s.phase) || (s.phase == Starting && s.server == ServerCleaning && InCleanup(s))
  }

  lemma CleanupIsClosing(s: State)
    requires Control(s) && InCleanup(s)
    ensures Closing(s)
  {
  }

  lemma CleanupGoesOn(s: State, a: Action)
    requires Control(s) && InCleanup(s)
    ensures Next(s, a).clean != NotCleaning
  {
    match a
    case Serve(e) => if s.server == ServerCleaning { CleanFrame(s, e); }
    case Stop(i, e) => if i < |s.stoppers| && s.stoppers[i] == StopperCleaning { CleanFrame(s, e); }
    case _ =>
  }

  lemma StaysClosing(s: State, a: Action)
    requires Control(s) && Closing(s)
    ensures Closing(Next(s, a))
  {
    StepKeepsControl(s, a);
    if InCleanup(s) {
      CleanupGoesOn(s, a);
      if InCleanup(Next(s, a)) {
        CleanupIsClosing(Next(s, a));
      }
    }
  }

  /** Each job step during shutdown brings the job nearer its end. */
  lemma WorkEffort(phase: Phase, r: Resources, j: Job, e: Env)
    requires Ending(phase)
    ensures var p := WorkOn(phase, r, j, e);
      p.r.hosts == r.hosts && (p == Progress(j, r) || JobEffort(p.job) < JobEffort(j))
  {
  }

  lemma OneFewer(left: set<Handle>, h: Handle)
    requires h in left
    ensures |left - {h}| < |left|
  {
    assert left == left - {h} + {h};
  }

  /** A step of cleanup changes nothing or leaves less of it. */
  predicate CleansOn(c: Clean, r: Resources, e: Env) {
    var x := CleanOn(c, r, e);
    x == Cleaning(c, r) || CleanEffort(x.clean, x.r) < CleanEffort(c, r)
  }

  lemma StoppingEffort(all: set<Handle>, left: set<Handle>, r: Resources, e: Env)
    ensures CleansOn(StoppingServices(all, left), r, e)
  {
    if e.pick in left {
      OneFewer(left, e.pick);
    }
  }

  lemma ShuttingEffort(left: set<Handle>, r: Resources, e: Env)
    ensures CleansOn(ShuttingStores(left), r, e)
  {
    if e.pick in left {
      OneFewer(left, e.pick);
    }
  }

  lemma CleaningEffort(c: Clean, r: Resources, e: Env)
    requires c != NotCleaning
    ensures CleansOn(c, r, e)
  {
    match c
    case Taking =>
    case StoppingServices(all, left) => StoppingEffort(all, left, r, e);
    case ShuttingStores(left) => ShuttingEffort(left, r, e);
    case StoppingEnsemble(_) | MarkFinished | Signal | CleanDone =>
  }

  lemma CleanStepEffort(s: State, e: Env)
    requires InCleanup(s)
    ensures var n := CleanStep(s, e); n == s || CleanEffort(n.clean, n.r) < CleanEffort(s.clean, s.r)
  {
    CleaningEffort(s.clean, s.r, e);
  }

  lemma WaitEffort(s: State, e: Event)
    requires s.server == Select
    ensures var n := Wait(s, e); n == s || Effort(n) < Effort(s)
  {
  }

  lemma WindDownEffort(s: State)
    requires Ending(s.phase) && s.clean == NotCleaning
    requires s.server.BeginShutdown? || s.server.CloseQueue? || s.server.DrainQueue? || s.server.Joining?
    ensures WindDown(s) == s || Effort(WindDown(s)) < Effort(s)
  {
    match s.server
    case BeginShutdown =>
    case CloseQueue =>
    case DrainQueue => if s.t.queue != [] { assert |WindDown(s).t.queue| == |s.t.queue| - 1; }
    case Joining =>
  }

  lemma SettlingEffort(s: State, joining: bool)
    requires Ending(s.phase) && JobOk(s) && s.server == Settling(joining)
    ensures Effort(Settle(s, joining)) < Effort(s)
  {
  }

  lemma ServerCleanEffort(s: State, e: Env)
    requires InCleanup(s) && s.server == ServerCleaning
    ensures var n := ServerStep(s, e); n == s || Effort(n) < Effort(s)
  {
    CleanStepEffort(s, e);
  }

  lemma ServerEffortFalls(s: State, e: Env)
    requires Closing(s) && JobOk(s) && ServerPhase(s) && WinnerOk(s)
    ensures var n := ServerStep(s, e); n == s || Effort(n) < Effort(s)
  {
    match s.server
    case BindTcp | Preparing(_, _) | BindUnix(_) | Publishing(_) =>
    case BeginShutdown | CloseQueue | DrainQueue | Joining => WindDownEffort(s);
    case Select => WaitEffort(s, e.event);
    case Settling(joining) => SettlingEffort(s, joining);
    case ServerCleaning => ServerCleanEffort(s, e);
    case Idle | Refused | ServerDone | LoopTop =>
  }

  lemma StopperEffortFalls(s: State, i: nat, e: Env)
    requires i < |s.stoppers| && Closing(s) && WinnerOk(s) && StopperOk(s, i)
    ensures var n := StopperStep(s, i, e); n == s || Effort(n) < Effort(s)
  {
    var n := StopperStep(s, i, e);
    if s.stoppers[i] == StopperCleaning {
      CleanStepEffort(s, e);
    }
    StoppersEffortAt(s.stoppers, i, n.stoppers[i]);
  }

  lemma CallEffort(s: State, a: Action)
    requires Closing(s) && a != CallStop
    ensures CallStep(s, a) == s || Effort(CallStep(s, a)) < Effort(s)
  {
  }

  /** During shutdown every step of every task either changes nothing or
      leaves less to do. */
  lemma EffortFalls(s: State, a: Action)
    requires Control(s) && Closing(s) && a != CallStop
    ensures Next(s, a) == s || Effort(Next(s, a)) < Effort(s)
  {
    match a
    case Serve(e) => ServerEffortFalls(s, e);
    case Work(e) => if Ending(s.phase) { WorkEffort(s.phase, s.r, s.job, e); }
    case Stop(i, e) =>
      if i < |s.stoppers| {
        assert StopperOk(s, i);
        StopperEffortFalls(s, i, e);
      }
    case _ => CallEffort(s, a);
  }

  // -------------------------------------------------------- no stalling

  /** Steps the daemon's own tasks take without anything new from outside: no
      new call, and no server task ending by itself. */
  predicate Internal(a: Action) {
    a.Enqueue? || a.Work? || a.Stop? || (a.Serve? && a.env.event != TaskEnded)
  }

  /** Serve, if it was called, and every stop call have returned, and every
      caller was answered. */
  predicate Over(s: State) {
    && s.finished && s.job == NoJob && s.t.asking == [] && s.t.queue == []
    && (s.server == Idle || s.server == Refused || s.server == ServerDone)
    && forall i :: 0 <= i < |s.stoppers| ==> s.stoppers[i] == StopReturned
  }

  predicate Sound(s: State) {
    Control(s) && QueueOk(s.server, s.t) && WakeOk(s)
  }

  function Plain(pick: Handle): Env {
    Env(true, true, pick, None, 0, Woken)
  }

  /** The choice with which cleanup can go on. */
  lemma CleanMove(s: State) returns (e: Env)
    requires InCleanup(s)
    ensures e.event != TaskEnded && CleanStep(s, e) != s
  {
    var left := match s.clean case StoppingServices(_, l) => l case ShuttingStores(l) => l case _ => {};
    if left == {} {
      e := Plain(0);
    } else {
      var h :| h in left;
      e := Plain(h);
    }
    assert CleanOn(s.clean, s.r, e).clean != s.clean;
  }

  /** Until cleanup is over, the winner or its job can move, unless the winner
      sleeps and the notification is still to come. */
  lemma ServerMove(s: State) returns (a: Action)
    requires JobOk(s) && ServerPhase(s) && WakeOk(s) && Serves(s.server) && Closing(s) && !(s.server == ServerDone)
    requires Notifying !in s.stoppers
    ensures Internal(a) && Next(s, a) != s
  {
    a := Serve(Plain(0));
    match s.server
    case Settling(_) => assert SettleJob(s.phase, s.r, s.job).job != s.job;
    case Joining =>
      if s.job != NoJob && !s.job.Ready? {
        a := Work(Plain(0));
      }
    case ServerCleaning =>
      var e := CleanMove(s);
      a := Serve(e);
    case DrainQueue =>
      if s.t.queue != [] {
        assert |WindDown(s).t.queue| < |s.t.queue|;
      }
    case _ =>
  }

  lemma StopperMove(s: State, i: nat) returns (a: Action)
    requires i < |s.stoppers| && StopperOk(s, i) && WinnerOk(s) && Closing(s)
    requires s.stoppers[i] != StopReturned && (s.stoppers[i] == Waiting ==> s.finished)
    ensures Internal(a) && Next(s, a) != s
  {
    var e := Plain(0);
    if s.stoppers[i] == StopperCleaning {
      e := CleanMove(s);
    }
    a := Stop(i, e);
    var n := Next(s, a);
    assert s.stoppers[i] != StopperCleaning ==> n.stoppers[i] != s.stoppers[i];
  }

  lemma CallerMove(s: State) returns (a: Action)
    requires s.t.closed && s.t.asking != []
    ensures Internal(a) && Next(s, a) != s
  {
    a := Enqueue(0);
    assert |Next(s, a).t.asking| < |s.t.asking|;
  }

  /** Before it is over, a shutdown can always take a step of its own. */
  lemma ShutdownNeverStalls(s: State) returns (a: Action)
    requires Sound(s) && Closing(s) && !Over(s)
    ensures Internal(a) && Next(s, a) != s
  {
    if i: nat :| i < |s.stoppers| && s.stoppers[i] != StopReturned && (s.stoppers[i] == Waiting ==> s.finished) {
      assert StopperOk(s, i);
      a := StopperMove(s, i);
    } else if s.finished {
      assert forall i: nat :: i < |s.stoppers| ==> s.stoppers[i] == StopReturned;
      a := CallerMove(s);
    } else {
      assert forall i: nat :: i < |s.stoppers| ==> s.stoppers[i] != Notifying && s.stoppers[i] != StopperCleaning;
      a := ServerMove(s);
    }
  }

  // ------------------------------------------------------------ whole runs

  lemma {:induction false} EveryRunIsSound(r: Resources, acts: seq<Action>)
    ensures Sound(Run(Start(r), acts))
  {
    EveryRunKeepsTraffic(r, acts);
    if acts != [] {
      EveryRunIsSound(r, acts[..|acts| - 1]);
      StepKeepsWake(Run(Start(r), acts[..|acts| - 1]), acts[|acts| - 1]);
    }
  }

  lemma StepIsSound(s: State, a: Action)
    requires Sound(s)
    ensures Sound(Next(s, a)) && Rank(s.phase) <= Rank(Next(s, a).phase)
  {
    StepKeepsControl(s, a);
    StepMoves(s, a);
    StepKeepsWake(s, a);
  }

  predicate AllInternal(acts: seq<Action>) {
    forall k :: 0 <= k < |acts| ==> Internal(acts[k])
  }

  ghost predicate Completes(s: State, more: seq<Action>, bound: nat) {
    AllInternal(more) && |more| <= bound && Over(Run(s, more))
  }

  lemma ShutdownMoves(s: State) returns (a: Action, n: State)
    requires Sound(s) && Closing(s) && !Over(s)
    ensures Internal(a) && n == Next(s, a) && Sound(n) && Closing(n) && Effort(n) < Effort(s)
  {
    a := ShutdownNeverStalls(s);
    n := Next(s, a);
    EffortFalls(s, a);
    StepIsSound(s, a);
    StaysClosing(s, a);
  }

  lemma {:induction false} ShutdownCanComplete(s: State)
    requires Sound(s) && Closing(s)
    ensures Completable(s, Effort(s))
    decreases Effort(s)
  {
    if Over(s) {
      NothingLeft(s, Effort(s));
    } else {
      var a, n := ShutdownMoves(s);
      ShutdownCanComplete(n);
      OneStepEarlier(s, a, n, Effort(n), Effort(s));
    }
  }

  ghost predicate Completable(s: State, bound: nat) {
    exists more :: Completes(s, more, bound)
  }

  lemma NothingLeft(s: State, bound: nat)
    requires Over(s)
    ensures Completable(s, bound)
  {
    assert Completes(s, [], bound);
  }

  lemma OneStepEarlier(s: State, a: Action, n: State, bound: nat, more: nat)
    requires Internal(a) && n == Next(s, a) && Completable(n, bound) && bound < more
    ensures Completable(s, more)
  {
    var rest :| Completes(n, rest, bound);
    PrependStep(s, a, rest, bound, more);
  }

  lemma PrependStep(s: State, a: Action, rest: seq<Action>, bound: nat, more: nat)
    requires Internal(a) && Completes(Next(s, a), rest, bound) && bound < more
    ensures Completes(s, [a] + rest, more)
  {
    assert [a][..0] == [];
    assert Run(s, [a]) == Next(s, a);
    RunConcat(s, [a], rest);
  }

  /** Steps of the daemon's own tasks that end a run with everything returned
      and every store shut. */
  ghost predicate EndsWith(r: Resources, acts: seq<Action>, more: seq<Action>) {
    && AllInternal(more)
    && Over(Run(Start(r), acts + more)) && AllReleased(Run(Start(r), acts + more).r.stores)
  }

  /** In every run in which shutdown, or cleanup after a failed bind, has
      begun: each further step of any task,
      new stop calls aside, changes nothing or lessens what is left to do; and
      the daemon's own tasks can always finish, so that serve and every stop
      call return, every caller is answered, and every store ever opened has
      been shut exactly once. */
  lemma EveryShutdownEnds(r: Resources, acts: seq<Action>, a: Action)
    requires HandedOver(r) && (Ending(Run(Start(r), acts).phase) || InCleanup(Run(Start(r), acts)))
    ensures var s := Run(Start(r), acts);
      a != CallStop ==> Next(s, a) == s || Effort(Next(s, a)) < Effort(s)
    ensures exists more :: EndsWith(r, acts, more) && |more| <= Effort(Run(Start(r), acts))
  {
    EveryRunIsSound(r, acts);
    var s := Run(Start(r), acts);
    if InCleanup(s) {
      CleanupIsClosing(s);
    }
    if a != CallStop {
      EffortFalls(s, a);
    }
    ShutdownCanComplete(s);
    assert Completable(s, Effort(s));
    var more :| Completes(s, more, Effort(s));
    RunConcat(Start(r), acts, more);
    StopReleasesEverything(r, acts + more);
    assert EndsWith(r, acts, more);
  }

  /** `n` steps of one stop call. */
  function StopSteps(i: nat, e: Env, n: nat): seq<Action> {
    if n == 0 then [] else StopSteps(i, e, n - 1) + [Stop(i, e)]
  }

  /** How many of its own steps a stop call is from having begun the shutdown. */
  function StepsToBegin(s: State, i: nat): nat
    requires i < |s.stoppers|
  {
    if Ending(s.phase) then 0
    else match s.stoppers[i]
      case TryCas => if s.phase == New then 1 else 3
      case Loading => 2
      case _ => 1
  }

  lemma StopComesNearer(s: State, i: nat, e: Env)
    requires Control(s) && i < |s.stoppers|
    ensures var n := Next(s, Stop(i, e));
      && |n.stoppers| == |s.stoppers|
      && (Ending(n.phase) || (!Ending(s.phase) && StepsToBegin(n, i) < StepsToBegin(s, i)))
  {
    assert StopperOk(s, i);
  }

  /** In `k` of its own steps the stop call has begun the shutdown, or come so
      much nearer to it. */
  ghost predicate Nearer(s: State, n: State, i: nat, k: nat)
    requires i < |s.stoppers|
  {
    |n.stoppers| == |s.stoppers| && (Ending(n.phase) || StepsToBegin(n, i) + k <= StepsToBegin(s, i))
  }

  lemma OneNearer(s: State, m: State, i: nat, e: Env, k: nat)
    requires i < |s.stoppers| && Control(m) && Nearer(s, m, i, k)
    ensures Nearer(s, Next(m, Stop(i, e)), i, k + 1)
  {
    StopComesNearer(m, i, e);
  }

  lemma {:induction false} StopBegins(s: State, i: nat, e: Env, k: nat)
    requires Control(s) && i < |s.stoppers|
    ensures Nearer(s, Run(s, StopSteps(i, e, k)), i, k)
  {
    if k > 0 {
      StopBegins(s, i, e, k - 1);
      RunKeepsControl(s, StopSteps(i, e, k - 1));
      RunOn(s, StopSteps(i, e, k - 1), Stop(i, e));
      OneNearer(s, Run(s, StopSteps(i, e, k - 1)), i, e, k - 1);
    }
  }

  /** In every run, three steps of any stop call's own begin the shutdown, if
      nothing else has; and a stop call that waits for its end, or has
      returned, waited for one that has begun. */
  lemma EveryStopBegins(r: Resources, acts: seq<Action>, i: nat, e: Env)
    requires i < |Run(Start(r), acts).stoppers|
    ensures Ending(Run(Start(r), acts + StopSteps(i, e, 3)).phase)
    ensures var s := Run(Start(r), acts);
      s.stoppers[i] == Notifying || s.stoppers[i] == Waiting || s.stoppers[i] == StopReturned ==> Ending(s.phase)
  {
    var s := Run(Start(r), acts);
    EveryRunKeepsControl(r, acts);
    assert StopperOk(s, i);
    StopBegins(s, i, e, 3);
    RunConcat(Start(r), acts, StopSteps(i, e, 3));
  }

  lemma LoneStopBegins(r: Resources, e: Env)
    ensures Run(Start(r), [CallStop] + [Stop(0, e), Stop(0, e)]).phase == Finishing
  {
    var s := Start(r);
    RunOn(s, [], CallStop);
    var one := s.(stoppers := [Loading]);
    assert Next(s, CallStop) == one && [] + [CallStop] == [CallStop];
    RunOn(s, [CallStop], Stop(0, e));
    var two := s.(stoppers := [TryCas]);
    assert StopperStep(one, 0, e) == two;
    RunOn(s, [CallStop] + [Stop(0, e)], Stop(0, e));
    assert StopperStep(two, 0, e).phase == Finishing;
    assert [CallStop] + [Stop(0, e)] + [Stop(0, e)] == [CallStop] + [Stop(0, e), Stop(0, e)];
  }

  /** A caller that gives up while the daemon is being started leaves it to
      one stop call. Its first two steps begin the shutdown, and from there the
      call on its own shuts every store. */
  lemma CancelledStartReleases(r: Resources, e: Env)
    requires HandedOver(r)
    ensures exists more :: EndsWith(r, [CallStop] + [Stop(0, e), Stop(0, e)], more)
  {
    LoneStopBegins(r, e);
    EveryShutdownEnds(r, [CallStop] + [Stop(0, e), Stop(0, e)], CallStop);
  }
}
