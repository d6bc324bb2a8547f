/** Which task may be where: one winner leaves the New phase, cleanup is
    entered once, and a stop returns only when everything is over. */
module DaemonControl {
  import opened Daemon

  /** The phases in which the serving task can be at each of its points. */
  predicate ServerPhase(s: State) {
    match s.server
    case Idle | Refused => true
    case BindTcp | Preparing(_, _) | BindUnix(_) | Publishing(_) => s.phase == Starting || s.phase == Finishing
    case LoopTop | Select => s.phase == Running || s.phase == Finishing
    case Settling(joining) => s.phase == Finishing || (!joining && s.phase == Running)
    case BeginShutdown => s.phase == Starting || s.phase == Running || s.phase == Finishing
    case CloseQueue | DrainQueue | Joining => s.phase == Finishing
    case ServerCleaning => InCleanup(s) && s.phase != New && s.phase != Running
    case ServerDone => s.clean == CleanDone
  }

  predicate InCleanup(s: State) {
    s.clean != NotCleaning && s.clean != CleanDone
  }

  predicate Serves(p: Server) {
    p != Idle && p != Refused
  }

  predicate Cleans(p: Server) {
    p == ServerCleaning || p == ServerDone
  }

  /** The winner alone runs cleanup. */
  predicate WinnerOk(s: State) {
    match s.winner
    case Nobody => s.phase == New && s.server == Idle && s.clean == NotCleaning
    case ServerWon => s.phase != New && Serves(s.server) && (s.clean == NotCleaning <==> !Cleans(s.server))
    case StopperWon(i) =>
      && (s.phase == Finishing || s.phase == Finished) && !Serves(s.server) && i < |s.stoppers|
      && (if s.clean == CleanDone then s.stoppers[i] == StopReturned
          else s.stoppers[i] == StopperCleaning && s.clean != NotCleaning)
  }

  predicate StopperOk(s: State, i: nat)
    requires i < |s.stoppers|
  {
    match s.stoppers[i]
    case Loading | TryCas => true
    case Beginning => s.phase != New
    case Notifying | Waiting => s.phase == Finishing || s.phase == Finished
    case StopperCleaning => s.winner == StopperWon(i)
    case StopReturned => s.phase == Finished
  }

  predicate CleanOk(s: State) {
    && (s.finished <==> s.clean == CleanDone)
    && (s.phase == Finished <==> s.clean == Signal || s.clean == CleanDone)
    && s.cleanups == (if s.clean == NotCleaning then 0 else 1)
    && s.ensembleStops == (match s.clean
         case NotCleaning | Taking | StoppingServices(_, _) | StoppingEnsemble(_) => 0
         case _ => 1)
  }

  predicate SettlingJob(j: Job) {
    j.Announcing? || j.RollingStop? || j.RollingClose?
  }

  /** The serving task holds a job only between its loop and its join. */
  predicate JobOk(s: State) {
    && (s.job != NoJob ==> match s.server
          case LoopTop | Select | Settling(_) | BeginShutdown | CloseQueue | DrainQueue | Joining => true
          case _ => false)
    && (s.server.Settling? ==> s.job.Ready? || SettlingJob(s.job))
    && (SettlingJob(s.job) ==> s.server.Settling?)
    && s.opening == (if s.job == NoJob || s.server.Settling? then 0 else 1)
  }

  predicate StoppersOk(s: State) {
    && (s.server == Refused ==> s.phase != New)
    && forall i :: 0 <= i < |s.stoppers| ==> StopperOk(s, i)
  }

  predicate Control(s: State) {
    ServerPhase(s) && WinnerOk(s) && CleanOk(s) && JobOk(s) && StoppersOk(s)
  }

  // ------------------------------------------------------- what steps keep

  /** What no step undoes. */
  predicate Onward(s: State, n: State) {
    && Rank(s.phase) <= Rank(n.phase)
    && (s.winner != Nobody ==> n.winner == s.winner)
  }

  lemma StoppersKept(s: State, n: State)
    requires StoppersOk(s) && Onward(s, n) && n.stoppers == s.stoppers
    requires n.server == Refused ==> n.phase != New
    ensures StoppersOk(n)
  {
    forall i | 0 <= i < |n.stoppers| ensures StopperOk(n, i) {
      assert StopperOk(s, i);
    }
  }

  lemma StopperReplaced(s: State, n: State, i: nat)
    requires StoppersOk(s) && Onward(s, n) && n.server == s.server
    requires i < |s.stoppers| == |n.stoppers| && n.stoppers == s.stoppers[i := n.stoppers[i]]
    requires StopperOk(n, i)
    ensures StoppersOk(n)
  {
    forall k | 0 <= k < |n.stoppers| && k != i ensures StopperOk(n, k) {
      assert StopperOk(s, k) && n.stoppers[k] == s.stoppers[k];
    }
  }

  /** A step of cleanup touches neither the tasks nor the winner. */
  lemma CleanFrame(s: State, e: Env)
    requires CleanOk(s) && InCleanup(s)
    ensures var n := CleanStep(s, e);
      && CleanOk(n) && n.clean != NotCleaning && Onward(s, n) && (n.phase == s.phase || n.phase == Finished)
      && n == s.(phase := n.phase, clean := n.clean, ensembleStops := n.ensembleStops, finished := n.finished, r := n.r)
      && n.r == s.r.(stores := n.r.stores, hosts := n.r.hosts)
  {
  }

  /** Settling a job leaves the phase and the cleanup alone. */
  lemma SettleFrame(s: State, joining: bool)
    requires s.server == Settling(joining) && JobOk(s)
    ensures var n := Settle(s, joining);
      && n == s.(server := n.server, job := n.job, r := n.r, t := n.t)
      && (if SettlingJob(n.job) then n.server == s.server && n.t == s.t
          else (n.job == NoJob && n.server == (if joining then Joining else LoopTop)
                && Answered(s.t, n.t, s.job.request)))
      && n.r == s.r.(stores := n.r.stores, hosts := n.r.hosts, published := n.r.published)
      && s.r.published <= n.r.published
      && (n.job != NoJob ==> n.job.request == s.job.request)
  {
  }

  /** One more reply, to this request, and nothing else. */
  predicate Answered(t: Traffic, t': Traffic, q: Request) {
    && t' == t.(replies := t'.replies) && |t'.replies| == |t.replies| + 1
    && t'.replies[..|t.replies|] == t.replies && t'.replies[|t.replies|].request == q
  }

  lemma WaitFrame(s: State, e: Event)
    requires s.server == Select && JobOk(s)
    ensures var n := Wait(s, e);
      && n == s.(server := n.server, job := n.job, opening := n.opening, wake := n.wake, t := n.t)
      && (n.server == Select || n.server == LoopTop || n.server == BeginShutdown || n.server == Settling(false))
      && JobOk(n)
  {
  }

  lemma ServerCleanKeeps(s: State, e: Env)
    requires Control(s) && s.server == ServerCleaning
    ensures Control(ServerStep(s, e)) && Onward(s, ServerStep(s, e))
  {
    CleanFrame(s, e);
    StoppersKept(s, ServerStep(s, e));
  }

  lemma ServerSettleKeeps(s: State, e: Env)
    requires Control(s) && s.server.Settling?
    ensures Control(ServerStep(s, e)) && Onward(s, ServerStep(s, e))
  {
    SettleFrame(s, s.server.joining);
    StoppersKept(s, ServerStep(s, e));
  }

  lemma ServerWaitKeeps(s: State, e: Env)
    requires Control(s) && s.server == Select
    ensures Control(ServerStep(s, e)) && Onward(s, ServerStep(s, e))
  {
    WaitFrame(s, e.event);
    StoppersKept(s, ServerStep(s, e));
  }

  lemma ServerStartKeeps(s: State, e: Env)
    requires Control(s)
    requires s.server.BindTcp? || s.server.Publishing?
    ensures Control(ServerStep(s, e)) && Onward(s, ServerStep(s, e))
  {
    StoppersKept(s, ServerStep(s, e));
  }

  lemma ServerPrepareKeeps(s: State, e: Env)
    requires Control(s) && (s.server.Preparing? || s.server.BindUnix?)
    ensures Control(ServerStep(s, e)) && Onward(s, ServerStep(s, e))
  {
    StoppersKept(s, ServerStep(s, e));
  }

  lemma ServerEndKeeps(s: State, e: Env)
    requires Control(s)
    requires s.server.LoopTop? || s.server.BeginShutdown? || s.server.CloseQueue? || s.server.DrainQueue?
    ensures Control(ServerStep(s, e)) && Onward(s, ServerStep(s, e))
  {
    StoppersKept(s, ServerStep(s, e));
  }

  lemma ServerJoinKeeps(s: State, e: Env)
    requires Control(s) && s.server == Joining
    ensures Control(ServerStep(s, e)) && Onward(s, ServerStep(s, e))
  {
    StoppersKept(s, ServerStep(s, e));
  }

  lemma ServerKeepsControl(s: State, e: Env)
    requires Control(s)
    ensures Control(ServerStep(s, e)) && Onward(s, ServerStep(s, e))
  {
    match s.server
    case BindTcp | Publishing(_) => ServerStartKeeps(s, e);
    case Preparing(_, _) | BindUnix(_) => ServerPrepareKeeps(s, e);
    case LoopTop | BeginShutdown | CloseQueue | DrainQueue => ServerEndKeeps(s, e);
    case Joining => ServerJoinKeeps(s, e);
    case Select => ServerWaitKeeps(s, e);
    case Settling(_) => ServerSettleKeeps(s, e);
    case ServerCleaning => ServerCleanKeeps(s, e);
    case Idle | Refused | ServerDone =>
  }

  lemma StopperCleanKeeps(s: State, i: nat, e: Env)
    requires Control(s) && i < |s.stoppers| && s.stoppers[i] == StopperCleaning
    ensures Control(StopperStep(s, i, e)) && Onward(s, StopperStep(s, i, e))
  {
    assert StopperOk(s, i);
    CleanFrame(s, e);
    StopperReplaced(s, StopperStep(s, i, e), i);
  }

  lemma StopperKeepsControl(s: State, i: nat, e: Env)
    requires Control(s) && i < |s.stoppers|
    ensures Control(StopperStep(s, i, e)) && Onward(s, StopperStep(s, i, e))
  {
    assert StopperOk(s, i);
    if s.stoppers[i] == StopperCleaning {
      StopperCleanKeeps(s, i, e);
    } else {
      StopperReplaced(s, StopperStep(s, i, e), i);
    }
  }

  /** The job's own steps move neither the phase nor any other task. */
  lemma WorkFrame(s: State, e: Env)
    requires JobOk(s)
    ensures var n := WorkStep(s, e);
      && n == s.(job := n.job, r := n.r) && JobOk(n) && (n.job == NoJob <==> s.job == NoJob)
      && (n.job != NoJob ==> n.job.request == s.job.request)
      && n.r == s.r.(stores := n.r.stores, identities := n.r.identities, recovered := n.r.recovered)
  {
  }

  lemma WorkKeepsControl(s: State, e: Env)
    requires Control(s)
    ensures Control(WorkStep(s, e)) && Onward(s, WorkStep(s, e))
  {
    WorkFrame(s, e);
    StoppersKept(s, WorkStep(s, e));
  }

  lemma CallStopKeeps(s: State)
    requires Control(s)
    ensures Control(Next(s, CallStop)) && Onward(s, Next(s, CallStop))
  {
    var n := s.(stoppers := s.stoppers + [Loading]);
    forall i | 0 <= i < |n.stoppers| ensures StopperOk(n, i) {
      assert i < |s.stoppers| ==> StopperOk(s, i);
    }
  }

  lemma CallServeKeeps(s: State)
    requires Control(s)
    ensures Control(Next(s, CallServe)) && Onward(s, Next(s, CallServe))
  {
    StoppersKept(s, Next(s, CallServe));
  }

  lemma CallerKeeps(s: State, a: Action)
    requires Control(s) && (a.Ask? || a.Enqueue? || a.Abandon?)
    ensures Next(s, a) == s.(t := Next(s, a).t)
    ensures Control(Next(s, a)) && Onward(s, Next(s, a))
  {
    var t := Next(s, a).t;
    StoppersKept(s, s.(t := t));
  }

  /** A call from outside moves neither the stores nor the job. */
  lemma CallFrame(s: State, a: Action)
    ensures var n := CallStep(s, a); n.r == s.r && n.job == s.job && n.clean == s.clean
  {
  }

  lemma StepKeepsControl(s: State, a: Action)
    requires Control(s)
    ensures Control(Next(s, a)) && Onward(s, Next(s, a))
  {
    match a
    case Serve(e) => ServerKeepsControl(s, e);
    case Stop(i, e) =>
      if i < |s.stoppers| { StopperKeepsControl(s, i, e); }
    case Work(e) => WorkKeepsControl(s, e);
    case CallStop => CallStopKeeps(s);
    case CallServe => CallServeKeeps(s);
    case Ask(_) | Enqueue(_) | Abandon(_) => CallerKeeps(s, a);
  }

  // ------------------------------------------------------------ whole runs

  lemma RunOn(s: State, acts: seq<Action>, a: Action)
    ensures Run(s, acts + [a]) == Next(Run(s, acts), a)
  {
    assert (acts + [a])[..|acts|] == acts;
  }

  lemma {:induction false} RunConcat(s: State, a: seq<Action>, b: seq<Action>)
    ensures Run(s, a + b) == Run(Run(s, a), b)
  {
    if b == [] {
      assert a + b == a;
    } else {
      assert (a + b)[..|a + b| - 1] == a + b[..|b| - 1];
      RunConcat(s, a, b[..|b| - 1]);
    }
  }

  lemma {:induction false} RunKeepsControl(s: State, acts: seq<Action>)
    requires Control(s)
    ensures Control(Run(s, acts)) && Onward(s, Run(s, acts))
  {
    if acts != [] {
      RunKeepsControl(s, acts[..|acts| - 1]);
      StepKeepsControl(Run(s, acts[..|acts| - 1]), acts[|acts| - 1]);
    }
  }

  /** Every interleaving keeps the control invariant. */
  lemma {:induction false} EveryRunKeepsControl(r: Resources, acts: seq<Action>)
    ensures Control(Run(Start(r), acts))
  {
    if acts != [] {
      EveryRunKeepsControl(r, acts[..|acts| - 1]);
      StepKeepsControl(Run(Start(r), acts[..|acts| - 1]), acts[|acts| - 1]);
    }
  }

  /** The phase only ever moves forward, and only one task ever leaves New. */
  lemma PhaseMovesForward(r: Resources, acts: seq<Action>, a: Action)
    ensures Onward(Run(Start(r), acts), Run(Start(r), acts + [a]))
  {
    EveryRunKeepsControl(r, acts);
    StepKeepsControl(Run(Start(r), acts), a);
    assert (acts + [a])[..|acts|] == acts;
  }

  /** In every run: a stop of a daemon that is Finished returns at its first
      step, and a serve of one that was stopped before is refused. */
  lemma TooLateCalls(r: Resources, acts: seq<Action>, e: Env)
    ensures var s := Run(Start(r), acts);
      s.phase == Finished ==> Run(Start(r), acts + [CallStop] + [Stop(|s.stoppers|, e)]).stoppers == s.stoppers + [StopReturned]
    ensures var s := Run(Start(r), acts);
      s.server == Idle && s.phase != New ==> Run(Start(r), acts + [CallServe]) == s.(server := Refused)
  {
    var s := Run(Start(r), acts);
    RunOn(Start(r), acts, CallStop);
    RunOn(Start(r), acts + [CallStop], Stop(|s.stoppers|, e));
    RunOn(Start(r), acts, CallServe);
    assert (s.stoppers + [Loading])[|s.stoppers| := StopReturned] == s.stoppers + [StopReturned];
  }

  lemma ControlMeans(s: State)
    requires Control(s)
    ensures s.cleanups <= 1 && s.ensembleStops <= 1 && s.opening <= 1
    ensures s.phase == Finished ==> s.cleanups == 1 && s.ensembleStops == 1
    ensures StopReturned in s.stoppers || s.finished ==> s.phase == Finished
  {
    if StopReturned in s.stoppers {
      var i :| 0 <= i < |s.stoppers| && s.stoppers[i] == StopReturned;
      assert StopperOk(s, i);
    }
  }

  /** In every run at most one provisioning job is in flight, and none once
      cleanup has begun. */
  lemma OpensAreSerialized(r: Resources, acts: seq<Action>)
    ensures var s := Run(Start(r), acts); s.opening <= 1 && (s.clean != NotCleaning ==> s.opening == 0 && s.job == NoJob)
  {
    EveryRunKeepsControl(r, acts);
    ControlMeans(Run(Start(r), acts));
  }

  /** Whatever the interleaving, cleanup is entered at most once, and a stop
      that returned did so after all of it but its last signal. */
  lemma CleanupIsEnteredOnce(r: Resources, acts: seq<Action>)
    ensures var s := Run(Start(r), acts);
      && s.cleanups <= 1 && s.ensembleStops <= 1
      && (s.phase == Finished ==> s.cleanups == 1 && s.ensembleStops == 1)
      && (StopReturned in s.stoppers || s.finished ==> s.phase == Finished)
  {
    EveryRunKeepsControl(r, acts);
    ControlMeans(Run(Start(r), acts));
  }
}
