/** What one step of any task can do to the stores, the directory, the job and
    the answers, whichever task takes it. */
module DaemonTurns {
  import opened Options
  import opened Daemon
  import opened DaemonControl

  /** Only the marks of recovery and publication may differ. */
  predicate SameUpToMarks(r: Resources, r': Resources) {
    r' == r.(published := r'.published, recovered := r'.recovered)
  }

  /** Cleanup is where it was, or begins while there is no job. */
  predicate CleanupBegins(s: State, n: State) {
    n.clean == s.clean || (s.clean == NotCleaning && n.clean == Taking && s.job == NoJob)
  }

  /** Nothing but perhaps the begin of cleanup, a job spawned, a step of the
      job, a step of settling it, or a step of cleanup. */
  ghost predicate Turn(s: State, n: State) {
    || (n.job == s.job && SameUpToMarks(s.r, n.r) && CleanupBegins(s, n))
    || (s.job == NoJob && n.job.Checking? && n.r == s.r && n.clean == s.clean)
    || (n.clean == s.clean && exists e: Env :: WorkOn(s.phase, s.r, s.job, e) == Progress(n.job, n.r))
    || (s.job != NoJob && n.phase == s.phase && n.clean == s.clean
        && n.job == SettleJob(s.phase, s.r, s.job).job && n.r == SettleJob(s.phase, s.r, s.job).r)
    || (s.job == NoJob && n.job == NoJob && exists e: Env :: CleanOn(s.clean, s.r, e) == Cleaning(n.clean, n.r))
  }

  lemma StartUpFrame(s: State, e: Env)
    ensures var n := StartUp(s, e); n.job == s.job && n.t == s.t && SameUpToMarks(s.r, n.r)
    ensures StartUp(s, e).clean == s.clean || (s.server == BindTcp && StartUp(s, e).clean == Taking)
  {
  }

  lemma WindDownFrame(s: State)
    ensures WindDown(s).r == s.r && WindDown(s).job == s.job
    ensures WindDown(s).clean == s.clean || (s.server == Joining && s.opening == 0 && WindDown(s).clean == Taking)
  {
  }

  lemma ServerTurns(s: State, e: Env)
    requires JobOk(s) && WinnerOk(s)
    ensures Turn(s, ServerStep(s, e))
  {
    match s.server
    case BindTcp | Preparing(_, _) | BindUnix(_) | Publishing(_) => StartUpFrame(s, e);
    case BeginShutdown | CloseQueue | DrainQueue | Joining => WindDownFrame(s);
    case ServerCleaning =>
    case Settling(_) =>
    case Select =>
    case LoopTop | Idle | Refused | ServerDone =>
  }

  lemma StopperTurns(s: State, i: nat, e: Env)
    requires i < |s.stoppers| && StopperOk(s, i) && WinnerOk(s) && JobOk(s)
    ensures Turn(s, StopperStep(s, i, e)) && StopperStep(s, i, e).t == s.t
  {
    if s.stoppers[i] == StopperCleaning {
    }
  }

  lemma StepTurns(s: State, a: Action)
    requires Control(s)
    ensures Turn(s, Next(s, a))
  {
    match a
    case Serve(e) => ServerTurns(s, e);
    case Work(e) => assert WorkOn(s.phase, s.r, s.job, e) == Progress(Next(s, a).job, Next(s, a).r);
    case Stop(i, e) =>
      if i < |s.stoppers| {
        assert StopperOk(s, i);
        StopperTurns(s, i, e);
      }
    case _ => CallFrame(s, a);
  }

  // ------------------------------------------------------------ the answers

  /** The Host with which the job is about to be answered. */
  function Due(r: Resources, j: Job): Option<HostInfo> {
    match j
    case Ready(_, Live(info)) => Some(info)
    case Announcing(_, h) => Some(InfoOf(r, h))
    case _ => None
  }

  /** A Host is answered only to the job's request, only if it is due, and with
      the directory left as it is. */
  predicate AnswersDue(s: State, n: State, a: Reply) {
    a.info.Some? ==>
      && s.job != NoJob && a.request == s.job.request && a.info == Due(s.r, s.job)
      && n.r.hosts == s.r.hosts && n.r.stores == s.r.stores
  }

  /** One step: at most one more answer, and a Host only if it was due. */
  predicate AnswerStep(s: State, n: State) {
    || n.t.replies == s.t.replies
    || (|n.t.replies| == |s.t.replies| + 1 && n.t.replies[..|s.t.replies|] == s.t.replies
        && AnswersDue(s, n, n.t.replies[|s.t.replies|]))
  }

  lemma SettleAnswers(s: State, joining: bool)
    requires s.job != NoJob
    ensures AnswerStep(s, Settle(s, joining))
  {
    match s.job
    case Ready(_, _) =>
    case Announcing(_, _) =>
    case RollingStop(_, _) =>
    case RollingClose(_, _) =>
    case _ =>
  }

  lemma ServerAnswers(s: State, e: Env)
    requires JobOk(s)
    ensures AnswerStep(s, ServerStep(s, e))
  {
    match s.server
    case Settling(joining) => SettleAnswers(s, joining);
    case BeginShutdown | CloseQueue | DrainQueue | Joining =>
    case BindTcp | Preparing(_, _) | BindUnix(_) | Publishing(_) => StartUpFrame(s, e);
    case Select => assert Wait(s, e.event).t.replies == s.t.replies;
    case ServerCleaning =>
    case LoopTop | Idle | Refused | ServerDone =>
  }

  lemma StepAnswers(s: State, a: Action)
    requires Control(s)
    ensures AnswerStep(s, Next(s, a))
  {
    match a
    case Serve(e) => ServerAnswers(s, e);
    case Work(e) =>
    case Stop(i, e) =>
      if i < |s.stoppers| {
        assert StopperOk(s, i);
        StopperTurns(s, i, e);
      }
    case _ =>
  }
}
