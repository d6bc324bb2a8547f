/** The answers to opens. A Host that was answered was live, with that
    identity, at a moment when the daemon was Running, and is listed when the
    answer is given; and which opens are answered with a Host. */
module DaemonAnswers {
  import opened HostLedger
  import opened Options
  import opened Daemon
  import opened DaemonControl
  import opened DaemonTurns
  import opened DaemonStores
  import opened DaemonOpens

  /** The directory holds this Host under this identity. */
  predicate ListedAs(r: Resources, info: HostInfo) {
    info.name in r.hosts && InfoOf(r, r.hosts[info.name]) == info
  }

  predicate LiveAt(s: State, info: HostInfo) {
    s.phase == Running && ListedAs(s.r, info)
  }

  /** One step: what becomes due is live before or after it. */
  predicate DueStep(s: State, n: State) {
    Due(n.r, n.job).Some? ==>
      Due(n.r, n.job) == Due(s.r, s.job) || LiveAt(s, Due(n.r, n.job).value) || LiveAt(n, Due(n.r, n.job).value)
  }

  /** Work makes a Host due only by finding it in the directory. */
  lemma WorkDue(phase: Phase, r: Resources, j: Job, e: Env)
    requires Filed(r.stores, r.hosts)
    ensures var p := WorkOn(phase, r, j, e);
      Due(p.r, p.job).Some? ==> p == Progress(j, r) || (phase == Running && p.r == r && ListedAs(r, Due(p.r, p.job).value))
  {
    match j
    case Checking(q) =>
      if Due(r, CheckOpen(phase, r, q, e)).Some? {
        assert r.stores[r.hosts[Wanted(q).value]].name == Wanted(q).value;
      }
    case Provisioning(q, n) => assert Due(r, Provision(r, q, n, e).job).None?;
    case _ =>
  }

  /** Settling makes a Host due only by listing it. */
  lemma SettleDue(phase: Phase, r: Resources, j: Job)
    requires Held(j).Some? ==> Held(j).value < |r.stores|
    ensures var x := SettleJob(phase, r, j);
      Due(x.r, x.job).Some? ==> (x.job == j && x.r == r) || (phase == Running && ListedAs(x.r, Due(x.r, x.job).value))
  {
    match j
    case Ready(_, Prepared(h)) => assert InfoOf(SettleJob(phase, r, j).r, h) == InfoOf(r, h);
    case _ =>
  }

  lemma TurnDue(s: State, n: State)
    requires Turn(s, n) && HandlesOk(s.r, s.job, s.clean)
    ensures DueStep(s, n)
  {
    if e: Env :| WorkOn(s.phase, s.r, s.job, e) == Progress(n.job, n.r) {
      WorkDue(s.phase, s.r, s.job, e);
    }
    SettleDue(s.phase, s.r, s.job);
  }

  // ------------------------------------------------------------ whole runs

  ghost predicate WasLive(r: Resources, acts: seq<Action>, info: HostInfo) {
    exists k :: 0 <= k <= |acts| && LiveAt(Run(Start(r), acts[..k]), info)
  }

  lemma StaysWasLive(r: Resources, acts: seq<Action>, info: HostInfo)
    requires acts != [] && WasLive(r, acts[..|acts| - 1], info)
    ensures WasLive(r, acts, info)
  {
    var before := acts[..|acts| - 1];
    var k :| 0 <= k <= |before| && LiveAt(Run(Start(r), before[..k]), info);
    assert before[..k] == acts[..k];
  }

  lemma NowWasLive(r: Resources, acts: seq<Action>, info: HostInfo)
    requires LiveAt(Run(Start(r), acts), info)
    ensures WasLive(r, acts, info)
  {
    assert acts[..|acts|] == acts;
  }

  /** What is due and what was answered are Hosts of `known`. */
  ghost predicate Truthful(s: State, known: iset<HostInfo>) {
    && (Due(s.r, s.job).Some? ==> Due(s.r, s.job).value in known)
    && (forall i :: 0 <= i < |s.t.replies| && s.t.replies[i].info.Some? ==> s.t.replies[i].info.value in known)
  }

  ghost function Known(r: Resources, acts: seq<Action>): iset<HostInfo> {
    iset info | WasLive(r, acts, info)
  }

  lemma TruthGrows(s: State, n: State, known: iset<HostInfo>, known': iset<HostInfo>)
    requires Truthful(s, known) && DueStep(s, n) && AnswerStep(s, n) && known <= known'
    requires forall info :: LiveAt(s, info) || LiveAt(n, info) ==> info in known'
    ensures Truthful(n, known')
  {
    forall i | 0 <= i < |n.t.replies| && n.t.replies[i].info.Some? ensures n.t.replies[i].info.value in known' {
      if i < |s.t.replies| {
        assert n.t.replies[i] == s.t.replies[i];
        assert s.t.replies[i].info.value in known;
      }
    }
  }

  lemma KnownGrows(r: Resources, acts: seq<Action>)
    requires acts != []
    ensures Known(r, acts[..|acts| - 1]) <= Known(r, acts)
    ensures forall info :: LiveAt(Run(Start(r), acts[..|acts| - 1]), info) || LiveAt(Run(Start(r), acts), info) ==>
      info in Known(r, acts)
  {
    var before := acts[..|acts| - 1];
    forall info | info in Known(r, before) ensures info in Known(r, acts) {
      StaysWasLive(r, acts, info);
    }
    forall info | LiveAt(Run(Start(r), before), info) ensures info in Known(r, acts) {
      NowWasLive(r, before, info);
      StaysWasLive(r, acts, info);
    }
    forall info | LiveAt(Run(Start(r), acts), info) ensures info in Known(r, acts) {
      NowWasLive(r, acts, info);
    }
  }

  lemma {:induction false} EveryRunIsTruthful(r: Resources, acts: seq<Action>)
    requires HandedOver(r)
    ensures Truthful(Run(Start(r), acts), Known(r, acts))
  {
    if acts != [] {
      var before, last := acts[..|acts| - 1], acts[|acts| - 1];
      EveryRunIsTruthful(r, before);
      EveryRunKeepsAccounts(r, before);
      StepTurns(Run(Start(r), before), last);
      StepAnswers(Run(Start(r), before), last);
      TurnDue(Run(Start(r), before), Run(Start(r), acts));
      KnownGrows(r, acts);
      TruthGrows(Run(Start(r), before), Run(Start(r), acts), Known(r, before), Known(r, acts));
    }
  }

  /** In every run: a Host that an open was answered with was in the
      directory, under the answered identity, while the daemon was Running. */
  lemma AnsweredHostsWereLive(r: Resources, acts: seq<Action>, a: Reply)
    requires HandedOver(r) && a in Run(Start(r), acts).t.replies && a.info.Some?
    ensures WasLive(r, acts, a.info.value)
  {
    EveryRunIsTruthful(r, acts);
    var s := Run(Start(r), acts);
    var i :| 0 <= i < |s.t.replies| && s.t.replies[i] == a;
  }

  // ------------------------------------------------- listed when answered

  predicate DueListed(r: Resources, j: Job) {
    Due(r, j).Some? ==> ListedAs(r, Due(r, j).value)
  }

  lemma TurnKeepsDueListed(s: State, n: State)
    requires Turn(s, n) && HandlesOk(s.r, s.job, s.clean) && DueListed(s.r, s.job)
    ensures DueListed(n.r, n.job)
  {
    if e: Env :| WorkOn(s.phase, s.r, s.job, e) == Progress(n.job, n.r) {
      WorkDue(s.phase, s.r, s.job, e);
    }
    SettleDue(s.phase, s.r, s.job);
  }

  lemma {:induction false} EveryRunKeepsDueListed(r: Resources, acts: seq<Action>)
    requires HandedOver(r)
    ensures DueListed(Run(Start(r), acts).r, Run(Start(r), acts).job)
  {
    if acts != [] {
      var s := Run(Start(r), acts[..|acts| - 1]);
      EveryRunKeepsDueListed(r, acts[..|acts| - 1]);
      EveryRunKeepsAccounts(r, acts[..|acts| - 1]);
      StepTurns(s, acts[|acts| - 1]);
      TurnKeepsDueListed(s, Next(s, acts[|acts| - 1]));
    }
  }

  /** In every run, at the very step that answers an open with a Host, the
      directory holds that Host under that identity, before and after it. */
  lemma AnsweredHostsAreListed(r: Resources, acts: seq<Action>, a: Action)
    requires HandedOver(r)
    ensures var s := Run(Start(r), acts); var n := Run(Start(r), acts + [a]);
      |n.t.replies| > |s.t.replies| && n.t.replies[|s.t.replies|].info.Some? ==>
        var info := n.t.replies[|s.t.replies|].info.value;
        ListedAs(s.r, info) && ListedAs(n.r, info)
  {
    EveryRunKeepsControl(r, acts);
    EveryRunKeepsDueListed(r, acts);
    assert (acts + [a])[..|acts|] == acts;
    var s := Run(Start(r), acts);
    StepAnswers(s, a);
    if |Next(s, a).t.replies| > |s.t.replies| {
    }
  }

  // ------------------------------------------------- opens of listed names

  /** One more reply, and this one. */
  predicate Replied(s: State, n: State, q: Request, info: Option<HostInfo>) {
    n.t.replies == s.t.replies + [Reply(q, info)]
  }

  /** The Host of this name, under its identity on disk. */
  function HostOf(r: Resources, n: Name): HostInfo
    requires n in r.identities
  {
    HostInfo(n, r.identities[n])
  }

  lemma StopperLeavesJob(s: State, i: nat, e: Env)
    requires i < |s.stoppers| && StopperOk(s, i) && WinnerOk(s) && JobOk(s) && s.job != NoJob
    ensures StopperStep(s, i, e).job == s.job && StopperStep(s, i, e).r == s.r
  {
  }

  lemma ServerLeavesReady(s: State, e: Env)
    requires JobOk(s) && s.job.Ready? && !s.job.outcome.Prepared?
    ensures var n := ServerStep(s, e);
      || n.job == s.job
      || (n.job == NoJob && Replied(s, n, s.job.request,
            if s.job.outcome.Live? && s.phase == Running then Some(s.job.outcome.info) else None))
  {
    match s.server
    case Settling(joining) =>
    case Select =>
    case BeginShutdown | CloseQueue | DrainQueue | Joining => WindDownFrame(s);
    case BindTcp | Preparing(_, _) | BindUnix(_) | Publishing(_) => StartUpFrame(s, e);
    case ServerCleaning =>
    case LoopTop | Idle | Refused | ServerDone =>
  }

  /** A job that is over, without a Host of its own, waits to be answered. */
  lemma ReadyStays(s: State, a: Action)
    requires Control(s) && s.job.Ready? && !s.job.outcome.Prepared?
    ensures var n := Next(s, a);
      || n.job == s.job
      || (n.job == NoJob && Replied(s, n, s.job.request,
            if s.job.outcome.Live? && s.phase == Running then Some(s.job.outcome.info) else None))
  {
    match a
    case Serve(e) => ServerLeavesReady(s, e);
    case Stop(i, e) =>
      if i < |s.stoppers| {
        assert StopperOk(s, i);
        StopperLeavesJob(s, i, e);
      }
    case _ =>
  }

  /** The job goes on at every moment of the run `acts` from `s`. */
  ghost predicate JobLasts(s: State, acts: seq<Action>) {
    forall k :: 0 <= k <= |acts| ==> Run(s, acts[..k]).job != NoJob
  }

  lemma JobLastsBefore(s: State, acts: seq<Action>)
    requires JobLasts(s, acts) && acts != []
    ensures JobLasts(s, acts[..|acts| - 1]) && Run(s, acts).job != NoJob
  {
    assert acts[..|acts|] == acts;
    var front := acts[..|acts| - 1];
    forall k | 0 <= k <= |front| ensures Run(s, front[..k]).job != NoJob {
      assert front[..k] == acts[..k];
    }
  }

  lemma {:induction false} ReadyLasts(s: State, acts: seq<Action>)
    requires Control(s) && s.job.Ready? && !s.job.outcome.Prepared? && JobLasts(s, acts)
    ensures Run(s, acts).job == s.job
  {
    if acts != [] {
      JobLastsBefore(s, acts);
      ReadyLasts(s, acts[..|acts| - 1]);
      RunKeepsControl(s, acts[..|acts| - 1]);
      ReadyStays(Run(s, acts[..|acts| - 1]), acts[|acts| - 1]);
    }
  }

  /** What the check of a listed name finds. */
  lemma ListedIsFound(s: State, e: Env, n: Name)
    requires Filed(s.r.stores, s.r.hosts) && Identified(s.r.stores, s.r.identities)
    requires s.job.Checking? && Wanted(s.job.request) == Some(n) && n in s.r.hosts
    ensures n in s.r.identities
    ensures var q := s.job.request; var p := WorkStep(s, e);
      p.job == Ready(q,
        if s.phase == Running && (if q.Reopen? then s.r.identities[n] == q.expected else e.ok)
        then Live(HostOf(s.r, n)) else Failed)
  {
    assert s.r.stores[s.r.hosts[n]].name == n;
  }

  /** An open of a name that the directory holds: `s` is where the job checks
      the name, and `t` the last moment of the job. */
  ghost predicate ListedOpen(r: Resources, acts: seq<Action>, e: Env, during: seq<Action>, n: Name) {
    var s := Run(Start(r), acts);
    && s.job.Checking? && Wanted(s.job.request) == Some(n) && n in s.r.hosts
    && JobLasts(Next(s, Work(e)), during)
  }

  /** Whether a listed Host suits the request. */
  predicate Suits(s: State, q: Request, n: Name, e: Env) {
    if q.Reopen? then n in s.r.identities && s.r.identities[n] == q.expected else e.ok
  }

  lemma ReadyIsAnswered(w: State, during: seq<Action>, a: Action)
    requires Control(w) && w.job.Ready? && !w.job.outcome.Prepared? && JobLasts(w, during)
    ensures var t := Run(w, during);
      Next(t, a).job == NoJob ==>
        Replied(t, Next(t, a), w.job.request,
          if w.job.outcome.Live? && t.phase == Running then Some(w.job.outcome.info) else None)
  {
    ReadyLasts(w, during);
    RunKeepsControl(w, during);
    ReadyStays(Run(w, during), a);
  }

  lemma ListedIsAnswered(s: State, e: Env, during: seq<Action>, a: Action, n: Name)
    requires Control(s) && Filed(s.r.stores, s.r.hosts) && Identified(s.r.stores, s.r.identities)
    requires s.job.Checking? && Wanted(s.job.request) == Some(n) && n in s.r.hosts
    requires JobLasts(Next(s, Work(e)), during)
    ensures n in s.r.identities
    ensures var t := Run(Next(s, Work(e)), during); var q := s.job.request;
      Next(t, a).job == NoJob ==>
        Replied(t, Next(t, a), q,
          if s.phase == Running && t.phase == Running && Suits(s, q, n, e) then Some(HostOf(s.r, n)) else None)
  {
    ListedIsFound(s, e, n);
    StepKeepsControl(s, Work(e));
    ReadyIsAnswered(Next(s, Work(e)), during, a);
  }

  /** In every run, an open of a name that the directory holds is answered when
      its job ends: with the Host of that name and its identity, exactly if the
      daemon is Running then as it was at the check and, for a reopen, that
      identity is the one expected, or, for a create, its change of the Host
      went well. */
  lemma ListedOpenIsAnswered(r: Resources, acts: seq<Action>, e: Env, during: seq<Action>, a: Action, n: Name)
    requires HandedOver(r) && ListedOpen(r, acts, e, during, n)
    requires Run(Start(r), acts + [Work(e)] + during + [a]).job == NoJob
    ensures n in Run(Start(r), acts).r.identities
    ensures var s := Run(Start(r), acts); var q := s.job.request;
      var t := Run(Start(r), acts + [Work(e)] + during);
      Replied(t, Run(Start(r), acts + [Work(e)] + during + [a]), q,
        if s.phase == Running && t.phase == Running && Suits(s, q, n, e) then Some(HostOf(s.r, n)) else None)
  {
    EveryRunKeepsAccounts(r, acts);
    EveryRunIsHonest(r, acts);
    RunOn(Start(r), acts, Work(e));
    RunConcat(Start(r), acts + [Work(e)], during);
    RunOn(Start(r), acts + [Work(e)] + during, a);
    ListedIsAnswered(Run(Start(r), acts), e, during, a, n);
  }

  // ------------------------------------------------------ opens that list

  lemma ServerLeavesAnnouncing(s: State, e: Env)
    requires JobOk(s) && s.job.Announcing?
    ensures var n := ServerStep(s, e);
      n.job == NoJob && Replied(s, n, s.job.request, Some(InfoOf(s.r, s.job.handle))) && s.job.handle in n.r.published
  {
  }

  /** A job that listed its Host waits to announce it. */
  lemma AnnouncingStays(s: State, a: Action)
    requires Control(s) && s.job.Announcing?
    ensures var n := Next(s, a);
      || (n.job == s.job && n.r.stores == s.r.stores)
      || (n.job == NoJob && Replied(s, n, s.job.request, Some(InfoOf(s.r, s.job.handle))) && s.job.handle in n.r.published)
  {
    match a
    case Serve(e) => ServerLeavesAnnouncing(s, e);
    case Stop(i, e) =>
      if i < |s.stoppers| {
        assert StopperOk(s, i);
        StopperLeavesJob(s, i, e);
      }
    case _ =>
  }

  lemma {:induction false} AnnouncingLasts(s: State, acts: seq<Action>)
    requires Control(s) && s.job.Announcing? && JobLasts(s, acts)
    ensures Run(s, acts).job == s.job && Run(s, acts).r.stores == s.r.stores
  {
    if acts != [] {
      JobLastsBefore(s, acts);
      AnnouncingLasts(s, acts[..|acts| - 1]);
      RunKeepsControl(s, acts[..|acts| - 1]);
      AnnouncingStays(Run(s, acts[..|acts| - 1]), acts[|acts| - 1]);
    }
  }

  /** The step that lists a name does so for the job that announces it next. */
  lemma ListingAnnounces(s: State, a: Action, n: Name)
    requires Control(s) && Accounts(s.r, s.job, s.clean) && JobHonest(s.r, s.job)
    requires n !in s.r.hosts && n in Next(s, a).r.hosts
    ensures s.job.Ready? && n in s.r.identities && InfoOf(s.r, Next(s, a).r.hosts[n]) == HostOf(s.r, n)
    ensures Next(s, a).job == Announcing(s.job.request, Next(s, a).r.hosts[n]) && Next(s, a).r.stores == s.r.stores
  {
    StepTurns(s, a);
    TurnOnTheDirectory(s, Next(s, a));
    var h := s.job.outcome.slot;
    assert Claim(s.r, s.job) == Some(InfoOf(s.r, h));
    TurnLists(s, Next(s, a));
  }

  lemma TurnLists(s: State, n: State)
    requires Turn(s, n) && s.job.Ready? && s.job.outcome.Prepared? && n.job.Announcing?
    ensures n.job == Announcing(s.job.request, s.job.outcome.slot) && n.r.stores == s.r.stores
  {
    if e: Env :| WorkOn(s.phase, s.r, s.job, e) == Progress(n.job, n.r) {
    }
  }

  /** In every run, an open that lists a Host is answered with it when its job
      ends, under the identity on disk, and the Host is published by then. */
  lemma ListingOpenIsAnswered(r: Resources, acts: seq<Action>, b: Action, during: seq<Action>, a: Action, n: Name)
    requires HandedOver(r)
    requires n !in Run(Start(r), acts).r.hosts && n in Run(Start(r), acts + [b]).r.hosts
    requires JobLasts(Run(Start(r), acts + [b]), during)
    requires Run(Start(r), acts + [b] + during + [a]).job == NoJob
    ensures var s := Run(Start(r), acts); s.job != NoJob && n in s.r.identities
    ensures var s := Run(Start(r), acts);
      var u := Run(Start(r), acts + [b] + during + [a]);
      && Replied(Run(Start(r), acts + [b] + during), u, s.job.request, Some(HostOf(s.r, n)))
      && Run(Start(r), acts + [b]).r.hosts[n] in u.r.published
  {
    var s := Run(Start(r), acts);
    EveryRunKeepsAccounts(r, acts);
    EveryRunIsHonest(r, acts);
    RunOn(Start(r), acts, b);
    RunConcat(Start(r), acts + [b], during);
    RunOn(Start(r), acts + [b] + during, a);
    ListingAnnounces(s, b, n);
    StepKeepsControl(s, b);
    AnnouncingLasts(Next(s, b), during);
    RunKeepsControl(Next(s, b), during);
    AnnouncingStays(Run(Next(s, b), during), a);
  }

  // ------------------------------------------------------- opens that fail

  /** The job has failed, or is giving back what it had. */
  predicate Failing(j: Job) {
    j.StopFailed? || j.CloseFailed? || (j.Ready? && j.outcome == Failed)
  }

  /** A job that works towards a Host of its own. */
  predicate Building(j: Job) {
    j.Provisioning? || j.Opened? || j.Attached? || j.Composed?
  }

  lemma TroubleFails(s: State, e: Env)
    requires Building(s.job) && !e.ok
    ensures Failing(WorkStep(s, e).job) && WorkStep(s, e).job.request == s.job.request
  {
  }

  lemma ServerLeavesFailing(s: State, e: Env)
    requires JobOk(s) && Failing(s.job)
    ensures var n := ServerStep(s, e);
      || n.job == s.job
      || (n.job == NoJob && Replied(s, n, s.job.request, None) && n.r.hosts == s.r.hosts)
  {
    match s.server
    case Settling(joining) =>
    case Select =>
    case BeginShutdown | CloseQueue | DrainQueue | Joining => WindDownFrame(s);
    case BindTcp | Preparing(_, _) | BindUnix(_) | Publishing(_) => StartUpFrame(s, e);
    case ServerCleaning =>
    case LoopTop | Idle | Refused | ServerDone =>
  }

  lemma FailingStays(s: State, a: Action)
    requires Control(s) && Failing(s.job)
    ensures var n := Next(s, a);
      || (Failing(n.job) && n.job.request == s.job.request)
      || (n.job == NoJob && Replied(s, n, s.job.request, None) && n.r.hosts == s.r.hosts)
  {
    match a
    case Serve(e) => ServerLeavesFailing(s, e);
    case Work(e) =>
    case Stop(i, e) =>
      if i < |s.stoppers| {
        assert StopperOk(s, i);
        StopperLeavesJob(s, i, e);
      }
    case _ =>
  }

  lemma {:induction false} FailingLasts(s: State, acts: seq<Action>)
    requires Control(s) && Failing(s.job) && JobLasts(s, acts)
    ensures Failing(Run(s, acts).job) && Run(s, acts).job.request == s.job.request
  {
    if acts != [] {
      JobLastsBefore(s, acts);
      FailingLasts(s, acts[..|acts| - 1]);
      RunKeepsControl(s, acts[..|acts| - 1]);
      FailingStays(Run(s, acts[..|acts| - 1]), acts[|acts| - 1]);
    }
  }

  /** In every run, an open one step of which went wrong is refused when its
      job ends, and lists nothing. */
  lemma FailedOpenIsRefused(r: Resources, acts: seq<Action>, e: Env, during: seq<Action>, a: Action)
    requires Building(Run(Start(r), acts).job) && !e.ok
    requires JobLasts(Next(Run(Start(r), acts), Work(e)), during)
    requires Run(Start(r), acts + [Work(e)] + during + [a]).job == NoJob
    ensures var t := Run(Start(r), acts + [Work(e)] + during); var u := Run(Start(r), acts + [Work(e)] + during + [a]);
      Replied(t, u, Run(Start(r), acts).job.request, None) && u.r.hosts == t.r.hosts
  {
    var s := Run(Start(r), acts);
    EveryRunKeepsControl(r, acts);
    RunOn(Start(r), acts, Work(e));
    RunConcat(Start(r), acts + [Work(e)], during);
    RunOn(Start(r), acts + [Work(e)] + during, a);
    TroubleFails(s, e);
    StepKeepsControl(s, Work(e));
    FailingLasts(Next(s, Work(e)), during);
    RunKeepsControl(Next(s, Work(e)), during);
    FailingStays(Run(Next(s, Work(e)), during), a);
  }

  // -------------------------------------------------------- who is refused

  /** Why a step may answer a request: its caller gives up, or finds the queue
      closed; it is in the queue that the shutdown empties; or its job ends. */
  predicate Concerns(s: State, a: Action, q: Request) {
    || (a.Abandon? && a.caller < |s.t.asking| && s.t.asking[a.caller] == q)
    || (a.Enqueue? && a.caller < |s.t.asking| && s.t.asking[a.caller] == q && s.t.closed)
    || (a.Serve? && s.server == DrainQueue && s.t.queue != [] && s.t.queue[0] == q)
    || (a.Serve? && s.server.Settling? && s.job != NoJob && s.job.request == q)
  }

  lemma ServerConcerns(s: State, e: Env)
    requires JobOk(s)
    ensures var n := ServerStep(s, e);
      n.t.replies == s.t.replies || exists q, info :: Replied(s, n, q, info) && Concerns(s, Serve(e), q)
  {
    match s.server
    case Settling(joining) =>
      var n := Settle(s, joining);
      if n.t.replies != s.t.replies {
        assert Replied(s, n, s.job.request, SettleJob(s.phase, s.r, s.job).answer.value);
      }
    case DrainQueue =>
      if s.t.queue != [] {
        assert Replied(s, WindDown(s), s.t.queue[0], None);
      }
    case BeginShutdown | CloseQueue | Joining =>
    case BindTcp | Preparing(_, _) | BindUnix(_) | Publishing(_) => StartUpFrame(s, e);
    case Select => assert Wait(s, e.event).t.replies == s.t.replies;
    case ServerCleaning =>
    case LoopTop | Idle | Refused | ServerDone =>
  }

  lemma StepConcerns(s: State, a: Action)
    requires Control(s)
    ensures var n := Next(s, a);
      n.t.replies == s.t.replies || exists q, info :: Replied(s, n, q, info) && Concerns(s, a, q)
  {
    match a
    case Serve(e) => ServerConcerns(s, e);
    case Work(_) =>
    case Stop(i, e) =>
      if i < |s.stoppers| {
        assert StopperOk(s, i);
        StopperTurns(s, i, e);
      }
    case Enqueue(k) =>
      if k < |s.t.asking| && s.t.closed {
        assert Replied(s, Next(s, a), s.t.asking[k], None);
      }
    case Abandon(k) =>
      if k < |s.t.asking| {
        assert Replied(s, Next(s, a), s.t.asking[k], None);
      }
    case _ =>
  }

  /** In every run: nobody is answered but for one of these causes. Who gives
      up is out of the way; who waits for the queue enters it as soon as there
      is room, at its end, and is turned away only once it is closed. */
  lemma CallersAreServed(r: Resources, acts: seq<Action>, a: Action, k: nat)
    ensures var s := Run(Start(r), acts); var n := Run(Start(r), acts + [a]);
      n.t.replies == s.t.replies || exists q, info :: Replied(s, n, q, info) && Concerns(s, a, q)
    ensures var s := Run(Start(r), acts); var n := Run(Start(r), acts + [Abandon(k)]);
      k < |s.t.asking| ==> Replied(s, n, s.t.asking[k], None) && multiset(n.t.asking) == multiset(s.t.asking) - multiset{s.t.asking[k]}
    ensures var s := Run(Start(r), acts); var n := Run(Start(r), acts + [Enqueue(k)]);
      k < |s.t.asking| ==>
        if s.t.closed then Replied(s, n, s.t.asking[k], None)
        else if |s.t.queue| < OPEN_QUEUE_CAPACITY then n.t.queue == s.t.queue + [s.t.asking[k]] && n.t.replies == s.t.replies
        else n == s
  {
    var s := Run(Start(r), acts);
    EveryRunKeepsControl(r, acts);
    RunOn(Start(r), acts, a);
    RunOn(Start(r), acts, Abandon(k));
    RunOn(Start(r), acts, Enqueue(k));
    StepConcerns(s, a);
    if k < |s.t.asking| {
      OneFewer(s.t.asking, k);
    }
  }

  lemma OneFewer(xs: seq<Request>, k: nat)
    requires k < |xs|
    ensures multiset(Without(xs, k)) == multiset(xs) - multiset{xs[k]}
  {
    assert xs == xs[..k] + [xs[k]] + xs[k + 1..];
  }
}
