/** What the daemon is for: from where nothing prevents it, a start reaches
    Running and an open is answered with its Host. */
module DaemonProgress {
  import opened HostLedger
  import opened Options
  import opened Daemon
  import opened DaemonControl
  import opened DaemonTurns
  import opened DaemonStores
  import opened DaemonTraffic

  // ------------------------------------------------------------ some run

  /** Some run leads from one state to the other. */
  ghost predicate Leads(s: State, n: State) {
    exists acts :: Run(s, acts) == n
  }

  lemma Stays(s: State)
    ensures Leads(s, s)
  {
    assert Run(s, []) == s;
  }

  lemma OneStep(s: State, a: Action)
    ensures Leads(s, Next(s, a))
  {
    RunOn(s, [], a);
    assert [] + [a] == [a];
    assert Run(s, [a]) == Next(s, a);
  }

  lemma Onwards(s: State, m: State, n: State)
    requires Leads(s, m) && Leads(m, n)
    ensures Leads(s, n)
  {
    var a, b :| Run(s, a) == m && Run(m, b) == n;
    RunConcat(s, a, b);
  }

  lemma StepOnwards(s: State, m: State, a: Action, n: State)
    requires Leads(s, m) && n == Next(m, a)
    ensures Leads(s, n)
  {
    OneStep(m, a);
    Onwards(s, m, n);
  }

  function Fine(pick: Handle, generated: Option<Name>, minted: Peer, event: Event): Env {
    Env(true, true, pick, generated, minted, event)
  }

  // ---------------------------------------------------------- a whole open

  /** The serving task is in its loop and has no open in work. */
  predicate Free(s: State) {
    s.phase == Running && (s.server == LoopTop || s.server == Select) && s.job == NoJob && s.opening == 0
  }

  /** A Host of this name can be opened for the request: it is not listed,
      there is room, and the identity on disk is the one expected or, for a
      create, there or allowed to be made. */
  predicate Openable(r: Resources, q: Request, n: Name) {
    && n !in r.hosts && |r.hosts| < MAX_LOCAL_HOSTS
    && match q
       case Create(_, id) => (id.Some? ==> id.value == n) && (n in r.identities || r.bootstrap)
       case Reopen(_, host, expected) => host == n && n in r.identities && r.identities[n] == expected
  }

  /** The identity under which the Host is opened. */
  function IdentityFor(r: Resources, n: Name, minted: Peer): Peer {
    if n in r.identities then r.identities[n] else minted
  }

  function Kept(r: Resources, n: Name, minted: Peer): map<Name, Peer> {
    if n in r.identities then r.identities else r.identities[n := minted]
  }

  /** The resources with a recovered Host of this name, not yet listed. */
  function WithStore(r: Resources, n: Name, minted: Peer): Resources {
    var bare := OpenStore(r.(identities := Kept(r, n, minted)), n, IdentityFor(r, n, minted));
    RecoverAt(ComposeAt(bare, |r.stores|), |r.stores|)
  }

  function AtWork(s: State, j: Job, r: Resources): State {
    s.(job := j, r := r)
  }

  lemma WorkLeads(s: State, e: Env, p: Progress)
    requires p == WorkOn(s.phase, s.r, s.job, e)
    ensures Leads(s, AtWork(s, p.job, p.r))
  {
    OneStep(s, Work(e));
  }

  /** From the check of the name to the opened store. */
  lemma WorkOpens(s: State, n: Name, minted: Peer)
    requires s.job.Checking? && s.phase == Running && Openable(s.r, s.job.request, n)
    ensures Leads(s, AtWork(s, Opened(s.job.request, |s.r.stores|),
      OpenStore(s.r.(identities := Kept(s.r, n, minted)), n, IdentityFor(s.r, n, minted))))
  {
    var q, e := s.job.request, Fine(0, Some(n), minted, Woken);
    var one := AtWork(s, Provisioning(q, n), s.r);
    WorkLeads(s, e, Progress(Provisioning(q, n), s.r));
    var r' := OpenStore(s.r.(identities := Kept(s.r, n, minted)), n, IdentityFor(s.r, n, minted));
    assert q.Reopen? ==> s.r.(identities := s.r.identities) == s.r;
    WorkLeads(one, e, Progress(Opened(q, |s.r.stores|), r'));
    Onwards(s, one, AtWork(s, Opened(q, |s.r.stores|), r'));
  }

  /** From the opened store to a Host ready to be listed. */
  lemma WorkPrepares(s: State)
    requires s.job.Opened?
    ensures Leads(s, AtWork(s, Ready(s.job.request, Prepared(s.job.handle)),
      RecoverAt(ComposeAt(s.r, s.job.handle), s.job.handle)))
  {
    var q, h, e := s.job.request, s.job.handle, Fine(0, None, 0, Woken);
    var one, two := AtWork(s, Attached(q, h), s.r), AtWork(s, Composed(q, h), ComposeAt(s.r, h));
    var three := AtWork(s, Ready(q, Prepared(h)), RecoverAt(ComposeAt(s.r, h), h));
    WorkLeads(s, e, Progress(Attached(q, h), s.r));
    WorkLeads(one, e, Progress(two.job, two.r));
    WorkLeads(two, e, Progress(three.job, three.r));
    Onwards(s, one, two);
    Onwards(s, two, three);
  }

  lemma ToSelect(s: State)
    requires s.phase == Running && (s.server == LoopTop || s.server == Select)
    ensures Leads(s, s.(server := Select))
  {
    if s.server == LoopTop {
      OneStep(s, Serve(Fine(0, None, 0, Woken)));
    } else {
      Stays(s);
      assert s == s.(server := Select);
    }
  }

  /** The state in which the first request of the queue is in work. */
  function Begun(s: State): State
    requires s.t.queue != []
  {
    s.(server := LoopTop, job := Checking(s.t.queue[0]), opening := 1, t := s.t.(queue := s.t.queue[1..]))
  }

  lemma Begins(s: State)
    requires Free(s) && s.t.queue != []
    ensures Leads(s, Begun(s))
  {
    ToSelect(s);
    StepOnwards(s, s.(server := Select), Serve(Fine(0, None, 0, Received)), Begun(s));
  }

  /** A job that is over comes to be settled. */
  lemma ComesToSettle(s: State)
    requires s.phase == Running && s.server == LoopTop && s.opening == 1 && s.job.Ready?
    ensures Leads(s, s.(server := Settling(false), opening := 0))
  {
    ToSelect(s);
    StepOnwards(s, s.(server := Select), Serve(Fine(0, None, 0, Joined)), s.(server := Settling(false), opening := 0));
  }

  /** The state after a prepared Host was listed, published and answered. */
  function Served(s: State): State
    requires s.job.Ready? && s.job.outcome.Prepared?
  {
    var q, h := s.job.request, s.job.outcome.slot;
    var info := InfoOf(s.r, h);
    s.(server := LoopTop, job := NoJob, opening := 0,
       r := s.r.(hosts := s.r.hosts[info.name := h], published := s.r.published + {h}),
       t := s.t.(replies := s.t.replies + [Reply(q, Some(info))]))
  }

  lemma ServesPrepared(s: State)
    requires s.phase == Running && s.server == LoopTop && s.opening == 1 && s.job.Ready? && s.job.outcome.Prepared?
    ensures Leads(s, Served(s))
  {
    var q, h, e := s.job.request, s.job.outcome.slot, Fine(0, None, 0, Woken);
    var one := s.(server := Settling(false), opening := 0);
    ComesToSettle(s);
    var two := one.(job := Announcing(q, h), r := s.r.(hosts := s.r.hosts[InfoOf(s.r, h).name := h]));
    StepOnwards(s, one, Serve(e), two);
    StepOnwards(s, two, Serve(e), Served(s));
  }

  /** From `s` to `t` the Host of name `n` was opened for `q`: listed,
      published, and answered with. */
  predicate OpenedFor(s: State, t: State, q: Request, n: Name, minted: Peer) {
    && t.r.hosts == s.r.hosts[n := |s.r.stores|] && |s.r.stores| in t.r.published
    && t.r.identities == Kept(s.r, n, minted)
    && t.t.replies == s.t.replies + [Reply(q, Some(HostInfo(n, IdentityFor(s.r, n, minted))))]
  }

  lemma HeadOpens(s: State, n: Name, minted: Peer) returns (t: State)
    requires Free(s) && s.t.queue != [] && Openable(s.r, s.t.queue[0], n)
    ensures Leads(s, t) && Free(t) && OpenedFor(s, t, s.t.queue[0], n, minted)
  {
    var q, h, one := s.t.queue[0], |s.r.stores|, Begun(s);
    Begins(s);
    WorkOpens(one, n, minted);
    var two := AtWork(one, Opened(q, h),
      OpenStore(s.r.(identities := Kept(s.r, n, minted)), n, IdentityFor(s.r, n, minted)));
    WorkPrepares(two);
    var three := AtWork(one, Ready(q, Prepared(h)), WithStore(s.r, n, minted));
    Onwards(s, one, two);
    Onwards(s, two, three);
    t := Served(three);
    ServesPrepared(three);
    Onwards(s, three, t);
    assert InfoOf(three.r, h) == HostInfo(n, IdentityFor(s.r, n, minted));
  }

  // -------------------------------------------------- others in the queue

  /** The state after the first request of the queue was answered so, with
      nothing else done. */
  function Dismissed(s: State, info: Option<HostInfo>): State
    requires s.t.queue != []
  {
    s.(server := LoopTop, t := s.t.(queue := s.t.queue[1..], replies := s.t.replies + [Reply(s.t.queue[0], info)]))
  }

  /** The job can come to its end without a Host of its own. */
  lemma WorkGivesUp(s: State) returns (o: Outcome)
    requires s.job.Checking?
    ensures !o.Prepared? && Leads(s, AtWork(s, Ready(s.job.request, o), s.r))
  {
    var q, e := s.job.request, Env(false, false, 0, None, 0, Woken);
    var j := CheckOpen(s.phase, s.r, q, e);
    WorkLeads(s, e, Progress(j, s.r));
    if j.Ready? {
      o := j.outcome;
    } else {
      o := Failed;
      var one := AtWork(s, j, s.r);
      WorkLeads(one, e, Progress(Ready(q, Failed), s.r));
      Onwards(s, one, AtWork(s, Ready(q, Failed), s.r));
    }
  }

  /** A job without a Host of its own is settled by its answer. */
  lemma Dismisses(s: State, q: Request, o: Outcome) returns (info: Option<HostInfo>)
    requires s.server == Settling(false) && s.phase == Running && s.job == Ready(q, o) && !o.Prepared?
    ensures Leads(s, s.(server := LoopTop, job := NoJob, t := s.t.(replies := s.t.replies + [Reply(q, info)])))
  {
    info := if o.Live? then Some(o.info) else None;
    OneStep(s, Serve(Fine(0, None, 0, Woken)));
  }

  lemma HeadLeaves(s: State) returns (info: Option<HostInfo>)
    requires Free(s) && s.t.queue != []
    ensures Leads(s, Dismissed(s, info))
  {
    var q, one := s.t.queue[0], Begun(s);
    Begins(s);
    var o := WorkGivesUp(one);
    var two := AtWork(one, Ready(q, o), s.r);
    Onwards(s, one, two);
    ComesToSettle(two);
    var three := two.(server := Settling(false), opening := 0);
    Onwards(s, two, three);
    info := Dismisses(three, q, o);
    Onwards(s, three, Dismissed(s, info));
  }

  /** Only the first `k` requests of the queue have been answered. */
  predicate Advanced(s: State, t: State, k: nat)
    requires k <= |s.t.queue|
  {
    && t == s.(server := t.server, t := s.t.(queue := s.t.queue[k..], replies := t.t.replies))
    && |t.t.replies| == |s.t.replies| + k && t.t.replies[..|s.t.replies|] == s.t.replies
  }

  lemma {:induction false} QueueAdvances(s: State, k: nat) returns (t: State)
    requires Free(s) && k <= |s.t.queue|
    ensures Leads(s, t) && Free(t) && Advanced(s, t, k)
  {
    if k == 0 {
      t := s;
      Stays(s);
    } else {
      var m := QueueAdvances(s, k - 1);
      var info := HeadLeaves(m);
      t := Dismissed(m, info);
      Onwards(s, m, t);
      assert m.t.queue[1..] == s.t.queue[k..];
    }
  }

  // ------------------------------------------------------ opens in any run

  /** A run from `s` that ends by answering `q` with the Host of name `n`,
      which the directory holds then, under the identity on disk. */
  ghost predicate Answers(s: State, more: seq<Action>, q: Request, n: Name) {
    var t := Run(s, more);
    && |t.t.replies| > |s.t.replies| && n in t.r.hosts && n in t.r.identities
    && t.t.replies[|t.t.replies| - 1] == Reply(q, Some(HostInfo(n, t.r.identities[n])))
  }

  lemma QueuedOpens(s: State, k: nat, n: Name, minted: Peer) returns (more: seq<Action>)
    requires Free(s) && k < |s.t.queue| && Openable(s.r, s.t.queue[k], n)
    ensures Answers(s, more, s.t.queue[k], n)
  {
    var m := QueueAdvances(s, k);
    assert m.t.queue[0] == s.t.queue[k];
    var t := HeadOpens(m, n, minted);
    Onwards(s, m, t);
    more :| Run(s, more) == t;
  }

  /** The serving task has left its loop, for good. */
  predicate Leaving(p: Server) {
    || p == BeginShutdown || p == CloseQueue || p == DrainQueue || p == Joining || p == Settling(true)
    || p == ServerCleaning || p == ServerDone
  }

  lemma ServerStaysLeaving(s: State, e: Env)
    requires JobOk(s) && Leaving(s.server)
    ensures var n := ServerStep(s, e);
      && Leaving(n.server) && (s.job == NoJob ==> n.job == NoJob)
      && (s.phase != Running ==> n.phase != Running)
  {
    match s.server
    case BeginShutdown | CloseQueue | DrainQueue | Joining =>
    case Settling(joining) =>
    case ServerCleaning =>
    case _ =>
  }

  lemma StopperStaysLeaving(s: State, i: nat, e: Env)
    requires i < |s.stoppers| && StopperOk(s, i) && WinnerOk(s) && Leaving(s.server)
    ensures var n := StopperStep(s, i, e);
      n.server == s.server && n.job == s.job && (s.phase != Running ==> n.phase != Running)
  {
  }

  lemma CallStaysLeaving(s: State, a: Action)
    requires Leaving(s.server)
    ensures var n := CallStep(s, a); n.server == s.server && n.job == s.job && n.phase == s.phase
  {
  }

  lemma StaysLeaving(s: State, a: Action)
    requires Control(s) && Leaving(s.server)
    ensures var n := Next(s, a);
      && Leaving(n.server) && (s.job == NoJob ==> n.job == NoJob)
      && (s.phase != Running ==> n.phase != Running)
  {
    match a
    case Serve(e) => ServerStaysLeaving(s, e);
    case Work(e) => WorkFrame(s, e);
    case Stop(i, e) =>
      if i < |s.stoppers| {
        assert StopperOk(s, i);
        StopperStaysLeaving(s, i, e);
      }
    case _ => CallStaysLeaving(s, a);
  }

  /** More answers may have been given, and none of them with a Host. */
  predicate NobodyAnswered(a: seq<Reply>, b: seq<Reply>) {
    a <= b && forall i :: |a| <= i < |b| ==> b[i].info.None?
  }

  lemma WithoutJobNobody(s: State, a: Action)
    requires Control(s) && s.job == NoJob
    ensures NobodyAnswered(s.t.replies, Next(s, a).t.replies)
  {
    StepAnswers(s, a);
  }

  lemma NobodyStill(a: seq<Reply>, b: seq<Reply>, c: seq<Reply>)
    requires NobodyAnswered(a, b) && NobodyAnswered(b, c)
    ensures NobodyAnswered(a, c)
  {
    assert forall i :: |a| <= i < |b| ==> c[i] == b[i];
  }

  lemma {:induction false} RunStaysLeaving(s: State, more: seq<Action>)
    requires Control(s) && Leaving(s.server)
    ensures var t := Run(s, more);
      && Leaving(t.server) && (s.phase != Running ==> t.phase != Running)
      && (s.job == NoJob ==> t.job == NoJob && NobodyAnswered(s.t.replies, t.t.replies))
  {
    if more != [] {
      var m, a := Run(s, more[..|more| - 1]), more[|more| - 1];
      RunStaysLeaving(s, more[..|more| - 1]);
      RunKeepsControl(s, more[..|more| - 1]);
      StaysLeaving(m, a);
      if s.job == NoJob {
        WithoutJobNobody(m, a);
        NobodyStill(s.t.replies, m.t.replies, Next(m, a).t.replies);
      }
    }
  }

  /** What makes the serving task give up: a bind or a recovery that fails, a
      server task that ends, or the wake-up of a stop. */
  predicate Trouble(s: State, e: Env) {
    match s.server
    case BindTcp => !e.ok
    case Preparing(todo, _) => s.phase == Starting && e.pick in todo && !e.ok
    case BindUnix(_) => !e.ok
    case Select => e.event == TaskEnded || (e.event == Woken && s.wake)
    case _ => false
  }

  /** In every run, trouble makes the serving task leave for good: whatever
      comes after, it opens nothing more, and a daemon that was Starting will
      never be Running. */
  lemma TroubleEndsService(r: Resources, acts: seq<Action>, e: Env, more: seq<Action>)
    requires Trouble(Run(Start(r), acts), e)
    ensures var s := Run(Start(r), acts); var t := Run(Start(r), acts + [Serve(e)] + more);
      && Leaving(t.server) && (s.phase == Starting ==> t.phase != Running)
      && (s.job == NoJob ==> t.job == NoJob && NobodyAnswered(s.t.replies, t.t.replies))
  {
    var s := Run(Start(r), acts);
    EveryRunKeepsControl(r, acts);
    StepKeepsControl(s, Serve(e));
    RunOn(Start(r), acts, Serve(e));
    RunConcat(Start(r), acts + [Serve(e)], more);
    TroubleLeaves(s, e);
    RunStaysLeaving(Next(s, Serve(e)), more);
  }

  lemma TroubleLeaves(s: State, e: Env)
    requires Trouble(s, e)
    ensures var n := ServerStep(s, e);
      Leaving(n.server) && n.phase == s.phase && n.job == s.job && n.t.replies == s.t.replies
  {
  }

  /** In every run that has come to Running with no open in work: a queued
      open of a Host that can be opened can still be answered with that Host,
      its turn in the queue notwithstanding, exactly if the serving task has
      not left its loop. */
  lemma QueuedOpenSucceedsExactly(r: Resources, acts: seq<Action>, k: nat, n: Name)
    requires var s := Run(Start(r), acts);
      s.phase == Running && s.job == NoJob && k < |s.t.queue| && Openable(s.r, s.t.queue[k], n)
    ensures var s := Run(Start(r), acts);
      (exists more :: Answers(s, more, s.t.queue[k], n)) <==> s.server == LoopTop || s.server == Select
  {
    var s := Run(Start(r), acts);
    EveryRunKeepsControl(r, acts);
    if s.server == LoopTop || s.server == Select {
      var more := QueuedOpens(s, k, n, 0);
    } else {
      forall more ensures !Answers(s, more, s.t.queue[k], n) {
        RunStaysLeaving(s, more);
      }
    }
  }

  // -------------------------------------------------- from the call onward

  /** The queue is closed only after the loop. */
  predicate ClosedOk(s: State) {
    s.t.closed ==> Leaving(s.server)
  }

  lemma StepKeepsClosedOk(s: State, a: Action)
    requires Control(s) && ClosedOk(s)
    ensures ClosedOk(Next(s, a))
  {
    if Leaving(s.server) {
      StaysLeaving(s, a);
    } else {
      StaysOpen(s, a);
    }
  }

  lemma StaysOpen(s: State, a: Action)
    requires Control(s) && !Leaving(s.server) && !s.t.closed
    ensures !Next(s, a).t.closed
  {
    match a
    case Serve(e) =>
      if StartingUp(s.server) {
        StartUpFrame(s, e);
      }
    case Stop(i, e) => if i < |s.stoppers| { assert StopperOk(s, i); StopperTurns(s, i, e); }
    case Work(_) =>
    case _ =>
  }

  lemma {:induction false} EveryRunKeepsClosedOk(r: Resources, acts: seq<Action>)
    ensures ClosedOk(Run(Start(r), acts))
  {
    if acts != [] {
      EveryRunKeepsClosedOk(r, acts[..|acts| - 1]);
      EveryRunKeepsControl(r, acts[..|acts| - 1]);
      StepKeepsClosedOk(Run(Start(r), acts[..|acts| - 1]), acts[|acts| - 1]);
    }
  }

  lemma AskedOpens(s: State, q: Request, n: Name, minted: Peer) returns (more: seq<Action>)
    requires Free(s) && !s.t.closed && Openable(s.r, q, n)
    ensures Answers(s, [Ask(q)] + more, q.(ticket := |s.t.asked|), n)
  {
    var request, asked := q.(ticket := |s.t.asked|), Next(s, Ask(q));
    var queued := CallerQueues(asked, |s.t.asking|);
    var t := HeadOpens(queued, n, minted);
    Onwards(asked, queued, t);
    more :| Run(asked, more) == t;
    RunOn(s, [], Ask(q));
    assert [] + [Ask(q)] == [Ask(q)];
    RunConcat(s, [Ask(q)], more);
  }

  /** Whoever waits for room gets to the front of the queue in the end. */
  lemma CallerQueues(s: State, k: nat) returns (t: State)
    requires Free(s) && !s.t.closed && k < |s.t.asking|
    ensures Leads(s, t) && Free(t) && t.t.queue == [s.t.asking[k]] && t.r == s.r && s.t.replies <= t.t.replies
  {
    var m := QueueAdvances(s, |s.t.queue|);
    t := Next(m, Enqueue(k));
    Enqueues(m, k);
    StepOnwards(s, m, Enqueue(k), t);
  }

  lemma Enqueues(s: State, k: nat)
    requires !s.t.closed && k < |s.t.asking| && s.t.queue == []
    ensures var t := Next(s, Enqueue(k)); t == s.(t := t.t) && t.t.queue == [s.t.asking[k]] && t.t.replies == s.t.replies
  {
  }

  /** In every run that has come to Running, with the serving task in its loop
      and no open in work: whoever now asks for a Host that can be opened can
      come to be answered with it, however many wait before them. */
  lemma EveryCallerCanOpen(r: Resources, acts: seq<Action>, q: Request, n: Name) returns (more: seq<Action>)
    requires var s := Run(Start(r), acts);
      && s.phase == Running && s.job == NoJob && (s.server == LoopTop || s.server == Select)
      && Openable(s.r, q, n)
    ensures var s := Run(Start(r), acts);
      Answers(s, [Ask(q)] + more, q.(ticket := |s.t.asked|), n)
  {
    EveryRunKeepsControl(r, acts);
    EveryRunKeepsClosedOk(r, acts);
    more := AskedOpens(Run(Start(r), acts), q, n, 0);
  }

  // -------------------------------------------------------------- starting

  /** The serving task is on its way from the first bind to Running. */
  predicate StartingUp(p: Server) {
    p.BindTcp? || p.Preparing? || p.BindUnix? || p.Publishing?
  }

  lemma {:induction false} PreparesAll(s: State) returns (t: State)
    requires s.phase == Starting && s.server.Preparing?
    ensures Leads(s, t) && t.phase == Starting && t.server == BindUnix(s.server.todo + s.server.done)
    decreases |s.server.todo|
  {
    var todo, done := s.server.todo, s.server.done;
    if todo == {} {
      t := s.(server := BindUnix(done));
      OneStep(s, Serve(Fine(0, None, 0, Woken)));
      assert todo + done == done;
    } else {
      var h :| h in todo;
      var m := Next(s, Serve(Fine(h, None, 0, Woken)));
      OneStep(s, Serve(Fine(h, None, 0, Woken)));
      assert todo == (todo - {h}) + {h};
      t := PreparesAll(m);
      Onwards(s, m, t);
      assert (todo - {h}) + (done + {h}) == todo + done;
    }
  }

  /** From the Unix bind, with everything prepared, to Running. */
  lemma Publishes(s: State) returns (t: State)
    requires s.phase == Starting && (s.server.BindUnix? || s.server.Publishing?)
    ensures Leads(s, t) && t.phase == Running
  {
    var e := Fine(0, None, 0, Woken);
    if s.server.Publishing? {
      OneStep(s, Serve(e));
      t := Next(s, Serve(e));
    } else {
      var m := s.(server := Publishing(s.server.done));
      OneStep(s, Serve(e));
      t := Next(m, Serve(e));
      StepOnwards(s, m, Serve(e), t);
    }
  }

  lemma StartsUp(s: State) returns (t: State)
    requires s.phase == Starting && StartingUp(s.server)
    ensures Leads(s, t) && t.phase == Running
  {
    var m := s;
    Stays(s);
    if s.server.BindTcp? {
      m := s.(server := Preparing(s.r.hosts.Values, {}));
      OneStep(s, Serve(Fine(0, None, 0, Woken)));
    }
    if m.server.Preparing? {
      var p := PreparesAll(m);
      Onwards(s, m, p);
      m := p;
    }
    t := Publishes(m);
    Onwards(s, m, t);
  }

  /** In every run in which the daemon is Starting: it can come to be Running,
      with all of its initial Hosts published, exactly if the serving task has
      not given up. */
  lemma StartSucceedsExactly(r: Resources, acts: seq<Action>)
    requires HandedOver(r) && Run(Start(r), acts).phase == Starting
    ensures (exists more :: ComesToRun(r, acts, more)) <==> StartingUp(Run(Start(r), acts).server)
    ensures forall more :: ComesToRun(r, acts, more) ==> r.hosts.Values <= Run(Start(r), acts + more).r.published
  {
    var s := Run(Start(r), acts);
    EveryRunKeepsControl(r, acts);
    if StartingUp(s.server) {
      var t := StartsUp(s);
      var more :| Run(s, more) == t;
      RunConcat(Start(r), acts, more);
      assert ComesToRun(r, acts, more);
    }
    forall more | ComesToRun(r, acts, more)
      ensures StartingUp(s.server) && r.hosts.Values <= Run(Start(r), acts + more).r.published
    {
      InitialHostsPublishTogether(r, acts + more);
      RunConcat(Start(r), acts, more);
      NotGivenUp(s, more);
    }
  }

  ghost predicate ComesToRun(r: Resources, acts: seq<Action>, more: seq<Action>) {
    Run(Start(r), acts + more).phase == Running
  }

  lemma NotGivenUp(s: State, more: seq<Action>)
    requires Control(s) && s.phase == Starting && Run(s, more).phase == Running
    ensures StartingUp(s.server)
  {
    if Leaving(s.server) {
      RunStaysLeaving(s, more);
    }
  }
}
