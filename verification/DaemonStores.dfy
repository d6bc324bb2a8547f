/** Who owns each open store: the directory, the provisioning job or cleanup,
    and never two of them. A store that nobody owns was shut exactly once,
    after its service. */
module DaemonStores {
  import opened HostLedger
  import opened Options
  import opened Daemon
  import opened DaemonControl
  import opened DaemonTurns
  import Construction

  /** The store a job still has to hand over or to shut. */
  function Held(j: Job): Option<Handle> {
    match j
    case Opened(_, h) => Some(h)
    case Attached(_, h) => Some(h)
    case Composed(_, h) => Some(h)
    case StopFailed(_, h) => Some(h)
    case CloseFailed(_, h) => Some(h)
    case Ready(_, Prepared(h)) => Some(h)
    case RollingStop(_, h) => Some(h)
    case RollingClose(_, h) => Some(h)
    case _ => None
  }

  predicate HeldFits(j: Job, r: Store) {
    match j
    case Opened(_, _) | Attached(_, _) => Bare(r)
    case CloseFailed(_, _) | RollingClose(_, _) => Quiet(r)
    case _ => Serving(r)
  }

  /** The stores cleanup took from the directory and has not shut yet. */
  function Taken(c: Clean): set<Handle> {
    match c
    case StoppingServices(all, _) => all
    case StoppingEnsemble(all) => all
    case ShuttingStores(left) => left
    case _ => {}
  }

  predicate TakenFits(c: Clean, h: Handle, r: Store) {
    if c.StoppingServices? && h in c.left then Serving(r) else Quiet(r)
  }

  /** Store `h` has one owner and is in the condition that owner needs. */
  predicate Fits(r: Resources, j: Job, c: Clean, h: Handle)
    requires h < |r.stores|
  {
    if Listed(r.stores, r.hosts, h) then Serving(r.stores[h]) && Held(j) != Some(h) && h !in Taken(c)
    else if Held(j) == Some(h) then HeldFits(j, r.stores[h]) && h !in Taken(c)
    else if h in Taken(c) then TakenFits(c, h, r.stores[h])
    else Released(r.stores[h])
  }

  predicate HandlesOk(r: Resources, j: Job, c: Clean) {
    && Filed(r.stores, r.hosts)
    && (c != NotCleaning && c != Taking ==> r.hosts == map[])
    && (Held(j).Some? ==> Held(j).value < |r.stores| && r.stores[Held(j).value].name !in r.hosts)
    && (j.Provisioning? ==> j.name !in r.hosts)
    && (j.Announcing? ==> j.handle < |r.stores| && Listed(r.stores, r.hosts, j.handle))
    && (forall h :: h in Taken(c) ==> h < |r.stores|)
    && (c.StoppingServices? ==> c.left <= c.all)
  }

  predicate AllFit(r: Resources, j: Job, c: Clean) {
    forall h :: 0 <= h < |r.stores| ==> Fits(r, j, c, h)
  }

  predicate Accounts(r: Resources, j: Job, c: Clean) {
    HandlesOk(r, j, c) && AllFit(r, j, c)
  }

  // ------------------------------------------------------------ the job

  /** A job may move on with the same store in the same condition. */
  lemma JobMoves(r: Resources, j: Job, j': Job, c: Clean)
    requires Accounts(r, j, c) && Held(j') == Held(j) && !j'.Announcing?
    requires j'.Provisioning? ==> j'.name !in r.hosts
    requires Held(j).Some? ==> HeldFits(j, r.stores[Held(j).value]) ==> HeldFits(j', r.stores[Held(j).value])
    ensures Accounts(r, j', c)
  {
    forall h | 0 <= h < |r.stores| ensures Fits(r, j', c, h) {
      assert Fits(r, j, c, h);
    }
  }

  /** Only the listed, held and taken parts of resources matter. */
  lemma SameStores(r: Resources, r': Resources, j: Job, c: Clean)
    requires Accounts(r, j, c) && r'.stores == r.stores && r'.hosts == r.hosts
    ensures Accounts(r', j, c)
  {
    forall h | 0 <= h < |r.stores| ensures Fits(r', j, c, h) {
      assert Fits(r, j, c, h);
    }
  }

  lemma JobOpens(r: Resources, q: Request, n: Name, p: Peer)
    requires Accounts(r, Provisioning(q, n), NotCleaning)
    ensures Accounts(OpenStore(r, n, p), Opened(q, |r.stores|), NotCleaning)
  {
    var r' := OpenStore(r, n, p);
    forall h | 0 <= h < |r'.stores| ensures Fits(r', Opened(q, |r.stores|), NotCleaning, h) {
      if h < |r.stores| {
        assert Fits(r, Provisioning(q, n), NotCleaning, h);
      }
    }
  }

  /** The held store changes condition together with the job. */
  lemma HeldChanges(r: Resources, r': Resources, j: Job, j': Job, x: Store)
    requires Accounts(r, j, NotCleaning) && Held(j).Some?
    requires r' == r.(stores := r.stores[Held(j).value := x]) && x.name == r.stores[Held(j).value].name
    requires (Held(j') == Held(j) && HeldFits(j', x)) || (Held(j').None? && Released(x))
    requires !j'.Announcing? && !j'.Provisioning?
    ensures Accounts(r', j', NotCleaning)
  {
    var h := Held(j).value;
    forall k | 0 <= k < |r'.stores| ensures Fits(r', j', NotCleaning, k) {
      assert Fits(r, j, NotCleaning, k);
      assert r'.stores[k].name == r.stores[k].name;
    }
  }

  /** The job's store enters the directory under a name that was free. */
  lemma JobLists(r: Resources, q: Request, h: Handle)
    requires Accounts(r, Ready(q, Prepared(h)), NotCleaning)
    ensures Accounts(r.(hosts := r.hosts[InfoOf(r, h).name := h]), Announcing(q, h), NotCleaning)
  {
    var r' := r.(hosts := r.hosts[InfoOf(r, h).name := h]);
    forall k | 0 <= k < |r.stores| ensures Fits(r', Announcing(q, h), NotCleaning, k) {
      assert Fits(r, Ready(q, Prepared(h)), NotCleaning, k);
    }
  }

  lemma ProvisionKeeps(r: Resources, j: Job, e: Env)
    requires j.Provisioning? && Accounts(r, j, NotCleaning)
    ensures var p := Provision(r, j.request, j.name, e); Accounts(p.r, p.job, NotCleaning)
  {
    var p := Provision(r, j.request, j.name, e);
    var r' := r.(identities := p.r.identities);
    SameStores(r, r', j, NotCleaning);
    if p.job.Opened? {
      JobOpens(r', j.request, j.name, p.r.stores[|r.stores|].peer);
    } else {
      JobMoves(r', j, p.job, NotCleaning);
    }
  }

  lemma WorkKeepsAccounts(phase: Phase, r: Resources, j: Job, e: Env)
    requires Accounts(r, j, NotCleaning)
    ensures var p := WorkOn(phase, r, j, e); Accounts(p.r, p.job, NotCleaning)
  {
    var p := WorkOn(phase, r, j, e);
    if j.Provisioning? {
      ProvisionKeeps(r, j, e);
    } else if j.Checking? {
      JobMoves(r, j, p.job, NotCleaning);
    } else if p != Progress(j, r) {
      assert Fits(r, j, NotCleaning, j.handle);
      if p.r.stores == r.stores {
        SameStores(r, p.r, j, NotCleaning);
        JobMoves(p.r, j, p.job, NotCleaning);
      } else {
        HeldChanges(r, p.r, j, p.job, p.r.stores[j.handle]);
      }
    }
  }

  lemma SettleKeepsAccounts(phase: Phase, r: Resources, j: Job)
    requires Accounts(r, j, NotCleaning)
    ensures var x := SettleJob(phase, r, j); Accounts(x.r, x.job, NotCleaning)
  {
    var x := SettleJob(phase, r, j);
    match j
    case Ready(q, Prepared(h)) =>
      if phase == Running {
        JobLists(r, q, h);
      } else {
        JobMoves(r, j, x.job, NotCleaning);
      }
    case Ready(_, _) => JobMoves(r, j, x.job, NotCleaning);
    case Announcing(_, _) =>
      SameStores(r, x.r, j, NotCleaning);
      JobMoves(x.r, j, x.job, NotCleaning);
    case RollingStop(_, h) =>
      assert Fits(r, j, NotCleaning, h);
      HeldChanges(r, x.r, j, x.job, x.r.stores[h]);
    case RollingClose(_, h) =>
      assert Fits(r, j, NotCleaning, h);
      HeldChanges(r, x.r, j, x.job, x.r.stores[h]);
    case _ =>
  }

  // ----------------------------------------------------------- cleanup

  lemma TakeKeeps(r: Resources)
    requires Accounts(r, NoJob, Taking)
    ensures Accounts(r.(hosts := map[]), NoJob, StoppingServices(r.hosts.Values, r.hosts.Values))
  {
    var r', c := r.(hosts := map[]), StoppingServices(r.hosts.Values, r.hosts.Values);
    forall h | h in Taken(c) ensures h < |r.stores| {
      var n :| n in r.hosts && r.hosts[n] == h;
    }
    forall h | 0 <= h < |r.stores| ensures Fits(r', NoJob, c, h) {
      assert Fits(r, NoJob, Taking, h);
      FiledValues(r.stores, r.hosts, h);
    }
  }

  /** Cleanup changes one store it has taken. */
  lemma TakenChanges(r: Resources, r': Resources, c: Clean, c': Clean, h: Handle)
    requires Accounts(r, NoJob, c) && h in Taken(c)
    requires h < |r.stores| == |r'.stores| && r' == r.(stores := r'.stores)
    requires r'.stores == r.stores[h := r'.stores[h]] && r'.stores[h].name == r.stores[h].name
    requires HandlesOk(r', NoJob, c') && Fits(r', NoJob, c', h)
    requires forall k :: k != h ==> (k in Taken(c') <==> k in Taken(c))
    requires forall k: Handle, x: Store :: k != h && TakenFits(c, k, x) ==> TakenFits(c', k, x)
    ensures Accounts(r', NoJob, c')
  {
    forall k | 0 <= k < |r'.stores| ensures Fits(r', NoJob, c', k) {
      assert Fits(r, NoJob, c, k);
    }
  }

  lemma CleanMoves(r: Resources, c: Clean, c': Clean)
    requires Accounts(r, NoJob, c) && r.hosts == map[] && Taken(c') == Taken(c) && !c'.StoppingServices?
    requires forall k: Handle, x: Store :: k in Taken(c) && TakenFits(c, k, x) ==> TakenFits(c', k, x)
    ensures Accounts(r, NoJob, c')
  {
    assert forall h :: h in Taken(c') ==> h in Taken(c);
    forall k | 0 <= k < |r.stores| ensures Fits(r, NoJob, c', k) {
      assert Fits(r, NoJob, c, k);
    }
  }

  /** Cleanup goes through what it has taken, one store at a time. */
  lemma CleanEachKeeps(c: Clean, r: Resources, e: Env)
    requires (c.StoppingServices? || c.ShuttingStores?) && Accounts(r, NoJob, c)
    ensures var x := CleanOn(c, r, e); Accounts(x.r, NoJob, x.clean)
  {
    var x := CleanOn(c, r, e);
    if c.left == {} {
      CleanMoves(r, c, x.clean);
    } else if e.pick in c.left {
      assert e.pick in Taken(c);
      assert Fits(r, NoJob, c, e.pick);
      TakenChanges(r, x.r, c, x.clean, e.pick);
    }
  }

  lemma CleanKeepsAccounts(c: Clean, r: Resources, e: Env)
    requires Accounts(r, NoJob, c)
    ensures var x := CleanOn(c, r, e); Accounts(x.r, NoJob, x.clean)
  {
    match c
    case Taking => TakeKeeps(r);
    case StoppingServices(_, _) | ShuttingStores(_) => CleanEachKeeps(c, r, e);
    case StoppingEnsemble(_) | MarkFinished | Signal => CleanMoves(r, c, CleanOn(c, r, e).clean);
    case NotCleaning | CleanDone =>
  }

  lemma EnterKeeps(r: Resources)
    requires Accounts(r, NoJob, NotCleaning)
    ensures Accounts(r, NoJob, Taking)
  {
    forall h | 0 <= h < |r.stores| ensures Fits(r, NoJob, Taking, h) {
      assert Fits(r, NoJob, NotCleaning, h);
    }
  }

  // --------------------------------------------------------- every step

  lemma QuietKeeps(s: State, n: State)
    requires Accounts(s.r, s.job, s.clean) && n.job == s.job && SameUpToMarks(s.r, n.r) && CleanupBegins(s, n)
    ensures Accounts(n.r, n.job, n.clean)
  {
    if n.clean != s.clean {
      EnterKeeps(s.r);
      SameStores(s.r, n.r, NoJob, Taking);
    } else {
      SameStores(s.r, n.r, s.job, s.clean);
    }
  }

  lemma TurnKeepsAccounts(s: State, n: State)
    requires Turn(s, n) && Accounts(s.r, s.job, s.clean) && (s.job != NoJob ==> s.clean == NotCleaning)
    ensures Accounts(n.r, n.job, n.clean)
  {
    if n.job == s.job && SameUpToMarks(s.r, n.r) && CleanupBegins(s, n) {
      QuietKeeps(s, n);
    } else if s.job == NoJob && n.job.Checking? && n.r == s.r && n.clean == s.clean {
      JobMoves(s.r, s.job, n.job, s.clean);
    } else if s.job == NoJob {
      var e: Env :| CleanOn(s.clean, s.r, e) == Cleaning(n.clean, n.r);
      CleanKeepsAccounts(s.clean, s.r, e);
    } else if n.clean == s.clean && exists e: Env :: WorkOn(s.phase, s.r, s.job, e) == Progress(n.job, n.r) {
      var e: Env :| WorkOn(s.phase, s.r, s.job, e) == Progress(n.job, n.r);
      WorkKeepsAccounts(s.phase, s.r, s.job, e);
    } else {
      SettleKeepsAccounts(s.phase, s.r, s.job);
    }
  }

  // -------------------------------------------------------- whole runs

  /** What a successful construction hands over. */
  ghost predicate HandedOver(r: Resources) {
    && Construction.Constructed(r.stores, r.hosts)
    && Identified(r.stores, r.identities)
    && r.recovered == {} && r.published == {}
  }

  /** Every interleaving keeps every store accounted for. */
  lemma {:induction false} EveryRunKeepsAccounts(r: Resources, acts: seq<Action>)
    requires HandedOver(r)
    ensures var s := Run(Start(r), acts); Control(s) && Accounts(s.r, s.job, s.clean)
  {
    EveryRunKeepsControl(r, acts);
    if acts == [] {
      forall h | 0 <= h < |r.stores| ensures Fits(r, NoJob, NotCleaning, h) {
        assert Serving(r.stores[h]) && Listed(r.stores, r.hosts, h);
      }
    } else {
      EveryRunKeepsAccounts(r, acts[..|acts| - 1]);
      var s, a := Run(Start(r), acts[..|acts| - 1]), acts[|acts| - 1];
      StepTurns(s, a);
      TurnKeepsAccounts(s, Next(s, a));
    }
  }

  lemma FinishedReleases(s: State)
    requires Control(s) && Accounts(s.r, s.job, s.clean) && s.phase == Finished
    ensures AllReleased(s.r.stores) && s.r.hosts == map[] && s.job == NoJob
  {
    forall h | 0 <= h < |s.r.stores| ensures Released(s.r.stores[h]) {
      assert Fits(s.r, s.job, s.clean, h);
    }
  }

  /** In every run: once the daemon is Finished, and so once any stop call has
      returned, every store it ever opened was shut exactly once, after its
      service was stopped exactly once, and the directory is empty. */
  lemma StopReleasesEverything(r: Resources, acts: seq<Action>)
    requires HandedOver(r)
    ensures var s := Run(Start(r), acts);
      s.phase == Finished || StopReturned in s.stoppers || s.finished ==>
        AllReleased(s.r.stores) && s.r.hosts == map[] && s.job == NoJob
  {
    EveryRunKeepsAccounts(r, acts);
    var s := Run(Start(r), acts);
    ControlMeans(s);
    if s.phase == Finished {
      FinishedReleases(s);
    }
  }

  lemma AccountsMean(r: Resources, j: Job, c: Clean, h: Handle)
    requires Accounts(r, j, c) && h < |r.stores|
    ensures Proper(r.stores[h])
    ensures IsOpen(r.stores[h]) <==> Listed(r.stores, r.hosts, h) || Held(j) == Some(h) || h in Taken(c)
  {
    assert Fits(r, j, c, h);
  }

  /** At every moment of every run, no store has been shut twice or under a
      running service, and the open stores are exactly the owned ones. */
  lemma NoStoreIsLost(r: Resources, acts: seq<Action>, h: Handle)
    requires HandedOver(r) && h < |Run(Start(r), acts).r.stores|
    ensures var s := Run(Start(r), acts); var x := s.r.stores[h];
      && Proper(x)
      && (IsOpen(x) <==> Listed(s.r.stores, s.r.hosts, h) || Held(s.job) == Some(h) || h in Taken(s.clean))
  {
    EveryRunKeepsAccounts(r, acts);
    var s := Run(Start(r), acts);
    AccountsMean(s.r, s.job, s.clean, h);
  }
}
