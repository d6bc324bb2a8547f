/** Opening Hosts: the directory stays within capacity and never loses an
    entry to a later open, identities are minted once and kept, and answers
    are truthful. */
module DaemonOpens {
  import opened HostLedger
  import opened Options
  import opened Daemon
  import opened DaemonControl
  import opened DaemonTurns
  import opened DaemonStores

  // -------------------------------------------------------- the directory

  /** How one step can change the directory: an open adds one free name, only
      while Running; cleanup takes it all. */
  predicate DirectoryStep(s: State, n: State) {
    || n.r.hosts == s.r.hosts
    || (s.phase == Running && s.job.Ready? && s.job.outcome.Prepared?
        && InfoOf(s.r, s.job.outcome.slot).name !in s.r.hosts
        && n.r.hosts == s.r.hosts[InfoOf(s.r, s.job.outcome.slot).name := s.job.outcome.slot]
        && n.job.Announcing?)
    || (s.clean == Taking && s.job == NoJob && n.job == NoJob && n.r.hosts == map[])
  }

  /** The job is to bring a Host into the directory. */
  predicate NeedsRoom(j: Job) {
    j.Provisioning? || Held(j).Some?
  }

  predicate Roomy(r: Resources, j: Job) {
    |r.hosts| <= MAX_LOCAL_HOSTS && (NeedsRoom(j) ==> |r.hosts| < MAX_LOCAL_HOSTS)
  }

  /** A job that comes to need room found some. */
  predicate RoomStep(s: State, n: State) {
    NeedsRoom(n.job) ==> n.r.hosts == s.r.hosts && (NeedsRoom(s.job) || |s.r.hosts| < MAX_LOCAL_HOSTS)
  }

  lemma WorkFindsRoom(phase: Phase, r: Resources, j: Job, e: Env)
    ensures var p := WorkOn(phase, r, j, e);
      p.r.hosts == r.hosts && (NeedsRoom(p.job) ==> NeedsRoom(j) || |r.hosts| < MAX_LOCAL_HOSTS)
  {
    match j
    case Checking(q) => assert Held(CheckOpen(phase, r, q, e)).None?;
    case Provisioning(_, _) =>
    case _ =>
  }

  lemma TurnOnTheDirectory(s: State, n: State)
    requires Turn(s, n) && HandlesOk(s.r, s.job, s.clean)
    ensures DirectoryStep(s, n) && RoomStep(s, n)
  {
    if e: Env :| WorkOn(s.phase, s.r, s.job, e) == Progress(n.job, n.r) {
      WorkFindsRoom(s.phase, s.r, s.job, e);
    } else if s.job == NoJob && n.job == NoJob && exists e: Env :: CleanOn(s.clean, s.r, e) == Cleaning(n.clean, n.r) {
      var e: Env :| CleanOn(s.clean, s.r, e) == Cleaning(n.clean, n.r);
    }
  }

  lemma StepKeepsRoom(s: State, n: State)
    requires Roomy(s.r, s.job) && DirectoryStep(s, n) && RoomStep(s, n)
    ensures Roomy(n.r, n.job)
  {
    if n.r.hosts != s.r.hosts && n.r.hosts != map[] {
      var name := InfoOf(s.r, s.job.outcome.slot).name;
      assert n.r.hosts.Keys == s.r.hosts.Keys + {name};
    }
  }

  /** Every run keeps the directory within capacity. */
  lemma {:induction false} DirectoryStaysWithinCapacity(r: Resources, acts: seq<Action>)
    requires HandedOver(r)
    ensures var s := Run(Start(r), acts); Roomy(s.r, s.job)
  {
    if acts != [] {
      var s := Run(Start(r), acts[..|acts| - 1]);
      DirectoryStaysWithinCapacity(r, acts[..|acts| - 1]);
      EveryRunKeepsAccounts(r, acts[..|acts| - 1]);
      StepTurns(s, acts[|acts| - 1]);
      TurnOnTheDirectory(s, Next(s, acts[|acts| - 1]));
      StepKeepsRoom(s, Next(s, acts[|acts| - 1]));
    }
  }

  /** In every run, whatever action comes next: an entry stays as it is until
      cleanup takes the whole directory, and an entry appears only while the
      daemon is Running. */
  lemma DirectoryEntriesStay(r: Resources, acts: seq<Action>, a: Action, name: Name)
    requires HandedOver(r)
    ensures var s := Run(Start(r), acts); var n := Run(Start(r), acts + [a]);
      && (name in s.r.hosts && s.clean != Taking ==> name in n.r.hosts && n.r.hosts[name] == s.r.hosts[name])
      && (name in n.r.hosts && name !in s.r.hosts ==> s.phase == Running && n.r.hosts[name] !in s.r.hosts.Values)
  {
    EveryRunKeepsAccounts(r, acts);
    var s := Run(Start(r), acts);
    assert (acts + [a])[..|acts|] == acts;
    StepTurns(s, a);
    TurnOnTheDirectory(s, Next(s, a));
    EntriesStay(s, Next(s, a), name);
  }

  lemma EntriesStay(s: State, n: State, name: Name)
    requires DirectoryStep(s, n) && HandlesOk(s.r, s.job, s.clean)
    ensures name in s.r.hosts && s.clean != Taking ==> name in n.r.hosts && n.r.hosts[name] == s.r.hosts[name]
    ensures name in n.r.hosts && name !in s.r.hosts ==> s.phase == Running && n.r.hosts[name] !in s.r.hosts.Values
  {
    if name in n.r.hosts && name !in s.r.hosts {
      FiledValues(s.r.stores, s.r.hosts, n.r.hosts[name]);
    }
  }

  // -------------------------------------------- identities and the answers

  /** What an answer of a Host promises about a request. */
  predicate Honest(q: Request, info: HostInfo, ids: map<Name, Peer>) {
    && info.name in ids && ids[info.name] == info.peer
    && (Wanted(q).Some? ==> info.name == Wanted(q).value)
    && (q.Reopen? ==> info.peer == q.expected)
  }

  /** The Host a job is about, once it has one. */
  function Claim(r: Resources, j: Job): Option<HostInfo> {
    if Due(r, j).Some? then Due(r, j)
    else if Held(j).Some? then Some(InfoOf(r, Held(j).value))
    else None
  }

  predicate JobHonest(r: Resources, j: Job) {
    && Identified(r.stores, r.identities)
    && (Claim(r, j).Some? ==> Honest(j.request, Claim(r, j).value, r.identities))
    && (j.Provisioning? && Wanted(j.request).Some? ==> j.name == Wanted(j.request).value)
  }

  predicate RepliesHonest(replies: seq<Reply>, ids: map<Name, Peer>) {
    forall i :: 0 <= i < |replies| && replies[i].info.Some? ==> Honest(replies[i].request, replies[i].info.value, ids)
  }

  predicate Honesty(s: State) {
    JobHonest(s.r, s.job) && RepliesHonest(s.t.replies, s.r.identities)
  }

  /** An identity on disk is never replaced. */
  predicate IdentitiesKept(ids: map<Name, Peer>, ids': map<Name, Peer>) {
    forall n :: n in ids ==> n in ids' && ids'[n] == ids[n]
  }

  /** The same stores for the same identities, in whatever condition. */
  predicate SameNames(r: Resources, r': Resources) {
    && r'.identities == r.identities && |r'.stores| == |r.stores|
    && forall h :: 0 <= h < |r.stores| ==> r'.stores[h].name == r.stores[h].name && r'.stores[h].peer == r.stores[h].peer
  }

  /** A job that carries its claim along or drops it stays honest. */
  lemma CarriesOn(r: Resources, j: Job, r': Resources, j': Job)
    requires JobHonest(r, j) && SameNames(r, r') && !j'.Provisioning?
    requires Claim(r', j').None? || (j != NoJob && j.request == j'.request && Claim(r', j') == Claim(r, j))
    ensures JobHonest(r', j')
  {
  }

  lemma CheckIsHonest(phase: Phase, r: Resources, j: Job, e: Env)
    requires j.Checking? && JobHonest(r, j) && Filed(r.stores, r.hosts)
    ensures JobHonest(r, CheckOpen(phase, r, j.request, e))
  {
    var q := j.request;
    if Wanted(q).Some? && Wanted(q).value in r.hosts {
      assert r.stores[r.hosts[Wanted(q).value]].name == Wanted(q).value;
    }
  }

  lemma OpenIsHonest(r: Resources, j: Job, ids: map<Name, Peer>)
    requires JobHonest(r, j) && j.Provisioning? && IdentitiesKept(r.identities, ids)
    ensures JobHonest(r.(identities := ids), Ready(j.request, Failed))
    ensures j.name in ids && (j.request.Reopen? ==> ids[j.name] == j.request.expected) ==>
      JobHonest(OpenStore(r.(identities := ids), j.name, ids[j.name]), Opened(j.request, |r.stores|))
  {
    if j.name in ids {
      var r' := OpenStore(r.(identities := ids), j.name, ids[j.name]);
      assert forall h :: 0 <= h < |r.stores| ==> r'.stores[h] == r.stores[h];
      assert InfoOf(r', |r.stores|) == HostInfo(j.name, ids[j.name]);
    }
  }

  lemma WorkIsHonest(phase: Phase, r: Resources, j: Job, e: Env)
    requires JobHonest(r, j) && Filed(r.stores, r.hosts)
    ensures var p := WorkOn(phase, r, j, e); JobHonest(p.r, p.job) && IdentitiesKept(r.identities, p.r.identities)
  {
    var p := WorkOn(phase, r, j, e);
    if j.Provisioning? {
      OpenIsHonest(r, j, p.r.identities);
    } else if j.Checking? {
      CheckIsHonest(phase, r, j, e);
    } else if p != Progress(j, r) {
      CarriesOn(r, j, p.r, p.job);
    }
  }

  lemma SettleIsHonest(phase: Phase, r: Resources, j: Job)
    requires JobHonest(r, j) && j != NoJob
    ensures var x := SettleJob(phase, r, j); JobHonest(x.r, x.job) && x.r.identities == r.identities
  {
    var x := SettleJob(phase, r, j);
    if j.RollingStop? || j.RollingClose? {
    }
    if x.job != j {
      CarriesOn(r, j, x.r, x.job);
    }
  }

  lemma CleanIsHonest(c: Clean, r: Resources, e: Env)
    requires JobHonest(r, NoJob)
    ensures var x := CleanOn(c, r, e); JobHonest(x.r, NoJob) && x.r.identities == r.identities
  {
    CarriesOn(r, NoJob, CleanOn(c, r, e).r, NoJob);
  }

  lemma TurnIsHonest(s: State, n: State)
    requires Turn(s, n) && HandlesOk(s.r, s.job, s.clean) && JobHonest(s.r, s.job)
    ensures JobHonest(n.r, n.job) && IdentitiesKept(s.r.identities, n.r.identities)
  {
    if n.job == s.job && SameUpToMarks(s.r, n.r) {
    } else if s.job == NoJob && n.job.Checking? && n.r == s.r {
    } else if e: Env :| WorkOn(s.phase, s.r, s.job, e) == Progress(n.job, n.r) {
      WorkIsHonest(s.phase, s.r, s.job, e);
    } else if s.job != NoJob {
      SettleIsHonest(s.phase, s.r, s.job);
    } else {
      var e: Env :| CleanOn(s.clean, s.r, e) == Cleaning(n.clean, n.r);
      CleanIsHonest(s.clean, s.r, e);
    }
  }

  lemma AnswerIsHonest(s: State, n: State)
    requires AnswerStep(s, n) && Honesty(s) && IdentitiesKept(s.r.identities, n.r.identities)
    ensures RepliesHonest(n.t.replies, n.r.identities)
  {
    forall i | 0 <= i < |n.t.replies| && n.t.replies[i].info.Some?
      ensures Honest(n.t.replies[i].request, n.t.replies[i].info.value, n.r.identities)
    {
      if i < |s.t.replies| {
        assert n.t.replies[i] == s.t.replies[i];
      }
    }
  }

  lemma {:induction false} EveryRunIsHonest(r: Resources, acts: seq<Action>)
    requires HandedOver(r)
    ensures var s := Run(Start(r), acts); Honesty(s) && IdentitiesKept(r.identities, s.r.identities)
  {
    if acts != [] {
      var s, a := Run(Start(r), acts[..|acts| - 1]), acts[|acts| - 1];
      EveryRunIsHonest(r, acts[..|acts| - 1]);
      EveryRunKeepsAccounts(r, acts[..|acts| - 1]);
      StepTurns(s, a);
      StepAnswers(s, a);
      TurnIsHonest(s, Next(s, a));
      AnswerIsHonest(s, Next(s, a));
    }
  }

  /** In every run: an answer names the Host asked for, with the identity kept
      on disk under that name, which for a reopen is the authenticated one. So
      two answers for one name never differ in the peer. */
  lemma AnswersAgree(r: Resources, acts: seq<Action>, a: Reply, b: Reply)
    requires HandedOver(r)
    requires a in Run(Start(r), acts).t.replies && b in Run(Start(r), acts).t.replies
    ensures a.info.Some? ==> Honest(a.request, a.info.value, Run(Start(r), acts).r.identities)
    ensures a.info.Some? && b.info.Some? && a.info.value.name == b.info.value.name ==> a.info == b.info
  {
    EveryRunIsHonest(r, acts);
    var s := Run(Start(r), acts);
  }

  // ------------------------------------------------------- only creates mint

  /** A step adds an identity only for a create, where bootstrapping is on and
      the name has none yet. */
  predicate MintStep(s: State, n: State) {
    n.r.identities == s.r.identities
    || (s.job.Provisioning? && s.job.request.Create? && s.r.bootstrap && s.job.name !in s.r.identities
        && n.r.identities.Keys == s.r.identities.Keys + {s.job.name} && IdentitiesKept(s.r.identities, n.r.identities))
  }

  lemma TurnMints(s: State, n: State)
    requires Turn(s, n)
    ensures MintStep(s, n)
  {
    if e: Env :| WorkOn(s.phase, s.r, s.job, e) == Progress(n.job, n.r) {
      assert n.r.identities == s.r.identities
        || (s.job.Provisioning? && n.r.identities == s.r.identities[s.job.name := e.minted]);
    } else if s.job == NoJob && n.job == NoJob && exists e: Env :: CleanOn(s.clean, s.r, e) == Cleaning(n.clean, n.r) {
      var e: Env :| CleanOn(s.clean, s.r, e) == Cleaning(n.clean, n.r);
    }
  }

  /** In every run, a reopen never mints an identity. */
  lemma OnlyCreatesMint(r: Resources, acts: seq<Action>, a: Action)
    requires HandedOver(r)
    ensures MintStep(Run(Start(r), acts), Run(Start(r), acts + [a]))
  {
    EveryRunKeepsControl(r, acts);
    assert (acts + [a])[..|acts|] == acts;
    StepTurns(Run(Start(r), acts), a);
    TurnMints(Run(Start(r), acts), Next(Run(Start(r), acts), a));
  }

  /** In every run, provisioning mints exactly for a create that was let in, of
      a name without an identity, where that is allowed; whether or not the
      store then opens. */
  lemma CreatesMint(r: Resources, acts: seq<Action>, e: Env)
    requires Run(Start(r), acts).job.Provisioning?
    ensures var s := Run(Start(r), acts);
      Run(Start(r), acts + [Work(e)]).r.identities ==
        if s.job.request.Create? && e.reserved && s.r.bootstrap && s.job.name !in s.r.identities
        then s.r.identities[s.job.name := e.minted] else s.r.identities
  {
    RunOn(Start(r), acts, Work(e));
  }

  // ------------------------------------------- one open store for each name

  predicate OneOpenPerName(stores: seq<Store>) {
    forall h, k :: 0 <= h < k < |stores| && IsOpen(stores[h]) && IsOpen(stores[k]) ==> stores[h].name != stores[k].name
  }

  /** The same stores, none of them opened again. */
  predicate OnlyCloses(a: seq<Store>, b: seq<Store>) {
    |b| == |a| && forall h :: 0 <= h < |a| ==> b[h].name == a[h].name && (IsOpen(b[h]) ==> IsOpen(a[h]))
  }

  lemma ClosingKeepsOne(a: seq<Store>, b: seq<Store>)
    requires OneOpenPerName(a) && OnlyCloses(a, b)
    ensures OneOpenPerName(b)
  {
  }

  lemma ChangesOnlyClose(r: Resources, h: Handle)
    ensures OnlyCloses(r.stores, StopAt(r, h).stores) && OnlyCloses(r.stores, ShutAt(r, h).stores)
    ensures OnlyCloses(r.stores, ComposeAt(r, h).stores)
  {
  }

  lemma OpeningKeepsOne(r: Resources, j: Job, p: Peer)
    requires j.Provisioning? && Accounts(r, j, NotCleaning) && OneOpenPerName(r.stores)
    ensures OneOpenPerName(r.stores + [NewStore(j.name, p)])
  {
    forall h | 0 <= h < |r.stores| && IsOpen(r.stores[h]) ensures r.stores[h].name != j.name {
      AccountsMean(r, j, NotCleaning, h);
    }
  }

  lemma WorkKeepsOne(phase: Phase, r: Resources, j: Job, e: Env)
    requires Accounts(r, j, NotCleaning) && OneOpenPerName(r.stores)
    ensures OneOpenPerName(WorkOn(phase, r, j, e).r.stores)
  {
    var p := WorkOn(phase, r, j, e);
    if j.Provisioning? && p.job.Opened? {
      OpeningKeepsOne(r, j, p.r.stores[|r.stores|].peer);
    } else if j.Attached? || j.StopFailed? || j.CloseFailed? {
      ChangesOnlyClose(r, j.handle);
      ClosingKeepsOne(r.stores, p.r.stores);
    }
  }

  lemma SettleOnlyCloses(phase: Phase, r: Resources, j: Job)
    ensures OnlyCloses(r.stores, SettleJob(phase, r, j).r.stores)
  {
    if j.RollingStop? || j.RollingClose? {
      ChangesOnlyClose(r, j.handle);
    }
  }

  lemma CleanOnlyCloses(c: Clean, r: Resources, e: Env)
    ensures OnlyCloses(r.stores, CleanOn(c, r, e).r.stores)
  {
    ChangesOnlyClose(r, e.pick);
  }

  lemma TurnKeepsOne(s: State, n: State)
    requires Turn(s, n) && OneOpenPerName(s.r.stores)
    requires s.job != NoJob ==> Accounts(s.r, s.job, NotCleaning)
    ensures OneOpenPerName(n.r.stores)
  {
    if n.r.stores == s.r.stores {
    } else if s.job == NoJob {
      if e: Env :| CleanOn(s.clean, s.r, e) == Cleaning(n.clean, n.r) {
        CleanOnlyCloses(s.clean, s.r, e);
        ClosingKeepsOne(s.r.stores, n.r.stores);
      }
    } else if e: Env :| WorkOn(s.phase, s.r, s.job, e) == Progress(n.job, n.r) {
      WorkKeepsOne(s.phase, s.r, s.job, e);
    } else {
      SettleOnlyCloses(s.phase, s.r, s.job);
      ClosingKeepsOne(s.r.stores, n.r.stores);
    }
  }

  /** In every run, no two stores are open for one name: a store is never
      opened while an earlier one for the same Host has not been shut. */
  lemma {:induction false} NoNameIsOpenTwice(r: Resources, acts: seq<Action>)
    requires HandedOver(r)
    ensures OneOpenPerName(Run(Start(r), acts).r.stores)
  {
    if acts == [] {
      forall h, k | 0 <= h < k < |r.stores| ensures r.stores[h].name != r.stores[k].name {
        assert Listed(r.stores, r.hosts, h) && Listed(r.stores, r.hosts, k);
      }
    } else {
      var s := Run(Start(r), acts[..|acts| - 1]);
      NoNameIsOpenTwice(r, acts[..|acts| - 1]);
      EveryRunKeepsAccounts(r, acts[..|acts| - 1]);
      StepTurns(s, acts[|acts| - 1]);
      TurnKeepsOne(s, Next(s, acts[|acts| - 1]));
    }
  }
}
