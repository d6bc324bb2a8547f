/** Waiting for an execution to reach a state or to offer its next event. A
    waiter registers for the next change, then reads the durable facts, then
    sleeps; those who change the facts notify afterwards. */
module Waiters {
  import opened Options

  datatype Lifecycle = Negotiating | Activating | Waiting | Active | Completed | Aborted | Failed

  predicate IsTerminal(l: Lifecycle) {
    l == Completed || l == Aborted || l == Failed
  }

  /** An open callout, and whether its stored form can be shown to an agent. */
  datatype Callout = Callout(id: nat, readable: bool)

  /** A durable execution: its lifecycle, its open callout, whether the outcome
      of a completion can be read, and the cause of a stop. */
  datatype Execution = Execution(lifecycle: Lifecycle, callout: Option<Callout>, readable: bool, cause: Option<nat>)

  /** The durable facts a wait depends on. */
  datatype Facts = Facts(requestFailed: bool, activated: bool, execution: Option<Execution>)

  function Project(f: Facts): Lifecycle {
    match f.execution
    case Some(x) => if x.lifecycle == Waiting then Active else x.lifecycle
    case None => if f.requestFailed then Failed else if f.activated then Activating else Negotiating
  }

  /** Two kinds of wait have a deadline; the wait for the next event has none. */
  datatype Wait = UntilActive | UntilTerminal | ForNext

  predicate Satisfies(l: Lifecycle, wait: Wait) {
    match wait
    case UntilActive => l == Waiting || l == Active || IsTerminal(l)
    case UntilTerminal => IsTerminal(l)
    case ForNext => false
  }

  datatype Answer =
    | Reached(lifecycle: Lifecycle)
    | CalloutOpen(id: nat)
    | SessionCompleted
    | SessionFailed(cause: nat)
    | RequestFailed
    | Unreadable

  /** The next event an agent is shown: an open callout before any ending. */
  function NextEvent(x: Execution): Option<Answer> {
    if x.callout.Some? then Some(if x.callout.value.readable then CalloutOpen(x.callout.value.id) else Unreadable)
    else match x.lifecycle
      case Completed => Some(if x.readable then SessionCompleted else Unreadable)
      case Aborted => if x.cause.Some? then Some(SessionFailed(x.cause.value)) else None
      case Failed => if x.cause.Some? then Some(SessionFailed(x.cause.value)) else None
      case _ => None
  }

  /** What a wait returns when it reads these facts; nothing makes it sleep. */
  function Reads(f: Facts, wait: Wait): Option<Answer> {
    match wait
    case ForNext => if f.execution.Some? then NextEvent(f.execution.value) else None
    case _ => if Satisfies(Project(f), wait) then Some(Reached(Project(f))) else None
  }

  /** What a call may tell of these facts: a call for the next event also looks
      for a failed request, once, before it begins to wait. */
  predicate Tells(f: Facts, wait: Wait, answer: Answer) {
    Reads(f, wait) == Some(answer) || (wait == ForNext && f.requestFailed && answer == RequestFailed)
  }

  // ------------------------------------------------------------- the world

  /** A call for the next event asks whether the request failed, and looks for
      an event, before its wait begins. A waiter that registered knows how many
      notifications went before. */
  datatype Pc =
    | Asking
    | Looking
    | Begin
    | Registered(at: nat)
    | Asleep(at: nat)
    | Returned(answer: Answer)
    | TimedOut
    | ReadError

  datatype Waiter = Waiter(wait: Wait, pc: Pc)

  /** `pending` messages wait for the supervisor, which notifies after handling
      each; the tasks in `owing` changed the facts and have yet to notify. */
  datatype World = World(
    facts: Facts,
    calls: nat,
    pending: nat,
    handling: bool,
    alive: bool,
    owing: set<nat>,
    waiters: seq<Waiter>)

  datatype Action =
    | ActorCommits(facts: Facts)
    | Receive
    | HandlerCommits(facts: Facts)
    | Notify
    | StopSupervisor
    | TaskCommits(task: nat, facts: Facts)
    | TaskNotifies(task: nat)
    | Arrive(wait: Wait)
    | Step(waiter: nat)
    | Deadline(waiter: nat)
    | FailRead(waiter: nat)

  function Read(f: Facts, x: Waiter, otherwise: Pc): Waiter {
    x.(pc := if Reads(f, x.wait).Some? then Returned(Reads(f, x.wait).value) else otherwise)
  }

  function StepWaiter(w: World, x: Waiter): Waiter {
    match x.pc
    case Asking => x.(pc := if w.facts.requestFailed then Returned(RequestFailed) else Looking)
    case Looking => Read(w.facts, x, Begin)
    case Begin => x.(pc := Registered(w.calls))
    case Registered(at) => Read(w.facts, x, Asleep(at))
    case Asleep(at) => if w.calls > at then x.(pc := Begin) else x
    case _ => x
  }

  function WaiterStep(w: World, a: Action): World {
    match a
    case Arrive(wait) => w.(waiters := w.waiters + [Waiter(wait, if wait == ForNext then Asking else Begin)])
    case Step(i) => if i < |w.waiters| then w.(waiters := w.waiters[i := StepWaiter(w, w.waiters[i])]) else w
    case Deadline(i) =>
      if i < |w.waiters| && w.waiters[i].pc.Asleep? && w.waiters[i].wait != ForNext then
        w.(waiters := w.waiters[i := Read(w.facts, w.waiters[i], TimedOut)])
      else w
    case FailRead(i) =>
      if i < |w.waiters| && (w.waiters[i].pc.Asking? || w.waiters[i].pc.Looking? || w.waiters[i].pc.Registered?) then
        w.(waiters := w.waiters[i := w.waiters[i].(pc := ReadError)])
      else w
    case _ => w
  }

  /** A stopped supervisor drops the messages it has not taken, and the one it
      is handling if it does not stop in time, and gets none of the later ones. */
  function Next(w: World, a: Action): World {
    match a
    case ActorCommits(f) => w.(facts := f, pending := if w.alive then w.pending + 1 else w.pending)
    case Receive =>
      if w.alive && !w.handling && w.pending > 0 then w.(pending := w.pending - 1, handling := true) else w
    case HandlerCommits(f) => if w.handling then w.(facts := f) else w
    case Notify => if w.handling then w.(handling := false, calls := w.calls + 1) else w
    case StopSupervisor => w.(alive := false, pending := 0, handling := false)
    case TaskCommits(k, f) => w.(facts := f, owing := w.owing + {k})
    case TaskNotifies(k) => if k in w.owing then w.(owing := w.owing - {k}, calls := w.calls + 1) else w
    case _ => WaiterStep(w, a)
  }

  function Run(w: World, acts: seq<Action>): World {
    if acts == [] then w else Next(Run(w, acts[..|acts| - 1]), acts[|acts| - 1])
  }

  function Start(f: Facts): World {
    World(f, 0, 0, false, true, {}, [])
  }

  // ----------------------------------------------------------- invariant

  /** A notification is still to come. */
  predicate Owed(w: World) {
    w.pending > 0 || w.handling || w.owing != {}
  }

  predicate WaiterOk(w: World, x: Waiter) {
    match x.pc
    case Registered(at) => at <= w.calls
    case Asleep(at) => at <= w.calls && (w.alive && Reads(w.facts, x.wait).Some? ==> w.calls > at || Owed(w))
    case _ => true
  }

  predicate Sound(w: World) {
    && (!w.alive ==> w.pending == 0 && !w.handling)
    && forall i :: 0 <= i < |w.waiters| ==> WaiterOk(w, w.waiters[i])
  }

  /** Whatever happens around a waiter leaves it with a notification to come,
      while the supervisor runs. */
  lemma WorldKeepsWaiter(w: World, a: Action, x: Waiter)
    requires Sound(w) && WaiterOk(w, x)
    ensures WaiterOk(Next(w, a), x)
  {
    match a
    case TaskCommits(k, _) => assert k in Next(w, a).owing;
    case _ =>
  }

  lemma StepKeepsSound(w: World, a: Action)
    requires Sound(w)
    ensures Sound(Next(w, a))
  {
    var n := Next(w, a);
    forall i | 0 <= i < |n.waiters| ensures WaiterOk(n, n.waiters[i]) {
      if i < |w.waiters| {
        WorldKeepsWaiter(w, a, w.waiters[i]);
        assert n.waiters[i] == w.waiters[i] || (a.Step? || a.Deadline? || a.FailRead?);
      }
    }
  }

  lemma {:induction false} EveryRunIsSound(f: Facts, acts: seq<Action>)
    ensures Sound(Run(Start(f), acts))
  {
    if acts != [] {
      EveryRunIsSound(f, acts[..|acts| - 1]);
      StepKeepsSound(Run(Start(f), acts[..|acts| - 1]), acts[|acts| - 1]);
    }
  }

  // --------------------------------------------------- answers are truthful

  /** Only calls for the next event ask first. */
  predicate Kinds(w: World) {
    forall i :: 0 <= i < |w.waiters| && (w.waiters[i].pc == Asking || w.waiters[i].pc == Looking) ==>
      w.waiters[i].wait == ForNext
  }

  lemma StepKeepsKinds(w: World, a: Action)
    requires Kinds(w)
    ensures Kinds(Next(w, a))
  {
  }

  lemma {:induction false} EveryRunKeepsKinds(f: Facts, acts: seq<Action>)
    ensures Kinds(Run(Start(f), acts))
  {
    if acts != [] {
      EveryRunKeepsKinds(f, acts[..|acts| - 1]);
      StepKeepsKinds(Run(Start(f), acts[..|acts| - 1]), acts[|acts| - 1]);
    }
  }

  /** The facts were `f` at some moment of the run. */
  ghost predicate WereFacts(start: Facts, acts: seq<Action>, f: Facts) {
    exists k :: 0 <= k <= |acts| && Run(Start(start), acts[..k]).facts == f
  }

  ghost predicate Truthful(start: Facts, acts: seq<Action>, x: Waiter) {
    x.pc.Returned? ==> exists f :: WereFacts(start, acts, f) && Tells(f, x.wait, x.pc.answer)
  }

  lemma TruthStays(start: Facts, acts: seq<Action>, x: Waiter)
    requires acts != [] && Truthful(start, acts[..|acts| - 1], x)
    ensures Truthful(start, acts, x)
  {
    var before := acts[..|acts| - 1];
    if x.pc.Returned? {
      var f :| WereFacts(start, before, f) && Tells(f, x.wait, x.pc.answer);
      var k :| 0 <= k <= |before| && Run(Start(start), before[..k]).facts == f;
      assert before[..k] == acts[..k];
      assert WereFacts(start, acts, f);
    }
  }

  lemma PresentFacts(start: Facts, acts: seq<Action>)
    ensures WereFacts(start, acts, Run(Start(start), acts).facts)
  {
    assert acts[..|acts|] == acts;
  }

  lemma ReturnsWhatItReads(w: World, a: Action, i: nat)
    requires Kinds(w) && i < |Next(w, a).waiters| && Next(w, a).waiters[i].pc.Returned?
    ensures var x := Next(w, a).waiters[i];
      (i < |w.waiters| && w.waiters[i] == x) || (Next(w, a).facts == w.facts && Tells(w.facts, x.wait, x.pc.answer))
  {
  }

  /** In every run, a waiter that returned gives what some moment of the run
      made true of the durable facts. */
  lemma {:induction false} AnswersWereTrue(start: Facts, acts: seq<Action>, i: nat)
    requires i < |Run(Start(start), acts).waiters|
    ensures Truthful(start, acts, Run(Start(start), acts).waiters[i])
  {
    if acts != [] {
      var before, a := acts[..|acts| - 1], acts[|acts| - 1];
      var w, n := Run(Start(start), before), Run(Start(start), acts);
      PresentFacts(start, acts);
      EveryRunKeepsKinds(start, before);
      if n.waiters[i].pc.Returned? {
        ReturnsWhatItReads(w, a, i);
        if i < |w.waiters| && w.waiters[i] == n.waiters[i] {
          AnswersWereTrue(start, before, i);
          TruthStays(start, acts, n.waiters[i]);
        }
      }
    }
  }

  // ------------------------------------------------------ no lost wake-up

  /** A step that belongs to those who owe a notification, or to the waiter. */
  predicate Wakes(a: Action, i: nat) {
    a == Receive || a == Notify || a.TaskNotifies? || a == Step(i)
  }

  /** Such steps alone make waiter `i` return what the facts now say. */
  ghost predicate ReturnsBy(w: World, i: nat, more: seq<Action>) {
    && (forall k :: 0 <= k < |more| ==> Wakes(more[k], i))
    && i < |w.waiters| && i < |Run(w, more).waiters| && Reads(w.facts, w.waiters[i].wait).Some?
    && Run(w, more).waiters[i].pc == Returned(Reads(w.facts, w.waiters[i].wait).value)
  }

  /** Asleep on facts that would end the wait. */
  predicate Ready(w: World, i: nat) {
    i < |w.waiters| && w.waiters[i].pc.Asleep? && Reads(w.facts, w.waiters[i].wait).Some?
  }

  /** The supervisor was stopped, no task owes a notification, and there was
      none since waiter `i` registered. */
  predicate Stranded(w: World, i: nat) {
    i < |w.waiters| && w.waiters[i].pc.Asleep? && !w.alive && w.owing == {} && w.calls <= w.waiters[i].pc.at
  }

  lemma RunOn(w: World, acts: seq<Action>, a: Action)
    ensures Run(w, acts + [a]) == Next(Run(w, acts), a)
  {
    assert (acts + [a])[..|acts|] == acts;
  }

  lemma {:induction false} RunConcat(w: World, a: seq<Action>, b: seq<Action>)
    ensures Run(w, a + b) == Run(Run(w, a), b)
  {
    if b == [] {
      assert a + b == a;
    } else {
      assert (a + b)[..|a + b| - 1] == a + b[..|b| - 1];
      RunConcat(w, a, b[..|b| - 1]);
    }
  }

  /** A waiter notified since it registered needs three steps of its own. */
  lemma AwakeReturns(w: World, i: nat)
    requires Ready(w, i) && w.calls > w.waiters[i].pc.at
    ensures ReturnsBy(w, i, [Step(i)] + [Step(i)] + [Step(i)])
  {
    RunOn(w, [], Step(i));
    assert [] + [Step(i)] == [Step(i)];
    RunOn(w, [Step(i)], Step(i));
    RunOn(w, [Step(i)] + [Step(i)], Step(i));
  }

  /** Some steps of those who owe a notification deliver one. */
  ghost predicate DeliversBy(w: World, more: seq<Action>) {
    && |more| <= 2 && (forall k :: 0 <= k < |more| ==> more[k] == Receive || more[k] == Notify || more[k].TaskNotifies?)
    && Run(w, more).facts == w.facts && Run(w, more).waiters == w.waiters && Run(w, more).calls > w.calls
  }

  lemma OneStep(w: World, a: Action)
    ensures Run(w, [a]) == Next(w, a)
  {
    RunOn(w, [], a);
    assert [] + [a] == [a];
  }

  lemma HandlerDelivers(w: World)
    requires w.handling
    ensures DeliversBy(w, [Notify])
  {
    OneStep(w, Notify);
  }

  lemma MessageDelivers(w: World)
    requires w.alive && !w.handling && w.pending > 0
    ensures DeliversBy(w, [Receive] + [Notify])
  {
    OneStep(w, Receive);
    RunOn(w, [Receive], Notify);
  }

  lemma TaskDelivers(w: World, k: nat)
    requires k in w.owing
    ensures DeliversBy(w, [TaskNotifies(k)])
  {
    OneStep(w, TaskNotifies(k));
  }

  lemma Delivers(w: World)
    requires Sound(w) && Owed(w)
    ensures exists more :: DeliversBy(w, more)
  {
    if w.handling {
      HandlerDelivers(w);
    } else if w.pending > 0 {
      MessageDelivers(w);
    } else {
      var k :| k in w.owing;
      TaskDelivers(w, k);
    }
  }

  lemma OwedReturns(w: World, i: nat)
    requires Sound(w) && Ready(w, i) && Owed(w)
    ensures exists more :: ReturnsBy(w, i, more) && |more| <= 5
  {
    Delivers(w);
    var more :| DeliversBy(w, more);
    var n, own := Run(w, more), [Step(i)] + [Step(i)] + [Step(i)];
    assert WaiterOk(w, w.waiters[i]);
    AwakeReturns(n, i);
    RunConcat(w, more, own);
    assert ReturnsBy(w, i, more + own);
  }

  /** With nothing notified and nothing owed, those steps change nothing. */
  lemma {:induction false} NothingWakes(w: World, i: nat, more: seq<Action>)
    requires i < |w.waiters| && w.waiters[i].pc.Asleep? && w.calls <= w.waiters[i].pc.at && !Owed(w)
    requires forall k :: 0 <= k < |more| ==> Wakes(more[k], i)
    ensures Run(w, more) == w
  {
    if more != [] {
      NothingWakes(w, i, more[..|more| - 1]);
      assert Wakes(more[|more| - 1], i);
      assert w.waiters[i := w.waiters[i]] == w.waiters;
    }
  }

  lemma WakesExactly(w: World, i: nat)
    requires Sound(w) && Ready(w, i)
    ensures (exists more :: ReturnsBy(w, i, more)) <==> w.calls > w.waiters[i].pc.at || Owed(w)
    ensures (exists more :: ReturnsBy(w, i, more)) <==> !Stranded(w, i)
    ensures !Stranded(w, i) ==> exists more :: ReturnsBy(w, i, more) && |more| <= 5
  {
    assert WaiterOk(w, w.waiters[i]);
    if w.calls > w.waiters[i].pc.at {
      AwakeReturns(w, i);
    } else if Owed(w) {
      OwedReturns(w, i);
    } else {
      forall more | ReturnsBy(w, i, more) ensures false {
        NothingWakes(w, i, more);
      }
    }
  }

  /** In every run, for every kind of wait: a waiter asleep on facts that would
      end its wait can be brought to return them, by the steps already owed
      and its own, exactly when it was notified or a notification is owed; and
      that fails exactly when the supervisor was stopped, no task owes a
      notification and none was made since the waiter registered. */
  lemma WakeupsExactly(f: Facts, acts: seq<Action>, i: nat)
    requires Ready(Run(Start(f), acts), i)
    ensures var w := Run(Start(f), acts);
      && ((exists more :: ReturnsBy(w, i, more)) <==> w.calls > w.waiters[i].pc.at || Owed(w))
      && ((exists more :: ReturnsBy(w, i, more)) <==> !Stranded(w, i))
  {
    EveryRunIsSound(f, acts);
    WakesExactly(Run(Start(f), acts), i);
  }

  /** So under a running supervisor no wake-up is lost, in any run: at most
      five owed and own steps make the waiter return. */
  lemma NoWakeupIsLost(f: Facts, acts: seq<Action>, i: nat)
    requires Ready(Run(Start(f), acts), i) && Run(Start(f), acts).alive
    ensures exists more :: ReturnsBy(Run(Start(f), acts), i, more) && |more| <= 5
  {
    EveryRunIsSound(f, acts);
    WakesExactly(Run(Start(f), acts), i);
  }

  // -------------------------------------------------- a stopped supervisor

  /** Anything but a task that changes the facts itself, and but the deadline
      of waiter `i`. */
  predicate LeavesAlone(a: Action, i: nat) {
    !a.TaskCommits? && a != Deadline(i)
  }

  /** A stranded waiter sleeps on, whatever the actor, other waiters and the
      clock do, until a task commits and notifies. The wait for the next event
      has not even a deadline to end it. */
  lemma {:induction false} StrandedStays(w: World, i: nat, acts: seq<Action>)
    requires Sound(w) && Stranded(w, i)
    requires forall k :: 0 <= k < |acts| ==> LeavesAlone(acts[k], i) || (acts[k] == Deadline(i) && w.waiters[i].wait == ForNext)
    ensures Sound(Run(w, acts)) && Stranded(Run(w, acts), i) && Run(w, acts).waiters[i] == w.waiters[i]
  {
    if acts != [] {
      var before := acts[..|acts| - 1];
      StrandedStays(w, i, before);
      StepKeepsSound(Run(w, before), acts[|acts| - 1]);
    }
  }

  /** A deadline ends a stranded wait for a state, and with the right answer. */
  lemma DeadlineEnds(w: World, i: nat)
    requires Stranded(w, i) && w.waiters[i].wait != ForNext
    ensures var x := Next(w, Deadline(i)).waiters[i];
      x.pc == if Reads(w.facts, x.wait).Some? then Returned(Reads(w.facts, x.wait).value) else TimedOut
  {
  }

  /** What a first caller does until it sleeps. */
  function FallAsleep(wait: Wait): seq<Action> {
    if wait == ForNext then [Arrive(wait)] + [Step(0)] + [Step(0)] + [Step(0)] + [Step(0)]
    else [Arrive(wait)] + [Step(0)] + [Step(0)]
  }

  lemma FallsAsleep(f: Facts, wait: Wait)
    requires Reads(f, wait).None? && (wait == ForNext ==> !f.requestFailed)
    ensures Run(Start(f), FallAsleep(wait)) == Start(f).(waiters := [Waiter(wait, Asleep(0))])
  {
    var w0, a := Start(f), [Arrive(wait)];
    OneStep(w0, Arrive(wait));
    RunOn(w0, a, Step(0));
    RunOn(w0, a + [Step(0)], Step(0));
    RunOn(w0, a + [Step(0)] + [Step(0)], Step(0));
    RunOn(w0, a + [Step(0)] + [Step(0)] + [Step(0)], Step(0));
  }

  /** A waiter of any kind is stranded by stopping the supervisor and letting
      the actor commit what it waits for. */
  lemma StoppedSupervisorStrands(f: Facts, g: Facts, wait: Wait)
    requires Reads(f, wait).None? && (wait == ForNext ==> !f.requestFailed) && Reads(g, wait).Some?
    ensures var w := Run(Start(f), FallAsleep(wait) + [StopSupervisor] + [ActorCommits(g)]);
      Ready(w, 0) && Stranded(w, 0)
  {
    FallsAsleep(f, wait);
    RunOn(Start(f), FallAsleep(wait), StopSupervisor);
    RunOn(Start(f), FallAsleep(wait) + [StopSupervisor], ActorCommits(g));
  }

  // ------------------------------------------- a request that fails meanwhile

  /** A call for the next event that has begun to wait. */
  predicate WaitsForNext(x: Waiter) {
    x.wait == ForNext && (x.pc.Begin? || x.pc.Registered? || x.pc.Asleep?)
  }

  /** There is no execution at any moment of the run, its start included. */
  ghost predicate NeverStarted(w: World, acts: seq<Action>) {
    forall k :: 0 <= k <= |acts| ==> Run(w, acts[..k]).facts.execution.None?
  }

  lemma NeverStartedBefore(w: World, acts: seq<Action>)
    requires acts != [] && NeverStarted(w, acts)
    ensures NeverStarted(w, acts[..|acts| - 1])
    ensures Run(w, acts[..|acts| - 1]).facts.execution.None?
  {
    var before := acts[..|acts| - 1];
    forall k | 0 <= k <= |before| ensures Run(w, before[..k]).facts.execution.None? {
      assert before[..k] == acts[..k];
    }
    assert acts[..|before|] == before;
  }

  /** A wait for the next event that goes on, or whose read failed. */
  predicate StillWaits(x: Waiter) {
    WaitsForNext(x) || (x.wait == ForNext && x.pc == ReadError)
  }

  lemma StepLeavesWaiting(w: World, i: nat, a: Action)
    requires i < |w.waiters| && StillWaits(w.waiters[i]) && w.facts.execution.None?
    ensures i < |Next(w, a).waiters| && StillWaits(Next(w, a).waiters[i])
  {
  }

  /** Once it waits, a call for the next event is never told of a request that
      fails without an execution, however long the run, whoever commits the
      failure and however often it is notified. */
  lemma {:induction false} WaitingNextIsNotTold(w: World, i: nat, acts: seq<Action>)
    requires i < |w.waiters| && WaitsForNext(w.waiters[i]) && NeverStarted(w, acts)
    ensures var n := Run(w, acts); i < |n.waiters| && StillWaits(n.waiters[i])
  {
    if acts != [] {
      NeverStartedBefore(w, acts);
      WaitingNextIsNotTold(w, i, acts[..|acts| - 1]);
      StepLeavesWaiting(Run(w, acts[..|acts| - 1]), i, acts[|acts| - 1]);
    }
  }

  /** Without an execution only the asking step of a call can return. */
  lemma OnlyAskingTells(w: World, i: nat)
    requires i < |w.waiters| && w.waiters[i].wait == ForNext && !w.waiters[i].pc.Returned? && w.facts.execution.None?
    ensures Next(w, Step(i)).waiters[i].pc.Returned? <==> w.waiters[i].pc == Asking && w.facts.requestFailed
  {
  }

  lemma OnlyFailuresTold(f: Facts, acts: seq<Action>, x: Waiter)
    requires NeverStarted(Start(f), acts) && Truthful(f, acts, x) && x.wait == ForNext
    ensures x.pc.Returned? ==> x.pc.answer == RequestFailed
  {
    if x.pc.Returned? {
      var g :| WereFacts(f, acts, g) && Tells(g, ForNext, x.pc.answer);
      var k :| 0 <= k <= |acts| && Run(Start(f), acts[..k]).facts == g;
    }
  }

  /** In every run without an execution a call for the next event returns
      nothing but a failed request, and its next step returns exactly if it is
      the one that asks and the request has failed by then. */
  lemma NextWithoutExecution(f: Facts, acts: seq<Action>, i: nat)
    requires NeverStarted(Start(f), acts) && i < |Run(Start(f), acts).waiters|
    requires Run(Start(f), acts).waiters[i].wait == ForNext
    ensures var w := Run(Start(f), acts); w.waiters[i].pc.Returned? ==> w.waiters[i].pc.answer == RequestFailed
    ensures var w := Run(Start(f), acts); !w.waiters[i].pc.Returned? ==>
      (Next(w, Step(i)).waiters[i].pc.Returned? <==> w.waiters[i].pc == Asking && w.facts.requestFailed)
  {
    var w := Run(Start(f), acts);
    assert acts[..|acts|] == acts;
    AnswersWereTrue(f, acts, i);
    OnlyFailuresTold(f, acts, w.waiters[i]);
    if !w.waiters[i].pc.Returned? {
      OnlyAskingTells(w, i);
    }
  }

  /** A task records facts while the first waiter sleeps, and notifies, and the
      waiter looks. */
  function RecordedMeanwhile(k: nat, g: Facts): seq<Action> {
    [TaskCommits(k, g)] + [TaskNotifies(k)] + [Step(0)] + [Step(0)] + [Step(0)]
  }

  lemma SleepsAgain(w: World, g: Facts, k: nat)
    requires w.waiters == [Waiter(ForNext, Asleep(0))] && w.calls == 0 && w.owing == {} && g.execution.None?
    ensures Run(w, RecordedMeanwhile(k, g)) == w.(facts := g, calls := 1, waiters := [Waiter(ForNext, Asleep(1))])
  {
    var a := [TaskCommits(k, g)];
    OneStep(w, TaskCommits(k, g));
    RunOn(w, a, TaskNotifies(k));
    RunOn(w, a + [TaskNotifies(k)], Step(0));
    RunOn(w, a + [TaskNotifies(k)] + [Step(0)], Step(0));
    RunOn(w, a + [TaskNotifies(k)] + [Step(0)] + [Step(0)], Step(0));
  }

  lemma SecondCallIsTold(w: World)
    requires |w.waiters| == 1 && w.facts.requestFailed
    ensures Run(w, [Arrive(ForNext)] + [Step(1)]).waiters == w.waiters + [Waiter(ForNext, Returned(RequestFailed))]
  {
    OneStep(w, Arrive(ForNext));
    RunOn(w, [Arrive(ForNext)], Step(1));
  }

  /** A request fails, and is announced, while a call for the next event
      sleeps: the call is woken, reads, and sleeps again, with the supervisor
      running, nothing owed, and facts that end a wait for the end; a second
      call is told at once. */
  lemma WaitingNextMissesTheFailure(f: Facts, g: Facts, k: nat)
    requires f.execution.None? && !f.requestFailed && g.execution.None? && g.requestFailed
    ensures var w := Run(Start(f), FallAsleep(ForNext) + RecordedMeanwhile(k, g));
      && w.waiters == [Waiter(ForNext, Asleep(1))] && w.calls == 1 && w.alive && !Owed(w)
      && Reads(w.facts, UntilTerminal) == Some(Reached(Failed))
      && Run(w, [Arrive(ForNext)] + [Step(1)]).waiters == w.waiters + [Waiter(ForNext, Returned(RequestFailed))]
  {
    FallsAsleep(f, ForNext);
    RunConcat(Start(f), FallAsleep(ForNext), RecordedMeanwhile(k, g));
    SleepsAgain(Run(Start(f), FallAsleep(ForNext)), g, k);
    SecondCallIsTold(Run(Start(f), FallAsleep(ForNext) + RecordedMeanwhile(k, g)));
  }

  /** A call for the next event that finds one as it arrives is given it at
      once, before it waits, unless its request has failed. */
  lemma ArrivingNextIsGiven(w: World, answer: Answer)
    requires !w.facts.requestFailed && Reads(w.facts, ForNext) == Some(answer)
    ensures var i := |w.waiters|;
      Run(w, [Arrive(ForNext)] + [Step(i)] + [Step(i)]) == w.(waiters := w.waiters + [Waiter(ForNext, Returned(answer))])
  {
    var i := |w.waiters|;
    var one := w.(waiters := w.waiters + [Waiter(ForNext, Asking)]);
    var two := w.(waiters := w.waiters + [Waiter(ForNext, Looking)]);
    RunOn(w, [], Arrive(ForNext));
    assert [] + [Arrive(ForNext)] == [Arrive(ForNext)];
    RunOn(w, [Arrive(ForNext)], Step(i));
    assert Next(one, Step(i)) == two by {
      assert one.waiters[i := Waiter(ForNext, Looking)] == two.waiters;
    }
    RunOn(w, [Arrive(ForNext)] + [Step(i)], Step(i));
    assert two.waiters[i := Waiter(ForNext, Returned(answer))] == w.waiters + [Waiter(ForNext, Returned(answer))];
  }

  /** Whoever changes the facts owes a notification, except to a supervisor
      that was stopped. */
  lemma CommitsOwe(w: World, f: Facts, task: nat)
    ensures var n := Next(w, ActorCommits(f)); n.facts == f && (w.alive ==> Owed(n))
    ensures var n := Next(w, HandlerCommits(f)); w.handling ==> n.facts == f && Owed(n)
    ensures var n := Next(w, TaskCommits(task, f)); n.facts == f && Owed(n)
  {
    assert task in Next(w, TaskCommits(task, f)).owing;
  }

  function Commits(acts: seq<Action>): nat {
    if acts == [] then 0 else Commits(acts[..|acts| - 1]) + (if acts[|acts| - 1].ActorCommits? then 1 else 0)
  }

  /** How many of the notifications of a run were made by tasks. */
  function TaskCalls(w: World, acts: seq<Action>): nat {
    if acts == [] then 0
    else
      var before, a := acts[..|acts| - 1], acts[|acts| - 1];
      TaskCalls(w, before) + (if a.TaskNotifies? && a.task in Run(w, before).owing then 1 else 0)
  }

  /** In every run without a stop of the supervisor, each commit of the actor
      is waiting for the supervisor, being handled, or was notified. */
  lemma {:induction false} EveryCommitIsNotified(f: Facts, acts: seq<Action>)
    requires StopSupervisor !in acts
    ensures var w := Run(Start(f), acts);
      w.alive && w.calls + w.pending + (if w.handling then 1 else 0) == Commits(acts) + TaskCalls(Start(f), acts)
  {
    if acts != [] {
      var before, a := acts[..|acts| - 1], acts[|acts| - 1];
      EveryCommitIsNotified(f, before);
      assert a in acts;
      CountsStep(Run(Start(f), before), a);
    }
  }

  lemma CountsStep(w: World, a: Action)
    requires w.alive && a != StopSupervisor
    ensures var n := Next(w, a);
      && n.alive
      && n.calls + n.pending + (if n.handling then 1 else 0) ==
         w.calls + w.pending + (if w.handling then 1 else 0)
         + (if a.ActorCommits? then 1 else 0) + (if a.TaskNotifies? && a.task in w.owing then 1 else 0)
  {
  }

  /** The call is over. */
  predicate Ended(x: Waiter) {
    x.pc.Returned? || x.pc == TimedOut || x.pc == ReadError
  }

  lemma StepLeavesEnded(w: World, i: nat, a: Action)
    requires i < |w.waiters| && Ended(w.waiters[i])
    ensures i < |Next(w, a).waiters| && Next(w, a).waiters[i] == w.waiters[i]
  {
  }

  /** A read that fails ends its call, and a call that ended stays as it
      ended, whatever happens. */
  lemma {:induction false} EndedStays(w: World, i: nat, acts: seq<Action>)
    requires i < |w.waiters|
    ensures w.waiters[i].pc.Asking? || w.waiters[i].pc.Looking? || w.waiters[i].pc.Registered? ==>
      Next(w, FailRead(i)).waiters[i] == w.waiters[i].(pc := ReadError)
    ensures Ended(w.waiters[i]) ==> i < |Run(w, acts).waiters| && Run(w, acts).waiters[i] == w.waiters[i]
  {
    if acts != [] && Ended(w.waiters[i]) {
      EndedStays(w, i, acts[..|acts| - 1]);
      StepLeavesEnded(Run(w, acts[..|acts| - 1]), i, acts[|acts| - 1]);
    }
  }

  // ---------------------------------------------------- what is waited for

  /** What a wait for a state returns, for every facts: an ending of the
      execution as it is stored; Active for one that is Active or Waiting, if
      that was waited for; Failed for a request that failed before there was an
      execution; and else it goes on waiting, with the state shown meanwhile. */
  lemma AwaitMeaning(f: Facts)
    ensures f.execution.Some? ==>
      match f.execution.value.lifecycle
      case Completed => Reads(f, UntilTerminal) == Reads(f, UntilActive) == Some(Reached(Completed))
      case Aborted => Reads(f, UntilTerminal) == Reads(f, UntilActive) == Some(Reached(Aborted))
      case Failed => Reads(f, UntilTerminal) == Reads(f, UntilActive) == Some(Reached(Failed))
      case Waiting | Active =>
        Reads(f, UntilTerminal) == None && Reads(f, UntilActive) == Some(Reached(Active)) && Project(f) == Active
      case Negotiating | Activating =>
        Reads(f, UntilTerminal) == Reads(f, UntilActive) == None && Project(f) == f.execution.value.lifecycle
    ensures f.execution.None? && f.requestFailed ==>
      Reads(f, UntilTerminal) == Reads(f, UntilActive) == Some(Reached(Failed))
    ensures f.execution.None? && !f.requestFailed ==>
      Reads(f, UntilTerminal) == Reads(f, UntilActive) == None
      && (f.activated ==> Project(f) == Activating) && (!f.activated ==> Project(f) == Negotiating)
  {
  }

  /** An execution without an open callout that ended in one of these. */
  predicate EndedIn(f: Facts, ends: set<Lifecycle>) {
    f.execution.Some? && f.execution.value.callout.None? && f.execution.value.lifecycle in ends
  }

  /** What a wait for the next event returns: an open callout, even of an ended
      execution; else a completion, or a stop whose cause is recorded. What
      cannot be shown is an error. So nothing while there is no execution. */
  lemma NextMeaning(f: Facts)
    ensures Reads(f, ForNext).Some? <==>
      f.execution.Some? && var x := f.execution.value;
        || x.callout.Some?
        || x.lifecycle == Completed
        || ((x.lifecycle == Aborted || x.lifecycle == Failed) && x.cause.Some?)
    ensures forall k: nat :: Reads(f, ForNext) == Some(CalloutOpen(k)) <==>
      f.execution.Some? && f.execution.value.callout == Some(Callout(k, true))
    ensures Reads(f, ForNext) == Some(SessionCompleted) <==> EndedIn(f, {Completed}) && f.execution.value.readable
    ensures forall k: nat :: Reads(f, ForNext) == Some(SessionFailed(k)) <==>
      EndedIn(f, {Aborted, Failed}) && f.execution.value.cause == Some(k)
    ensures Reads(f, ForNext) == Some(Unreadable) <==>
      || (f.execution.Some? && f.execution.value.callout.Some? && !f.execution.value.callout.value.readable)
      || (EndedIn(f, {Completed}) && !f.execution.value.readable)
  {
  }
}
