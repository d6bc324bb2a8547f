/** One coordinated run over several Hosts: create an execution on each, drive
    them to their end, and accept a result only on unanimous evidence. */
module Coordinator {
  import opened Options

  type Peer = nat
  type ExecId = nat
  type Session = nat

  const MAX_PARTICIPANTS: nat := 0xFFFF

  // -------------------------------------------------- results by position

  /** Tasks finish in any order, each with the position it was started for. */
  datatype Arrival<T> = Arrival(index: nat, result: Option<T>)

  /** Each of the first `n` positions arrives exactly once. */
  ghost predicate EachOnce<T>(arrivals: seq<Arrival<T>>, n: nat) {
    && |arrivals| == n
    && (forall k :: 0 <= k < n ==> arrivals[k].index < n)
    && (forall k, m :: 0 <= k < m < n ==> arrivals[k].index != arrivals[m].index)
  }

  /** `values` holds every arrived result at its position. */
  ghost predicate Placed<T>(arrivals: seq<Arrival<T>>, values: seq<T>) {
    forall k :: 0 <= k < |arrivals| ==>
      arrivals[k].index < |values| && arrivals[k].result == Some(values[arrivals[k].index])
  }

  lemma {:induction false} CountIndices(indices: set<nat>, n: nat)
    requires forall x :: x in indices ==> x < n
    ensures |indices| <= n
  {
    if n > 0 {
      var rest := indices - {n - 1};
      CountIndices(rest, n - 1);
      assert indices <= rest + {n - 1};
    }
  }

  /** If every position arrives once, none is left out. */
  lemma EveryPositionArrives<T>(arrivals: seq<Arrival<T>>, n: nat, p: nat)
    requires EachOnce(arrivals, n) && p < n
    ensures exists k :: 0 <= k < n && arrivals[k].index == p
  {
    if forall k :: 0 <= k < n ==> arrivals[k].index != p {
      var seen := set k | 0 <= k < n :: arrivals[k].index;
      DistinctPositions(arrivals, n, n);
      assert p !in seen;
      CountIndices(seen + {p}, n);
    }
  }

  lemma {:induction false} DistinctPositions<T>(arrivals: seq<Arrival<T>>, n: nat, m: nat)
    requires EachOnce(arrivals, n) && m <= n
    ensures |set k | 0 <= k < m :: arrivals[k].index| == m
  {
    var seen := set k | 0 <= k < m :: arrivals[k].index;
    if m > 0 {
      var before := set k | 0 <= k < m - 1 :: arrivals[k].index;
      DistinctPositions(arrivals, n, m - 1);
      assert seen == before + {arrivals[m - 1].index};
      assert arrivals[m - 1].index !in before;
    } else {
      assert seen == {};
    }
  }

  /** Put results into the order they were asked for; any failure fails all. */
  method InOrder<T>(arrivals: seq<Arrival<T>>, n: nat) returns (r: Option<seq<T>>)
    requires EachOnce(arrivals, n)
    ensures r.Some? <==> forall k :: 0 <= k < n ==> arrivals[k].result.Some?
    ensures r.Some? ==> |r.value| == n && Placed(arrivals, r.value)
  {
    var slots: seq<Option<T>> := seq(n, _ => None);
    for k := 0 to n
      invariant |slots| == n
      invariant forall m :: 0 <= m < k ==> arrivals[m].result.Some? && slots[arrivals[m].index] == arrivals[m].result
    {
      if arrivals[k].result.None? {
        return None;
      }
      slots := slots[arrivals[k].index := arrivals[k].result];
    }
    forall p | 0 <= p < n ensures slots[p].Some? {
      EveryPositionArrives(arrivals, n, p);
    }
    r := Some(seq(n, i requires 0 <= i < n && |slots| == n && slots[i].Some? => slots[i].value));
  }

  // ------------------------------------------------------------ connecting

  predicate Distinct(xs: seq<nat>) {
    forall i, j :: 0 <= i < j < |xs| ==> xs[i] != xs[j]
  }

  /** Refuse a value seen before. */
  method AllDistinct(xs: seq<nat>) returns (ok: bool)
    ensures ok <==> Distinct(xs)
  {
    var seen: set<nat> := {};
    for i := 0 to |xs|
      invariant forall x :: x in seen <==> x in xs[..i]
      invariant Distinct(xs[..i])
    {
      if xs[i] in seen {
        var k :| 0 <= k < i && xs[k] == xs[i];
        return false;
      }
      seen := seen + {xs[i]};
      assert xs[..i + 1] == xs[..i] + [xs[i]];
    }
    assert xs[..|xs|] == xs;
    return true;
  }

  /** The identities of the selected Hosts, in the order selected, whichever
      answered first; no two may share one. */
  method ConnectHosts(arrivals: seq<Arrival<Peer>>, n: nat) returns (r: Option<seq<Peer>>)
    requires EachOnce(arrivals, n)
    ensures r.Some? ==> |r.value| == n && Placed(arrivals, r.value) && Distinct(r.value)
    ensures r.None? ==> forall peers: seq<Peer> :: |peers| == n && Placed(arrivals, peers) ==> !Distinct(peers)
  {
    var ordered := InOrder(arrivals, n);
    if ordered.None? {
      return None;
    }
    forall peers: seq<Peer> | |peers| == n && Placed(arrivals, peers) ensures peers == ordered.value {
      PlacedOnce(arrivals, n, peers, ordered.value);
    }
    var distinct := AllDistinct(ordered.value);
    if !distinct {
      return None;
    }
    return ordered;
  }

  /** The results in order do not depend on the order of arrival. */
  lemma PlacedOnce<T>(arrivals: seq<Arrival<T>>, n: nat, a: seq<T>, b: seq<T>)
    requires EachOnce(arrivals, n) && |a| == |b| == n && Placed(arrivals, a) && Placed(arrivals, b)
    ensures a == b
  {
    forall p | 0 <= p < n ensures a[p] == b[p] {
      EveryPositionArrives(arrivals, n, p);
      var k :| 0 <= k < n && arrivals[k].index == p;
      assert arrivals[k].result == Some(a[p]);
    }
  }

  // ------------------------------------------------------------- stopping

  datatype Participant = Participant(host: nat, peer: Peer, exec: ExecId)

  datatype CancelReply = Acknowledged | CancelUnexpected | NotFound | CancelError | CancelTimeout

  datatype StatusReply = StatusTerminal | StatusLive | StatusOther

  /** What a Host answers when asked to withdraw an execution; the status is
      asked for only when the Host does not know the creation. */
  datatype StopReply = StopReply(cancel: CancelReply, status: StatusReply)

  /** Withdrawn now, or ended before. */
  predicate Stopped(reply: StopReply) {
    reply.cancel == Acknowledged || (reply.cancel == NotFound && reply.status == StatusTerminal)
  }

  /** Open a negotiation for so many, or join the one of another Host. */
  datatype Role = Creator(count: nat) | Joiner(creator: Peer, negotiation: nat)

  datatype Request = New(who: Participant, role: Role) | Cancel(who: Participant) | Status(who: Participant)

  function CancelsOf(log: seq<Request>): seq<Participant> {
    if log == [] then []
    else
      var front := CancelsOf(log[..|log| - 1]);
      if log[|log| - 1].Cancel? then front + [log[|log| - 1].who] else front
  }

  function CreationsOf(log: seq<Request>): seq<Participant> {
    if log == [] then []
    else
      var front := CreationsOf(log[..|log| - 1]);
      if log[|log| - 1].New? then front + [log[|log| - 1].who] else front
  }

  lemma Logged(log: seq<Request>, x: Request)
    ensures CancelsOf(log + [x]) == CancelsOf(log) + (if x.Cancel? then [x.who] else [])
    ensures CreationsOf(log + [x]) == CreationsOf(log) + (if x.New? then [x.who] else [])
  {
    assert (log + [x])[..|log|] == log;
  }

  /** A cancel request, and a status request to a Host that does not know the
      creation. */
  function StopRequest(who: Participant, reply: StopReply): seq<Request> {
    if reply.cancel == NotFound then [Cancel(who), Status(who)] else [Cancel(who)]
  }

  function StopRequests(participants: seq<Participant>, replies: seq<StopReply>): seq<Request>
    requires |replies| == |participants|
  {
    if participants == [] then []
    else
      var n := |participants| - 1;
      StopRequests(participants[..n], replies[..n]) + StopRequest(participants[n], replies[n])
  }

  lemma {:induction false} LogsConcat(a: seq<Request>, b: seq<Request>)
    ensures CancelsOf(a + b) == CancelsOf(a) + CancelsOf(b) && CreationsOf(a + b) == CreationsOf(a) + CreationsOf(b)
    decreases |b|
  {
    if b == [] {
      assert a + b == a;
    } else {
      var front := b[..|b| - 1];
      assert (a + b)[..|a + b| - 1] == a + front;
      LogsConcat(a, front);
    }
  }

  lemma OneStop(who: Participant, reply: StopReply)
    ensures var more := StopRequest(who, reply);
      CancelsOf(more) == [who] && CreationsOf(more) == [] && forall i :: 0 <= i < |more| ==> !more[i].New?
  {
    Logged([], Cancel(who));
    Logged([Cancel(who)], Status(who));
    assert [] + [Cancel(who)] == [Cancel(who)] && [Cancel(who)] + [Status(who)] == [Cancel(who), Status(who)];
  }

  lemma {:induction false} StopRequestsMean(participants: seq<Participant>, replies: seq<StopReply>)
    requires |replies| == |participants|
    ensures var more := StopRequests(participants, replies);
      && CancelsOf(more) == participants && CreationsOf(more) == [] && forall i :: 0 <= i < |more| ==> !more[i].New?
  {
    if participants != [] {
      var n := |participants| - 1;
      var front, last := StopRequests(participants[..n], replies[..n]), StopRequest(participants[n], replies[n]);
      StopRequestsMean(participants[..n], replies[..n]);
      OneStop(participants[n], replies[n]);
      LogsConcat(front, last);
      assert StopRequests(participants, replies) == front + last;
    }
  }

  /** Ask every participant's Host to withdraw its execution. */
  method StopParticipants(participants: seq<Participant>, replies: seq<StopReply>, log: seq<Request>)
    returns (ok: bool, log': seq<Request>)
    requires |replies| == |participants|
    ensures ok <==> forall k :: 0 <= k < |replies| ==> Stopped(replies[k])
    ensures log' == log + StopRequests(participants, replies)
    ensures CancelsOf(log') == CancelsOf(log) + participants && CreationsOf(log') == CreationsOf(log)
    ensures forall i :: |log| <= i < |log'| ==> !log'[i].New?
  {
    ok, log' := true, log;
    for i := 0 to |participants|
      invariant ok <==> forall k :: 0 <= k < i ==> Stopped(replies[k])
      invariant log' == log + StopRequests(participants[..i], replies[..i])
    {
      var who, reply := participants[i], replies[i];
      log' := log' + [Cancel(who)];
      assert participants[..i + 1][..i] == participants[..i] && replies[..i + 1][..i] == replies[..i];
      match reply.cancel
      case Acknowledged =>
      case NotFound =>
        log' := log' + [Status(who)];
        ok := ok && reply.status == StatusTerminal;
      case CancelUnexpected | CancelError | CancelTimeout => ok := false;
    }
    assert participants[..|participants|] == participants && replies[..|replies|] == replies;
    StopRequestsMean(participants, replies);
    LogsConcat(log, StopRequests(participants, replies));
  }

  // ------------------------------------------------------------- creating

  datatype CreatorReply = Created(exec: ExecId, negotiation: Option<nat>) | CreatorUnexpected | CreatorFailed

  datatype JoinReply = Joined(exec: ExecId) | JoinUnexpected | JoinFailed

  /** The execution identities drawn at random, what the Hosts answer, and
      whether a cancellation is seen: first of all, before each joiner is
      asked, and at the end. A cancellation is never taken back. */
  datatype Creation = Creation(
    draws: seq<ExecId>,
    creator: CreatorReply,
    joins: seq<JoinReply>,
    cancelled: seq<bool>,
    stops: seq<StopReply>)

  predicate Answers(c: Creation, n: nat) {
    && |c.draws| == |c.joins| == |c.stops| == n && |c.cancelled| == n + 1
    && forall i, j :: 0 <= i < j <= n && c.cancelled[i] ==> c.cancelled[j]
  }

  /** Host by host from the first on: the Host's own peer and the identity
      drawn for it. */
  predicate Addressed(asked: seq<Participant>, peers: seq<Peer>, c: Creation)
    requires Answers(c, |peers|)
  {
    && |asked| <= |peers|
    && forall i :: 0 <= i < |asked| ==>
         asked[i].host == i && asked[i].peer == peers[i] && asked[i].exec == c.draws[i]
  }

  lemma AddressedOnce(a: seq<Participant>, b: seq<Participant>, peers: seq<Peer>, c: Creation)
    requires Answers(c, |peers|) && Addressed(a, peers, c) && Addressed(b, peers, c) && |a| == |b|
    ensures a == b
  {
  }

  /** The first Host opens a negotiation for all, and every other one is sent
      to the negotiation it opened. */
  predicate RolesOk(log: seq<Request>, peers: seq<Peer>, c: Creation) {
    forall i :: 0 <= i < |log| && log[i].New? ==>
      if log[i].who.host == 0 then log[i].role == Creator(|peers|)
      else peers != [] && CreatorAgrees(c) && log[i].role == Joiner(peers[0], c.creator.negotiation.value)
  }

  /** Hosts are asked until a cancellation is seen. */
  predicate AskedUntil(c: Creation, n: nat, m: nat)
    requires Answers(c, n)
  {
    1 <= m <= n && (forall k :: 1 <= k < m ==> !c.cancelled[k]) && (m == n || c.cancelled[m])
  }

  /** The creator took the identity it was given and opened a negotiation. */
  predicate CreatorAgrees(c: Creation) {
    c.draws != [] && c.creator.Created? && c.creator.exec == c.draws[0] && c.creator.negotiation.Some?
  }

  predicate JoinersAgree(c: Creation, m: nat)
    requires m <= |c.draws| == |c.joins|
  {
    forall k :: 1 <= k < m ==> c.joins[k] == Joined(c.draws[k])
  }

  /** Everything that makes a creation succeed. */
  predicate CreationSucceeds(peers: seq<Peer>, c: Creation)
    requires Answers(c, |peers|)
  {
    && 0 < |peers| <= MAX_PARTICIPANTS && !c.cancelled[|peers|]
    && CreatorAgrees(c) && JoinersAgree(c, |peers|) && Distinct(c.draws)
  }

  /** The identities given out so far, by position. */
  predicate Drawn(ids: seq<Option<ExecId>>, c: Creation, m: nat) {
    && |ids| == |c.draws| && m <= |ids|
    && forall i :: 0 <= i < |ids| ==> ids[i] == if i < m then Some(c.draws[i]) else None
  }

  /** Ask Hosts to join until a cancellation is seen. */
  method AskJoiners(peers: seq<Peer>, c: Creation, negotiation: nat, given: seq<Option<ExecId>>, log: seq<Request>)
    returns (m: nat, failures: nat, ids: seq<Option<ExecId>>, log': seq<Request>)
    requires Answers(c, |peers|) && 0 < |peers| && Drawn(given, c, 1)
    requires CreatorAgrees(c) && negotiation == c.creator.negotiation.value
    requires Addressed(CreationsOf(log), peers, c) && |CreationsOf(log)| == 1 && CancelsOf(log) == [] && RolesOk(log, peers, c)
    ensures AskedUntil(c, |peers|, m) && (failures == 0 <==> JoinersAgree(c, m)) && Drawn(ids, c, m)
    ensures Addressed(CreationsOf(log'), peers, c) && |CreationsOf(log')| == m
    ensures CancelsOf(log') == [] && RolesOk(log', peers, c)
  {
    m, failures, ids, log' := 1, 0, given, log;
    while m < |peers| && !c.cancelled[m]
      invariant 1 <= m <= |peers| && (forall k :: 1 <= k < m ==> !c.cancelled[k])
      invariant (failures == 0 <==> JoinersAgree(c, m)) && Drawn(ids, c, m)
      invariant Addressed(CreationsOf(log'), peers, c) && |CreationsOf(log')| == m
      invariant CancelsOf(log') == [] && RolesOk(log', peers, c)
    {
      var exec := c.draws[m];
      ids := ids[m := Some(exec)];
      var asked := New(Participant(m, peers[m], exec), Joiner(peers[0], negotiation));
      Logged(log', asked);
      log' := log' + [asked];
      if c.joins[m] != Joined(exec) {
        failures := failures + 1;
      }
      m := m + 1;
    }
  }

  lemma DistinctGrows(xs: seq<nat>, k: nat)
    requires k < |xs|
    ensures Distinct(xs[..k + 1]) <==> Distinct(xs[..k]) && xs[k] !in xs[..k]
  {
    var all, front := xs[..k + 1], xs[..k];
    assert forall i :: 0 <= i < k ==> all[i] == front[i];
    if xs[k] in front {
      var i :| 0 <= i < k && front[i] == xs[k];
      assert all[i] == all[k];
    }
  }

  /** Every Host that was given an identity is a participant; count those
      whose identity was given out before. */
  method CollectParticipants(peers: seq<Peer>, c: Creation, ids: seq<Option<ExecId>>, ghost m: nat)
    returns (participants: seq<Participant>, repeats: nat)
    requires Answers(c, |peers|) && Drawn(ids, c, m)
    ensures Addressed(participants, peers, c) && |participants| == m
    ensures repeats == 0 <==> Distinct(c.draws[..m])
  {
    participants, repeats := [], 0;
    var seen: set<ExecId> := {};
    for i := 0 to |peers|
      invariant |participants| == (if i < m then i else m) && Addressed(participants, peers, c)
      invariant forall x :: x in seen <==> x in c.draws[..|participants|]
      invariant repeats == 0 <==> Distinct(c.draws[..|participants|])
    {
      if ids[i].Some? {
        var exec := ids[i].value;
        DistinctGrows(c.draws, i);
        assert c.draws[..i + 1] == c.draws[..i] + [exec];
        if exec in seen {
          repeats := repeats + 1;
        }
        seen := seen + {exec};
        participants := participants + [Participant(i, peers[i], exec)];
      }
    }
  }

  /** How many Hosts a creation asks: none if it is cancelled before, or not
      for so many Hosts; the first; and the others once that one agreed. */
  predicate AskedCount(c: Creation, n: nat, m: nat)
    requires Answers(c, n)
  {
    if c.cancelled[0] || n == 0 || n > MAX_PARTICIPANTS then m == 0
    else if !CreatorAgrees(c) then m == 1
    else AskedUntil(c, n, m)
  }

  /** A creation that succeeds asked every Host, in order, for an execution of
      its own. */
  lemma SuccessCoversEveryHost(peers: seq<Peer>, c: Creation, asked: seq<Participant>)
    requires Answers(c, |peers|) && CreationSucceeds(peers, c)
    requires Addressed(asked, peers, c) && AskedCount(c, |peers|, |asked|)
    ensures |asked| == |peers| && PeersOf(asked) == peers
    ensures forall i :: 0 <= i < |peers| ==> asked[i].host == i
    ensures forall i, j :: 0 <= i < j < |peers| ==> asked[i].exec != asked[j].exec
  {
    assert !c.cancelled[|asked|];
  }

  lemma FirstAsked(peers: seq<Peer>, c: Creation, first: Participant, log: seq<Request>)
    requires Answers(c, |peers|) && peers != [] && first == Participant(0, peers[0], c.draws[0])
    requires log == [New(first, Creator(|peers|))]
    ensures CreationsOf(log) == [first] && CancelsOf(log) == [] && Addressed([first], peers, c) && RolesOk(log, peers, c)
  {
    Logged([], log[0]);
    assert [] + [log[0]] == log;
  }

  /** Only the first Host was asked, and it did not agree. */
  method WithdrawCreator(peers: seq<Peer>, c: Creation, first: Participant, log: seq<Request>) returns (log': seq<Request>)
    requires Answers(c, |peers|) && peers != [] && CreationsOf(log) == [first] && CancelsOf(log) == [] && RolesOk(log, peers, c)
    ensures CreationsOf(log') == CancelsOf(log') == [first] && RolesOk(log', peers, c)
  {
    var _, stopped := StopParticipants([first], [c.stops[0]], log);
    return stopped;
  }

  /** Create one execution on every Host, or withdraw what was asked for. */
  method CreateExecutions(peers: seq<Peer>, c: Creation)
    returns (r: Option<seq<Participant>>, log: seq<Request>)
    requires Answers(c, |peers|)
    ensures r.Some? <==> CreationSucceeds(peers, c)
    ensures r.Some? ==> |r.value| == |peers| && Addressed(r.value, peers, c)
    ensures Addressed(CreationsOf(log), peers, c) && AskedCount(c, |peers|, |CreationsOf(log)|) && RolesOk(log, peers, c)
    ensures r.Some? ==> CancelsOf(log) == []
    ensures r.None? ==> CancelsOf(log) == CreationsOf(log) || CancelsOf(log) == []
    ensures Addressed(CancelsOf(log), peers, c)
    ensures r.None? ==> (CancelsOf(log) == CreationsOf(log) <==>
      !(c.creator.CreatorUnexpected? && !c.cancelled[0] && 0 < |peers| <= MAX_PARTICIPANTS))
  {
    log := [];
    if c.cancelled[0] {
      return None, log;
    }
    if peers == [] || |peers| > MAX_PARTICIPANTS {
      return None, log;
    }
    var ids: seq<Option<ExecId>> := seq(|peers|, _ => None);
    var first := Participant(0, peers[0], c.draws[0]);
    ids := ids[0 := Some(c.draws[0])];
    log := [New(first, Creator(|peers|))];
    FirstAsked(peers, c, first, log);
    if c.creator.CreatorUnexpected? {
      return None, log;
    }
    if c.creator.CreatorFailed? || c.creator.exec != c.draws[0] || c.creator.negotiation.None? {
      log := WithdrawCreator(peers, c, first, log);
      return None, log;
    }
    r, log := JoinOthers(peers, c, c.creator.negotiation.value, ids, log);
  }

  /** Two Hosts, and a creator that answers with another kind of success: the
      requests made are one creation and no cancel. */
  method UnexpectedCreatorIsLeft(a: Peer, b: Peer, x: ExecId, y: ExecId)
    returns (r: Option<seq<Participant>>, log: seq<Request>)
    ensures r.None? && CreationsOf(log) == [Participant(0, a, x)] && CancelsOf(log) == []
  {
    var stop := StopReply(Acknowledged, StatusLive);
    var c := Creation([x, y], CreatorUnexpected, [JoinFailed, JoinFailed], [false, false, false], [stop, stop]);
    r, log := CreateExecutions([a, b], c);
    AddressedOnce(CreationsOf(log), [Participant(0, a, x)], [a, b], c);
  }

  /** The creator agreed: bring in the others, or withdraw them all. */
  method JoinOthers(peers: seq<Peer>, c: Creation, negotiation: nat, given: seq<Option<ExecId>>, log: seq<Request>)
    returns (r: Option<seq<Participant>>, log': seq<Request>)
    requires Answers(c, |peers|) && 0 < |peers| <= MAX_PARTICIPANTS && !c.cancelled[0] && Drawn(given, c, 1)
    requires CreatorAgrees(c) && negotiation == c.creator.negotiation.value
    requires Addressed(CreationsOf(log), peers, c) && |CreationsOf(log)| == 1 && CancelsOf(log) == [] && RolesOk(log, peers, c)
    ensures r.Some? <==> CreationSucceeds(peers, c)
    ensures r.Some? ==> |r.value| == |peers| && Addressed(r.value, peers, c)
    ensures Addressed(CreationsOf(log'), peers, c) && AskedCount(c, |peers|, |CreationsOf(log')|) && RolesOk(log', peers, c)
    ensures CancelsOf(log') == (if r.Some? then [] else CreationsOf(log'))
  {
    var m, failures, ids, asked := AskJoiners(peers, c, negotiation, given, log);
    if c.cancelled[|peers|] {
      failures := failures + 1;
    }
    var participants, repeats := CollectParticipants(peers, c, ids, m);
    failures := failures + repeats;
    AddressedOnce(participants, CreationsOf(asked), peers, c);
    assert m < |peers| ==> c.cancelled[|peers|];
    assert m == |peers| ==> c.draws[..m] == c.draws;
    if failures > 0 {
      assert !CreationSucceeds(peers, c);
      var _, stopped := StopParticipants(participants, c.stops[..m], asked);
      return None, stopped;
    }
    return Some(participants), asked;
  }

  // ------------------------------------------------------------ completing

  datatype Terminal = Completed(session: Session, outcome: Option<nat>) | Failed

  /** Every Host activated session `x`. */
  ghost predicate Activated(arrivals: seq<Arrival<Session>>, x: Session) {
    forall k :: 0 <= k < |arrivals| ==> arrivals[k].result == Some(x)
  }

  lemma OneSession(arrivals: seq<Arrival<Session>>, n: nat, sessions: seq<Session>)
    requires EachOnce(arrivals, n) && |sessions| == n > 0 && Placed(arrivals, sessions)
    ensures Same(sessions) ==> Activated(arrivals, sessions[0])
    ensures (exists x :: Activated(arrivals, x)) ==> Same(sessions)
  {
    if x :| Activated(arrivals, x) {
      forall p | 0 <= p < n ensures sessions[p] == x {
        EveryPositionArrives(arrivals, n, p);
        var k :| 0 <= k < n && arrivals[k].index == p;
        assert arrivals[k].result == Some(sessions[p]);
      }
    }
  }

  /** All Hosts must activate the session that the creator did. */
  method AwaitActivation(arrivals: seq<Arrival<Session>>, n: nat) returns (r: Option<Session>)
    requires EachOnce(arrivals, n)
    ensures r.Some? <==> n > 0 && exists x :: Activated(arrivals, x)
    ensures r.Some? ==> Activated(arrivals, r.value)
  {
    var ordered := InOrder(arrivals, n);
    if ordered.None? || n == 0 {
      return None;
    }
    var same := AllSame(ordered.value);
    OneSession(arrivals, n, ordered.value);
    return if same then Some(ordered.value[0]) else None;
  }

  predicate Same<T(==)>(xs: seq<T>) {
    forall i :: 0 <= i < |xs| ==> xs[i] == xs[0]
  }

  method AllSame<T(==)>(xs: seq<T>) returns (same: bool)
    ensures same <==> Same(xs)
  {
    for i := 0 to |xs|
      invariant forall k :: 0 <= k < i ==> xs[k] == xs[0]
    {
      if xs[i] != xs[0] {
        return false;
      }
    }
    return true;
  }

  /** The Hosts agree when all completed with one session and outcome, or all
      failed, for whatever reasons. */
  method CompareTerminals(terminals: seq<Terminal>) returns (r: Option<Terminal>)
    ensures r.Some? <==> terminals != [] && Same(terminals)
    ensures r.Some? ==> r.value == terminals[0]
  {
    if terminals == [] {
      return None;
    }
    for i := 1 to |terminals|
      invariant forall k :: 0 <= k < i ==> terminals[k] == terminals[0]
    {
      match (terminals[0], terminals[i]) {
        case (Completed(session, outcome), Completed(other, otherOutcome)) =>
          if session != other || outcome != otherOutcome {
            return None;
          }
        case (Failed, Failed) =>
        case (_, _) =>
          return None;
      }
    }
    return Some(terminals[0]);
  }

  datatype StopKind = Abort | Fail

  datatype Termination = SessionEnd | StoppedBy(kind: StopKind, cause: nat)

  datatype Summary = Summary(
    receipt: nat,
    program: nat,
    session: Session,
    ensemble: seq<Peer>,
    steps: nat,
    terminal: Termination,
    outcome: Option<seq<nat>>)

  /** Field by field, the receipts must be one and the same. */
  method CompareEvidence(receipts: seq<Summary>) returns (r: Option<Summary>)
    ensures r.Some? <==> receipts != [] && Same(receipts)
    ensures r.Some? ==> r.value == receipts[0]
  {
    if receipts == [] {
      return None;
    }
    var first := receipts[0];
    for i := 1 to |receipts|
      invariant forall k :: 0 <= k < i ==> receipts[k] == first
    {
      var x := receipts[i];
      if x.receipt != first.receipt || x.program != first.program || x.session != first.session
         || x.ensemble != first.ensemble || x.steps != first.steps
         || x.terminal != first.terminal || x.outcome != first.outcome
      {
        return None;
      }
    }
    return Some(first);
  }

  datatype Verdict = AllCompleted(outcome: Option<nat>) | RunStopped | RunFailed

  function BindTerminal(live: Terminal, verified: Termination): Option<Verdict> {
    match (live, verified)
    case (Completed(_, outcome), SessionEnd) => Some(AllCompleted(outcome))
    case (Failed, StoppedBy(kind, _)) => Some(if kind == Abort then RunStopped else RunFailed)
    case (_, _) => None
  }

  function SetOf(xs: seq<Peer>): set<Peer> {
    set x | x in xs
  }

  /** Two lists of equal length over the same set, one without repetition, are
      reorderings of each other. */
  lemma SameSetIsReordering(xs: seq<Peer>, ys: seq<Peer>)
    requires Distinct(xs) && |xs| == |ys| && SetOf(xs) == SetOf(ys)
    ensures multiset(xs) == multiset(ys) && Distinct(ys)
  {
    SetSize(xs);
    SetSize(ys);
    forall x ensures multiset(xs)[x] == multiset(ys)[x] {
      CountInDistinct(xs, x);
      CountInDistinct(ys, x);
      assert x in SetOf(xs) <==> x in SetOf(ys);
    }
  }

  /** A list is without repetition exactly when its set is as large as it. */
  lemma {:induction false} SetSize(xs: seq<Peer>)
    ensures |SetOf(xs)| <= |xs| && (|SetOf(xs)| == |xs| <==> Distinct(xs))
  {
    if xs != [] {
      var front, last := xs[..|xs| - 1], xs[|xs| - 1];
      SetSize(front);
      assert xs == front + [last];
      assert SetOf(xs) == SetOf(front) + {last};
      if last in front {
        var k :| 0 <= k < |front| && front[k] == last;
        assert xs[k] == xs[|xs| - 1];
        assert SetOf(xs) == SetOf(front);
      } else {
        assert |SetOf(xs)| == |SetOf(front)| + 1;
        assert Distinct(xs) <==> Distinct(front);
      }
    }
  }

  lemma {:induction false} CountInDistinct(xs: seq<Peer>, x: Peer)
    requires Distinct(xs)
    ensures multiset(xs)[x] == if x in SetOf(xs) then 1 else 0
  {
    if xs != [] {
      var front, last := xs[..|xs| - 1], xs[|xs| - 1];
      CountInDistinct(front, x);
      assert xs == front + [last];
      assert last !in front;
    }
  }

  /** What is known once the executions were driven: the session each Host
      activated, how each ended, and each Host's verified receipt; none of
      them when a call failed. */
  datatype Evidence = Evidence(session: Session, terminals: seq<Terminal>, receipts: seq<Summary>)

  /** One receipt that every Host holds, for the program and session of this
      run, over exactly the selected Hosts, with the ending all of them saw. */
  ghost predicate Unanimous(peers: seq<Peer>, program: nat, e: Evidence, s: Summary, v: Verdict) {
    && e.receipts != [] && (forall k :: 0 <= k < |e.receipts| ==> e.receipts[k] == s)
    && s.program == program && s.session == e.session
    && multiset(s.ensemble) == multiset(peers)
    && e.terminals != []
    && (match v
        case AllCompleted(outcome) =>
          && s.terminal == SessionEnd
          && (forall k :: 0 <= k < |e.terminals| ==> e.terminals[k] == Completed(e.session, outcome))
        case RunStopped =>
          && s.terminal.StoppedBy? && s.terminal.kind == Abort
          && (forall k :: 0 <= k < |e.terminals| ==> e.terminals[k] == Failed)
        case RunFailed =>
          && s.terminal.StoppedBy? && s.terminal.kind == Fail
          && (forall k :: 0 <= k < |e.terminals| ==> e.terminals[k] == Failed))
  }

  datatype Aggregate = Aggregate(summary: Summary, verdict: Verdict)

  /** Accept a result only on unanimous evidence, and always then. */
  method Complete(peers: seq<Peer>, program: nat, e: Evidence) returns (r: Option<Aggregate>)
    requires Distinct(peers)
    ensures r.Some? ==> Unanimous(peers, program, e, r.value.summary, r.value.verdict)
    ensures r.Some? <==> exists s, v :: Unanimous(peers, program, e, s, v)
  {
    r := None;
    var live := CompareTerminals(e.terminals);
    var agreed := CompareEvidence(e.receipts);
    if live.None? || agreed.None? {
      DisagreementIsNotUnanimous(peers, program, e);
      return;
    }
    var s := agreed.value;
    var verdict := BindTerminal(live.value, s.terminal);
    var accepted :=
      && (live.value.Completed? ==> live.value.session == e.session)
      && s.program == program && s.session == e.session
      && |s.ensemble| == |peers| && SetOf(s.ensemble) == SetOf(peers) && verdict.Some?;
    AcceptanceIsUnanimity(peers, program, e, s);
    if accepted {
      r := Some(Aggregate(s, verdict.value));
    }
  }

  lemma DisagreementIsNotUnanimous(peers: seq<Peer>, program: nat, e: Evidence)
    requires !(e.terminals != [] && Same(e.terminals)) || !(e.receipts != [] && Same(e.receipts))
    ensures forall s, v :: !Unanimous(peers, program, e, s, v)
  {
    forall s, v ensures !Unanimous(peers, program, e, s, v) {
      if Unanimous(peers, program, e, s, v) {
        assert forall k :: 0 <= k < |e.terminals| ==> e.terminals[k] == e.terminals[0];
        assert Same(e.terminals) && Same(e.receipts);
      }
    }
  }

  lemma AcceptanceIsUnanimity(peers: seq<Peer>, program: nat, e: Evidence, s: Summary)
    requires Distinct(peers)
    requires e.terminals != [] && Same(e.terminals) && e.receipts != [] && Same(e.receipts) && s == e.receipts[0]
    ensures var live, verdict := e.terminals[0], BindTerminal(e.terminals[0], s.terminal);
      var accepted :=
        && (live.Completed? ==> live.session == e.session)
        && s.program == program && s.session == e.session
        && |s.ensemble| == |peers| && SetOf(s.ensemble) == SetOf(peers) && verdict.Some?;
      && (accepted ==> Unanimous(peers, program, e, s, verdict.value))
      && (!accepted ==> forall t, v :: !Unanimous(peers, program, e, t, v))
  {
    if |s.ensemble| == |peers| && SetOf(s.ensemble) == SetOf(peers) {
      SameSetIsReordering(peers, s.ensemble);
    }
    forall t, v | Unanimous(peers, program, e, t, v)
      ensures t == s && |s.ensemble| == |peers| && SetOf(s.ensemble) == SetOf(peers)
    {
      assert e.receipts[0] == t;
      assert |multiset(s.ensemble)| == |multiset(peers)|;
      assert forall x :: x in s.ensemble <==> x in multiset(s.ensemble);
      assert forall x :: x in peers <==> x in multiset(peers);
    }
  }

  // ---------------------------------------------------------- a whole run

  /** Everything the Hosts and the user do during one run over `n` Hosts. */
  datatype Course = Course(
    connections: seq<Arrival<Peer>>,
    creation: Creation,
    activations: seq<Arrival<Session>>,
    endings: seq<Arrival<Terminal>>,
    receipts: seq<Arrival<Summary>>,
    interrupted: bool)

  ghost predicate CourseOf(x: Course, n: nat) {
    && EachOnce(x.connections, n) && Answers(x.creation, n)
    && EachOnce(x.activations, n) && EachOnce(x.endings, n) && EachOnce(x.receipts, n)
  }

  /** What each Host itself reported: the session it activated, how its
      execution ended, and its receipt. */
  ghost predicate Reported(x: Course, n: nat, e: Evidence) {
    && n > 0 && Activated(x.activations, e.session)
    && |e.terminals| == |e.receipts| == n && Placed(x.endings, e.terminals) && Placed(x.receipts, e.receipts)
  }

  /** Activate, drive and verify the executions on all Hosts. */
  method Gather(x: Course, n: nat) returns (r: Option<Evidence>)
    requires CourseOf(x, n)
    ensures r.Some? ==> Reported(x, n, r.value)
    ensures r.None? ==> forall e :: !Reported(x, n, e)
  {
    var session := AwaitActivation(x.activations, n);
    if session.None? {
      return None;
    }
    var terminals := InOrder(x.endings, n);
    if terminals.None? {
      return None;
    }
    var receipts := InOrder(x.receipts, n);
    if receipts.None? {
      return None;
    }
    return Some(Evidence(session.value, terminals.value, receipts.value));
  }

  /** There is one such report. */
  lemma ReportedOnce(x: Course, n: nat, a: Evidence, b: Evidence)
    requires CourseOf(x, n) && Reported(x, n, a) && Reported(x, n, b)
    ensures a == b
  {
    PlacedOnce(x.endings, n, a.terminals, b.terminals);
    PlacedOnce(x.receipts, n, a.receipts, b.receipts);
    assert x.activations[0].result == Some(a.session);
  }

  function PeersOf(participants: seq<Participant>): (peers: seq<Peer>)
    ensures |peers| == |participants|
  {
    seq(|participants|, k requires 0 <= k < |participants| => participants[k].peer)
  }

  /** A run that deserves result `a`: the selected Hosts answered, all got an
      execution, the user let it go on, and all Hosts' reports bear `a` out. */
  ghost predicate Deserves(x: Course, n: nat, program: nat, peers: seq<Peer>, e: Evidence, a: Aggregate)
    requires CourseOf(x, n)
  {
    && |peers| == n && Distinct(peers) && Placed(x.connections, peers)
    && CreationSucceeds(peers, x.creation) && !x.interrupted
    && Reported(x, n, e) && Unanimous(peers, program, e, a.summary, a.verdict)
  }

  /** The evidence makes `a` the result of this run. */
  ghost predicate Earns(x: Course, n: nat, program: nat, peers: seq<Peer>, a: Aggregate)
    requires CourseOf(x, n)
  {
    !x.interrupted && exists e :: Reported(x, n, e) && Unanimous(peers, program, e, a.summary, a.verdict)
  }

  /** Drive the executions to their end and accept unanimous evidence. */
  method DriveToEnd(x: Course, n: nat, program: nat, peers: seq<Peer>) returns (r: Option<Aggregate>)
    requires CourseOf(x, n) && Distinct(peers)
    ensures r.Some? ==> Earns(x, n, program, peers, r.value)
    ensures r.None? ==> forall a :: !Earns(x, n, program, peers, a)
  {
    if x.interrupted {
      return None;
    }
    var evidence := Gather(x, n);
    if evidence.None? {
      return None;
    }
    forall e | Reported(x, n, e) ensures e == evidence.value {
      ReportedOnce(x, n, e, evidence.value);
    }
    r := Complete(peers, program, evidence.value);
  }

  /** Only one list of peers can deserve anything, and it must earn it. */
  lemma DeservesMeans(x: Course, n: nat, program: nat, connected: seq<Peer>)
    requires CourseOf(x, n) && |connected| == n && Placed(x.connections, connected) && Distinct(connected)
    ensures forall peers, e, a :: Deserves(x, n, program, peers, e, a) ==>
      peers == connected && CreationSucceeds(connected, x.creation) && Earns(x, n, program, connected, a)
  {
    forall peers, e, a | Deserves(x, n, program, peers, e, a)
      ensures peers == connected && CreationSucceeds(connected, x.creation) && Earns(x, n, program, connected, a)
    {
      PlacedOnce(x.connections, n, peers, connected);
    }
  }

  lemma EarnsDeserves(x: Course, n: nat, program: nat, connected: seq<Peer>, a: Aggregate)
    requires CourseOf(x, n) && |connected| == n && Placed(x.connections, connected) && Distinct(connected)
    requires CreationSucceeds(connected, x.creation) && Earns(x, n, program, connected, a)
    ensures exists e :: Deserves(x, n, program, connected, e, a)
  {
    var e :| Reported(x, n, e) && Unanimous(connected, program, e, a.summary, a.verdict);
    assert Deserves(x, n, program, connected, e, a);
  }

  /** A result is returned exactly to a run that deserves it, with no execution
      withdrawn. Otherwise every execution that any Host was asked to create
      has been asked to withdraw, but for the one exception. */
  method RunCoordinated(x: Course, n: nat, program: nat) returns (r: Option<Aggregate>, log: seq<Request>)
    requires CourseOf(x, n)
    ensures r.Some? ==>
      && |CreationsOf(log)| == n && CancelsOf(log) == []
      && exists e :: Deserves(x, n, program, PeersOf(CreationsOf(log)), e, r.value)
    ensures forall i :: 0 <= i < |CreationsOf(log)| ==> CreationsOf(log)[i].host == i
    ensures r.None? ==> forall peers, e, a :: !Deserves(x, n, program, peers, e, a)
    ensures r.None? ==>
      || CancelsOf(log) == CreationsOf(log)
      || (x.creation.creator.CreatorUnexpected? && |CreationsOf(log)| == 1 && CancelsOf(log) == [])
  {
    log := [];
    var peers := ConnectHosts(x.connections, n);
    if peers.None? {
      return None, log;
    }
    DeservesMeans(x, n, program, peers.value);
    var participants;
    participants, log := CreateExecutions(peers.value, x.creation);
    if participants.None? {
      return None, log;
    }
    SuccessCoversEveryHost(peers.value, x.creation, CreationsOf(log));
    AddressedOnce(participants.value, CreationsOf(log), peers.value, x.creation);
    r := DriveToEnd(x, n, program, peers.value);
    if r.None? {
      var _, log' := StopParticipants(participants.value, x.creation.stops, log);
      return None, log';
    }
    EarnsDeserves(x, n, program, peers.value, r.value);
  }
}
