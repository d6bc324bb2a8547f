/** One connection's event stream follows a growing directory of Hosts by
    broadcast notifications that may be dropped when the reader is slow. */
module EventRoster {
  /** How many notifications the broadcast channel keeps for a reader. */
  const KEPT: nat := 64

  type Name = nat

  datatype Roster = Roster(seen: set<Name>, streams: seq<Name>)

  /** Add a stream for every Host of a directory listing not seen before. */
  function Added(r: Roster, listing: seq<Name>): Roster {
    if listing == [] then r
    else
      var front := Added(r, listing[..|listing| - 1]);
      var host := listing[|listing| - 1];
      if host in front.seen then front
      else Roster(front.seen + {host}, front.streams + [host])
  }

  method AddHosts(r: Roster, listing: seq<Name>) returns (r': Roster)
    ensures r' == Added(r, listing)
  {
    var seen, streams := r.seen, r.streams;
    for i := 0 to |listing|
      invariant Roster(seen, streams) == Added(r, listing[..i])
    {
      assert listing[..i + 1][..i] == listing[..i];
      if listing[i] !in seen {
        seen := seen + {listing[i]};
        streams := streams + [listing[i]];
      }
    }
    assert listing[..|listing|] == listing;
    return Roster(seen, streams);
  }

  /** Each Host that was seen has one stream. */
  ghost predicate RosterOk(r: Roster) {
    && (forall i, j :: 0 <= i < j < |r.streams| ==> r.streams[i] != r.streams[j])
    && (forall n :: n in r.streams <==> n in r.seen)
  }

  lemma {:induction false} AddedMeaning(r: Roster, listing: seq<Name>)
    requires RosterOk(r)
    ensures RosterOk(Added(r, listing))
    ensures Added(r, listing).seen == r.seen + set n | n in listing
    ensures r.streams <= Added(r, listing).streams
  {
    if listing != [] {
      var front := listing[..|listing| - 1];
      AddedMeaning(r, front);
      assert listing == front + [listing[|listing| - 1]];
    }
  }

  // ------------------------------------------------------------- whole runs

  /** A reader is created, subscribes, lists the directory, and from then on
      lists it again after every notification or gap. */
  datatype Pc = Created | Subscribed | Following | Listing

  datatype World = World(directory: seq<Name>, sent: seq<Name>, pc: Pc, next: nat, roster: Roster)

  datatype Action = Publish(host: Name) | Withdraw | Advance

  /** A Host is filed and announced under one lock; closing the daemon takes
      the whole directory. A gap moves the reader to the oldest kept
      notification. */
  function Next(w: World, a: Action): World {
    match a
    case Publish(host) =>
      if host in w.directory then w else w.(directory := w.directory + [host], sent := w.sent + [host])
    case Withdraw => w.(directory := [])
    case Advance =>
      match w.pc
      case Created => w.(pc := Subscribed, next := |w.sent|)
      case Subscribed => w.(pc := Following, roster := Added(w.roster, w.directory))
      case Following =>
        if w.next + KEPT < |w.sent| then w.(pc := Listing, next := |w.sent| - KEPT)
        else if w.next < |w.sent| then w.(pc := Listing, next := w.next + 1)
        else w
      case Listing => w.(pc := Following, roster := Added(w.roster, w.directory))
  }

  function Run(w: World, acts: seq<Action>): World {
    if acts == [] then w else Next(Run(w, acts[..|acts| - 1]), acts[|acts| - 1])
  }

  function Start(directory: seq<Name>): World {
    World(directory, [], Created, 0, Roster({}, []))
  }

  /** A Host the reader does not know yet is announced beyond its position,
      or the reader is about to list the directory. */
  predicate Expected(w: World, host: Name) {
    w.pc == Created || w.pc == Subscribed || w.pc == Listing || (w.next <= |w.sent| && host in w.sent[w.next..])
  }

  ghost predicate Sound(w: World) {
    && RosterOk(w.roster) && w.next <= |w.sent|
    && forall host :: host in w.directory && host !in w.roster.seen ==> Expected(w, host)
  }

  lemma PublishKeeps(w: World, host: Name)
    requires Sound(w)
    ensures Sound(Next(w, Publish(host)))
  {
    var n := Next(w, Publish(host));
    forall h | h in n.directory && h !in n.roster.seen ensures Expected(n, h) {
      if host !in w.directory {
        assert n.sent[w.next..] == w.sent[w.next..] + [host];
      }
    }
  }

  lemma AdvanceKeeps(w: World)
    requires Sound(w)
    ensures Sound(Next(w, Advance))
  {
    AddedMeaning(w.roster, w.directory);
  }

  lemma {:induction false} EveryRunIsSound(directory: seq<Name>, acts: seq<Action>)
    ensures Sound(Run(Start(directory), acts))
  {
    if acts != [] {
      var w := Run(Start(directory), acts[..|acts| - 1]);
      EveryRunIsSound(directory, acts[..|acts| - 1]);
      match acts[|acts| - 1]
      case Publish(host) => PublishKeeps(w, host);
      case Withdraw =>
      case Advance => AdvanceKeeps(w);
    }
  }

  /** In every run, however far the reader lags: no Host gets two streams, and
      a reader that has caught up with the notifications has a stream for
      every Host in the directory. */
  lemma NoHostIsMissedOrRepeated(directory: seq<Name>, acts: seq<Action>)
    ensures var w := Run(Start(directory), acts);
      && RosterOk(w.roster)
      && (w.pc == Following && w.next == |w.sent| ==> forall host :: host in w.directory ==> host in w.roster.streams)
  {
    EveryRunIsSound(directory, acts);
    var w := Run(Start(directory), acts);
    assert w.next == |w.sent| ==> w.sent[w.next..] == [];
  }

  /** The reader takes one notification at a time, and passes over none that is
      still kept; it lists the directory after each. */
  lemma ReadsInTurn(w: World)
    requires w.pc == Following && w.next < |w.sent|
    ensures var n := Next(w, Advance);
      && n == w.(pc := Listing, next := n.next)
      && (n.next == w.next + 1 || (w.next < n.next && n.next + KEPT == |w.sent|))
  {
  }

  // ------------------------------------------------------------ catching up

  /** Notifications, kept or not, that the reader has still to pass. */
  function Backlog(w: World): nat {
    match w.pc
    case Created => 2
    case Subscribed => if w.next <= |w.sent| then 2 * (|w.sent| - w.next) + 1 else 1
    case Listing => if w.next <= |w.sent| then 2 * (|w.sent| - w.next) + 1 else 1
    case Following => if w.next <= |w.sent| then 2 * (|w.sent| - w.next) else 0
  }

  function Follow(w: World, steps: nat): World
    decreases steps
  {
    if steps == 0 then w else Follow(Next(w, Advance), steps - 1)
  }

  ghost predicate CaughtUp(w: World) {
    && w.pc == Following && w.next == |w.sent| && RosterOk(w.roster)
    && forall host :: host in w.directory ==> host in w.roster.streams
  }

  /** Left alone, a reader has caught up within as many steps as its backlog. */
  lemma {:induction false} ReaderCatchesUp(w: World)
    requires Sound(w)
    ensures exists steps: nat :: steps <= Backlog(w) && CaughtUp(Follow(w, steps))
    decreases Backlog(w)
  {
    if Backlog(w) == 0 {
      assert w.sent[w.next..] == [];
      assert CaughtUp(Follow(w, 0));
    } else {
      AdvanceKeeps(w);
      var n := Next(w, Advance);
      ReaderCatchesUp(n);
      var steps: nat :| steps <= Backlog(n) && CaughtUp(Follow(n, steps));
      assert Follow(w, steps + 1) == Follow(n, steps);
    }
  }
}
