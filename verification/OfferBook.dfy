/** A Host's bounded book of open offers: an ordered map whose changes and
    whose events happen together. */
module OfferBook {
  import opened Options

  const MAX_OPEN_OFFERS: nat := 256

  /** Program, creator and negotiation; the map is ordered by them in turn. */
  datatype Key = Key(program: nat, creator: nat, negotiation: nat)

  datatype Offer = Offer(key: Key, seqNo: nat, firstSeen: nat, deadline: nat)

  datatype Reason = Expired | Unwatched | Other(code: nat)

  datatype Event = Seen(key: Key, seqNo: nat) | Closed(key: Key, reason: Reason)

  predicate Less(a: Key, b: Key) {
    || a.program < b.program
    || (a.program == b.program && a.creator < b.creator)
    || (a.program == b.program && a.creator == b.creator && a.negotiation < b.negotiation)
  }

  /** Map entries in key order, each key once. */
  predicate Ordered(es: seq<Offer>) {
    forall i, j :: 0 <= i < j < |es| ==> Less(es[i].key, es[j].key)
  }

  // ------------------------------------------------------- the ordered map

  function Get(es: seq<Offer>, k: Key): Option<Offer> {
    if es == [] then None
    else if es[|es| - 1].key == k then Some(es[|es| - 1])
    else Get(es[..|es| - 1], k)
  }

  function Put(es: seq<Offer>, o: Offer): seq<Offer> {
    if es == [] || Less(es[|es| - 1].key, o.key) then es + [o]
    else if es[|es| - 1].key == o.key then es[..|es| - 1] + [o]
    else Put(es[..|es| - 1], o) + [es[|es| - 1]]
  }

  function Remove(es: seq<Offer>, k: Key): seq<Offer> {
    if es == [] then []
    else if es[|es| - 1].key == k then es[..|es| - 1]
    else Remove(es[..|es| - 1], k) + [es[|es| - 1]]
  }

  /** The entries that `stays` keeps, in order. */
  function Retain(es: seq<Offer>, stays: Offer -> bool): seq<Offer> {
    if es == [] then []
    else
      var front := Retain(es[..|es| - 1], stays);
      if stays(es[|es| - 1]) then front + [es[|es| - 1]] else front
  }

  /** A close event for each entry that `stays` drops, in order. */
  function Drops(es: seq<Offer>, stays: Offer -> bool, reason: Reason): seq<Event> {
    if es == [] then []
    else
      var front := Drops(es[..|es| - 1], stays, reason);
      if stays(es[|es| - 1]) then front else front + [Closed(es[|es| - 1].key, reason)]
  }

  /** The first entry, in key order, with the least first-seen time. */
  function Oldest(es: seq<Offer>): (o: Offer)
    requires es != []
    ensures o in es
  {
    if |es| == 1 then es[0]
    else
      var o := Oldest(es[..|es| - 1]);
      if es[|es| - 1].firstSeen < o.firstSeen then es[|es| - 1] else o
  }

  // -------------------------------------------------- the book as a value

  /** Entries, the events emitted so far, and the keys evicted so far. */
  datatype Book = Book(entries: seq<Offer>, log: seq<Event>, evicted: seq<Key>)

  datatype Op =
    | Insert(offer: Offer)
    | Close(key: Key, reason: Reason)
    | Expire(now: nat)
    | DropProgram(program: nat)

  const EMPTY: Book := Book([], [], [])

  function Evict(b: Book): Book {
    if |b.entries| <= MAX_OPEN_OFFERS then b
    else
      var oldest := Oldest(b.entries).key;
      b.(entries := Remove(b.entries, oldest), evicted := b.evicted + [oldest])
  }

  function InsertOffer(b: Book, offer: Offer): Book {
    match Get(b.entries, offer.key)
    case Some(entry) =>
      if offer.seqNo < entry.seqNo then b
      else Evict(b.(entries := Put(b.entries, offer.(firstSeen := entry.firstSeen))))
    case None =>
      Evict(b.(entries := Put(b.entries, offer), log := b.log + [Seen(offer.key, offer.seqNo)]))
  }

  function Live(now: nat): Offer -> bool {
    (o: Offer) => o.deadline > now
  }

  function Elsewhere(program: nat): Offer -> bool {
    (o: Offer) => o.key.program != program
  }

  function Sweep(b: Book, stays: Offer -> bool, reason: Reason): Book {
    b.(entries := Retain(b.entries, stays), log := b.log + Drops(b.entries, stays, reason))
  }

  function Step(b: Book, op: Op): Book {
    match op
    case Insert(offer) => InsertOffer(b, offer)
    case Close(key, reason) =>
      if Get(b.entries, key).None? then b
      else b.(entries := Remove(b.entries, key), log := b.log + [Closed(key, reason)])
    case Expire(now) => Sweep(b, Live(now), Expired)
    case DropProgram(program) => Sweep(b, Elsewhere(program), Unwatched)
  }

  function Run(b: Book, ops: seq<Op>): Book {
    if ops == [] then b else Step(Run(b, ops[..|ops| - 1]), ops[|ops| - 1])
  }

  // ------------------------------------------------------- map laws

  lemma {:induction false} GetMeaning(es: seq<Offer>, k: Key)
    ensures Get(es, k).Some? ==> Get(es, k).value in es && Get(es, k).value.key == k
    ensures Get(es, k).None? <==> forall i :: 0 <= i < |es| ==> es[i].key != k
  {
    if es != [] && es[|es| - 1].key != k {
      var front := es[..|es| - 1];
      GetMeaning(front, k);
      assert forall i :: 0 <= i < |es| - 1 ==> front[i] == es[i];
    }
  }

  lemma GetUnique(es: seq<Offer>, i: nat)
    requires Ordered(es) && i < |es|
    ensures Get(es, es[i].key) == Some(es[i])
  {
    GetMeaning(es, es[i].key);
    var o := Get(es, es[i].key).value;
    var j :| 0 <= j < |es| && es[j] == o;
    assert es[j].key == es[i].key && !Less(o.key, o.key);
  }

  lemma FrontOrdered(es: seq<Offer>)
    requires Ordered(es) && es != []
    ensures Ordered(es[..|es| - 1])
    ensures forall i :: 0 <= i < |es| - 1 ==> Less(es[i].key, es[|es| - 1].key)
  {
  }

  lemma {:induction false} PutLaws(es: seq<Offer>, o: Offer)
    requires Ordered(es)
    ensures Ordered(Put(es, o))
    ensures forall k :: Get(Put(es, o), k) == if k == o.key then Some(o) else Get(es, k)
    ensures |Put(es, o)| == |es| + (if Get(es, o.key).None? then 1 else 0)
  {
    var out := Put(es, o);
    if es == [] || Less(es[|es| - 1].key, o.key) {
      assert out[..|es|] == es;
      GetMeaning(es, o.key);
    } else {
      var front, last := es[..|es| - 1], es[|es| - 1];
      FrontOrdered(es);
      if last.key == o.key {
        assert out[..|front|] == front;
      } else {
        PutLaws(front, o);
        assert out[..|out| - 1] == Put(front, o);
        PutBelow(front, o, last.key);
      }
    }
  }

  lemma PutBelow(es: seq<Offer>, o: Offer, bound: Key)
    requires Ordered(es) && Ordered(Put(es, o))
    requires forall k :: Get(Put(es, o), k) == if k == o.key then Some(o) else Get(es, k)
    requires Less(o.key, bound) && forall i :: 0 <= i < |es| ==> Less(es[i].key, bound)
    ensures forall i :: 0 <= i < |Put(es, o)| ==> Less(Put(es, o)[i].key, bound)
  {
    forall i | 0 <= i < |Put(es, o)| ensures Less(Put(es, o)[i].key, bound) {
      GetUnique(Put(es, o), i);
      GetMeaning(es, Put(es, o)[i].key);
    }
  }

  lemma {:induction false} RemoveLaws(es: seq<Offer>, k: Key)
    requires Ordered(es)
    ensures Ordered(Remove(es, k))
    ensures forall j :: Get(Remove(es, k), j) == if j == k then None else Get(es, j)
    ensures forall o :: o in Remove(es, k) ==> o in es
    ensures |Remove(es, k)| == |es| - (if Get(es, k).None? then 0 else 1)
  {
    if es != [] {
      var front, last := es[..|es| - 1], es[|es| - 1];
      FrontOrdered(es);
      if last.key == k {
        GetMeaning(front, k);
      } else {
        RemoveLaws(front, k);
        var out := Remove(es, k);
        assert out[..|out| - 1] == Remove(front, k);
        forall i | 0 <= i < |Remove(front, k)| ensures Less(Remove(front, k)[i].key, last.key) {
          assert Remove(front, k)[i] in front;
        }
      }
    }
  }

  lemma {:induction false} RetainLaws(es: seq<Offer>, stays: Offer -> bool)
    requires Ordered(es)
    ensures Ordered(Retain(es, stays)) && |Retain(es, stays)| <= |es|
    ensures forall o :: o in Retain(es, stays) <==> o in es && stays(o)
    ensures forall k :: Get(Retain(es, stays), k) ==
                        match Get(es, k) case None => None case Some(o) => if stays(o) then Some(o) else None
  {
    if es != [] {
      var front, last := es[..|es| - 1], es[|es| - 1];
      assert es == front + [last];
      FrontOrdered(es);
      RetainLaws(front, stays);
      var kept := Retain(front, stays);
      if stays(last) {
        assert (kept + [last])[..|kept|] == kept;
        forall i | 0 <= i < |kept| ensures Less(kept[i].key, last.key) {
          assert kept[i] in front;
        }
      } else {
        GetMeaning(front, last.key);
      }
    }
  }

  // ------------------------------------------------------- bookkeeping laws

  function SeenCount(log: seq<Event>, k: Key): nat {
    if log == [] then 0
    else SeenCount(log[..|log| - 1], k) + (if log[|log| - 1].Seen? && log[|log| - 1].key == k then 1 else 0)
  }

  function ClosedCount(log: seq<Event>, k: Key): nat {
    if log == [] then 0
    else ClosedCount(log[..|log| - 1], k) + (if log[|log| - 1].Closed? && log[|log| - 1].key == k then 1 else 0)
  }

  function EvictedCount(evicted: seq<Key>, k: Key): nat {
    if evicted == [] then 0
    else EvictedCount(evicted[..|evicted| - 1], k) + (if evicted[|evicted| - 1] == k then 1 else 0)
  }

  function Present(es: seq<Offer>, k: Key): nat {
    if Get(es, k).Some? then 1 else 0
  }

  lemma {:induction false} CountsConcat(a: seq<Event>, b: seq<Event>, k: Key)
    ensures SeenCount(a + b, k) == SeenCount(a, k) + SeenCount(b, k)
    ensures ClosedCount(a + b, k) == ClosedCount(a, k) + ClosedCount(b, k)
    decreases |b|
  {
    if b == [] {
      assert a + b == a;
    } else {
      assert (a + b)[..|a + b| - 1] == a + b[..|b| - 1];
      CountsConcat(a, b[..|b| - 1], k);
    }
  }

  predicate Dropped(es: seq<Offer>, stays: Offer -> bool, k: Key) {
    Get(es, k).Some? && !stays(Get(es, k).value)
  }

  lemma {:induction false} DropsCount(es: seq<Offer>, stays: Offer -> bool, reason: Reason, k: Key)
    requires Ordered(es)
    ensures SeenCount(Drops(es, stays, reason), k) == 0
    ensures ClosedCount(Drops(es, stays, reason), k) == if Dropped(es, stays, k) then 1 else 0
  {
    if es != [] {
      var front, last := es[..|es| - 1], es[|es| - 1];
      FrontOrdered(es);
      DropsCount(front, stays, reason, k);
      GetMeaning(front, last.key);
      var d := Drops(es, stays, reason);
      assert !stays(last) ==> d[..|d| - 1] == Drops(front, stays, reason);
    }
  }

  /** Each key's arrivals are its closings, its evictions and its presence. */
  predicate Balanced(b: Book, k: Key) {
    SeenCount(b.log, k) == ClosedCount(b.log, k) + EvictedCount(b.evicted, k) + Present(b.entries, k)
  }

  ghost predicate Good(b: Book) {
    && Ordered(b.entries)
    && |b.entries| <= MAX_OPEN_OFFERS
    && forall k :: Balanced(b, k)
  }

  /** First seen before all others, or at the same time and first by key. */
  ghost predicate IsOldest(es: seq<Offer>, o: Offer) {
    && o in es
    && forall x :: x in es ==> x == o || o.firstSeen < x.firstSeen || (o.firstSeen == x.firstSeen && Less(o.key, x.key))
  }

  lemma {:induction false} OldestIsOldest(es: seq<Offer>)
    requires es != [] && Ordered(es)
    ensures IsOldest(es, Oldest(es))
  {
    if |es| > 1 {
      var front, last := es[..|es| - 1], es[|es| - 1];
      assert es == front + [last];
      FrontOrdered(es);
      OldestIsOldest(front);
      var i :| 0 <= i < |front| && front[i] == Oldest(front);
      assert Less(es[i].key, last.key);
    }
  }

  /** Eviction removes one entry, the oldest first seen, without an event. */
  lemma EvictKeeps(b: Book)
    requires Ordered(b.entries) && |b.entries| <= MAX_OPEN_OFFERS + 1 && forall k :: Balanced(b, k)
    ensures Good(Evict(b)) && Evict(b).log == b.log
    ensures |b.entries| > MAX_OPEN_OFFERS ==>
              exists o :: IsOldest(b.entries, o) && Evict(b).evicted == b.evicted + [o.key]
                && forall x :: x in Evict(b).entries <==> x in b.entries && x != o
  {
    if |b.entries| > MAX_OPEN_OFFERS {
      var o := Oldest(b.entries);
      OldestIsOldest(b.entries);
      var i :| 0 <= i < |b.entries| && b.entries[i] == o;
      GetUnique(b.entries, i);
      RemoveLaws(b.entries, o.key);
      var e := Evict(b);
      assert e.evicted[..|e.evicted| - 1] == b.evicted;
      forall k ensures Balanced(e, k) {
        assert Balanced(b, k);
      }
      RemoveMembers(b.entries, o.key);
      assert IsOldest(b.entries, o);
    }
  }

  lemma RemoveMembers(es: seq<Offer>, k: Key)
    requires Ordered(es)
    ensures forall o :: o in Remove(es, k) <==> o in es && o.key != k
    ensures forall o, p :: o in es && p in es && o.key == p.key ==> o == p
  {
    RemoveLaws(es, k);
    forall o, p | o in es && p in es && o.key == p.key ensures o == p {
      var i, j :| 0 <= i < |es| && 0 <= j < |es| && es[i] == o && es[j] == p;
      GetUnique(es, i);
      GetUnique(es, j);
    }
    forall o ensures o in Remove(es, k) <==> o in es && o.key != k {
      GetMeaning(Remove(es, k), o.key);
      GetMeaning(es, o.key);
      if o in Remove(es, k) {
        var i :| 0 <= i < |Remove(es, k)| && Remove(es, k)[i] == o;
        GetUnique(Remove(es, k), i);
      }
      if o in es && o.key != k {
        var i :| 0 <= i < |es| && es[i] == o;
        GetUnique(es, i);
      }
    }
  }

  lemma InsertKeeps(b: Book, offer: Offer)
    requires Good(b)
    ensures Good(InsertOffer(b, offer))
  {
    var entry := Get(b.entries, offer.key);
    PutLaws(b.entries, offer);
    if entry.Some? {
      if offer.seqNo >= entry.value.seqNo {
        var o := offer.(firstSeen := entry.value.firstSeen);
        PutLaws(b.entries, o);
        var placed := b.(entries := Put(b.entries, o));
        forall k ensures Balanced(placed, k) { assert Balanced(b, k); }
        EvictKeeps(placed);
      }
    } else {
      var placed := b.(entries := Put(b.entries, offer), log := b.log + [Seen(offer.key, offer.seqNo)]);
      assert placed.log[..|b.log|] == b.log;
      forall k ensures Balanced(placed, k) { assert Balanced(b, k); }
      EvictKeeps(placed);
    }
  }

  lemma SweepKeeps(b: Book, stays: Offer -> bool, reason: Reason)
    requires Good(b)
    ensures Good(Sweep(b, stays, reason))
  {
    RetainLaws(b.entries, stays);
    forall k ensures Balanced(Sweep(b, stays, reason), k) {
      assert Balanced(b, k);
      CountsConcat(b.log, Drops(b.entries, stays, reason), k);
      DropsCount(b.entries, stays, reason, k);
    }
  }

  lemma StepKeeps(b: Book, op: Op)
    requires Good(b)
    ensures Good(Step(b, op))
  {
    match op
    case Insert(offer) => InsertKeeps(b, offer);
    case Expire(now) => SweepKeeps(b, Live(now), Expired);
    case DropProgram(program) => SweepKeeps(b, Elsewhere(program), Unwatched);
    case Close(key, reason) =>
      RemoveLaws(b.entries, key);
      var c := Step(b, op);
      if c != b {
        assert c.log[..|c.log| - 1] == b.log;
      }
      forall k ensures Balanced(c, k) { assert Balanced(b, k); }
  }

  // -------------------------------------------------- what operations do

  /** Each event is about a later key than the one before. */
  ghost predicate Rising(events: seq<Event>) {
    forall i, j :: 0 <= i < j < |events| ==> Less(events[i].key, events[j].key)
  }

  lemma {:induction false} DropsMeaning(es: seq<Offer>, stays: Offer -> bool, reason: Reason)
    requires Ordered(es)
    ensures forall x :: x in Drops(es, stays, reason) <==> exists o :: o in es && !stays(o) && x == Closed(o.key, reason)
    ensures Rising(Drops(es, stays, reason))
  {
    if es != [] {
      var front, last := es[..|es| - 1], es[|es| - 1];
      assert es == front + [last];
      FrontOrdered(es);
      DropsMeaning(front, stays, reason);
      var d := Drops(front, stays, reason);
      forall i | 0 <= i < |d| ensures Less(d[i].key, last.key) {
        assert d[i] in d;
        var o :| o in front && !stays(o) && d[i] == Closed(o.key, reason);
        var k :| 0 <= k < |front| && front[k] == o;
      }
      forall x ensures x in Drops(es, stays, reason) <==> exists o :: o in es && !stays(o) && x == Closed(o.key, reason) {
        if x in d {
          var o :| o in front && !stays(o) && x == Closed(o.key, reason);
          assert o in es;
        }
        if o :| o in es && !stays(o) && x == Closed(o.key, reason) {
          assert o in front || o == last;
        }
      }
    }
  }

  /** From `b` to `c` the entries that `leaves` picks are closed, each with its
      event, in key order, and nothing else happens. */
  ghost predicate Closes(b: Book, c: Book, leaves: Offer -> bool, reason: Reason) {
    && (forall o :: o in c.entries <==> o in b.entries && !leaves(o))
    && c.evicted == b.evicted && b.log <= c.log
    && (forall x :: x in c.log[|b.log|..] <==> exists o :: o in b.entries && leaves(o) && x == Closed(o.key, reason))
    && Rising(c.log[|b.log|..])
  }

  lemma SweepMeaning(b: Book, stays: Offer -> bool, leaves: Offer -> bool, reason: Reason)
    requires Good(b) && forall o :: leaves(o) <==> !stays(o)
    ensures Closes(b, Sweep(b, stays, reason), leaves, reason)
  {
    var c, d := Sweep(b, stays, reason), Drops(b.entries, stays, reason);
    RetainLaws(b.entries, stays);
    DropsMeaning(b.entries, stays, reason);
    assert c.log[|b.log|..] == d;
    forall x ensures x in d <==> exists o :: o in b.entries && leaves(o) && x == Closed(o.key, reason) {
      if o :| o in b.entries && !stays(o) && x == Closed(o.key, reason) {
        assert leaves(o);
      }
    }
  }

  /** Closing takes the offer of that key, expiry those whose deadline has
      come, and dropping a program those for it; each is told as closed, for
      that reason. */
  lemma ClosingsMean(b: Book, key: Key, reason: Reason, now: nat, program: nat)
    requires Good(b)
    ensures Closes(b, Step(b, Close(key, reason)), (o: Offer) => o.key == key, reason)
    ensures Closes(b, Step(b, Expire(now)), (o: Offer) => o.deadline <= now, Expired)
    ensures Closes(b, Step(b, DropProgram(program)), (o: Offer) => o.key.program == program, Unwatched)
  {
    SweepMeaning(b, Live(now), (o: Offer) => o.deadline <= now, Expired);
    SweepMeaning(b, Elsewhere(program), (o: Offer) => o.key.program == program, Unwatched);
    CloseMeaning(b, key, reason, (o: Offer) => o.key == key);
  }

  lemma CloseMeaning(b: Book, key: Key, reason: Reason, leaves: Offer -> bool)
    requires Good(b) && forall o :: leaves(o) <==> o.key == key
    ensures Closes(b, Step(b, Close(key, reason)), leaves, reason)
  {
    GetMeaning(b.entries, key);
    RemoveMembers(b.entries, key);
    var c := Step(b, Close(key, reason));
    if Get(b.entries, key).Some? {
      var o := Get(b.entries, key).value;
      assert c.log[|b.log|..] == [Closed(key, reason)];
      assert o in b.entries && leaves(o);
    } else {
      assert c.log[|b.log|..] == [];
      forall o | o in b.entries ensures !leaves(o) {
        var i :| 0 <= i < |b.entries| && b.entries[i] == o;
      }
    }
  }

  /** `out` holds what `es` does, with offer `x` in the place of what had its
      key, if anything had. */
  ghost predicate Placed(es: seq<Offer>, out: seq<Offer>, x: Offer) {
    forall o :: o in out <==> o == x || (o in es && o.key != x.key)
  }

  lemma PutPlaces(es: seq<Offer>, x: Offer)
    requires Ordered(es)
    ensures Placed(es, Put(es, x), x)
  {
    var out := Put(es, x);
    PutLaws(es, x);
    forall o ensures o in out <==> o == x || (o in es && o.key != x.key) {
      InOrdered(es, o);
      InOrdered(out, o);
    }
  }

  lemma InOrdered(es: seq<Offer>, o: Offer)
    requires Ordered(es)
    ensures o in es <==> Get(es, o.key) == Some(o)
  {
    GetMeaning(es, o.key);
    if o in es {
      var i :| 0 <= i < |es| && es[i] == o;
      GetUnique(es, i);
    }
  }

  /** A newer offer under a key that is there takes its place and keeps the
      time first seen; an older one changes nothing. */
  lemma UpdateMeaning(b: Book, offer: Offer, entry: Offer)
    requires Good(b) && entry in b.entries && entry.key == offer.key
    ensures var c := Step(b, Insert(offer));
      if offer.seqNo < entry.seqNo then c == b
      else c.log == b.log && c.evicted == b.evicted && Placed(b.entries, c.entries, offer.(firstSeen := entry.firstSeen))
  {
    InOrdered(b.entries, entry);
    var x := offer.(firstSeen := entry.firstSeen);
    PutLaws(b.entries, x);
    PutPlaces(b.entries, x);
  }

  /** A new key is told as seen. In a full book the oldest offer then makes
      room, silently, and that may be the new one. */
  lemma InsertMeaning(b: Book, offer: Offer)
    requires Good(b) && forall o :: o in b.entries ==> o.key != offer.key
    ensures var c := Step(b, Insert(offer)); c.log == b.log + [Seen(offer.key, offer.seqNo)]
    ensures |b.entries| < MAX_OPEN_OFFERS ==>
      var c := Step(b, Insert(offer)); c.evicted == b.evicted && Placed(b.entries, c.entries, offer)
    ensures |b.entries| == MAX_OPEN_OFFERS ==>
      var c := Step(b, Insert(offer));
      exists all, o :: (
        && Placed(b.entries, all, offer) && IsOldest(all, o) && c.evicted == b.evicted + [o.key]
        && forall x :: x in c.entries <==> x in all && x != o)
  {
    GetMeaning(b.entries, offer.key);
    assert Get(b.entries, offer.key).None?;
    PutLaws(b.entries, offer);
    PutPlaces(b.entries, offer);
    var all := Put(b.entries, offer);
    if |b.entries| == MAX_OPEN_OFFERS {
      var o := Oldest(all);
      OldestIsOldest(all);
      RemoveMembers(all, o.key);
      assert Placed(b.entries, all, offer) && IsOldest(all, o);
    }
  }

  /** Over every sequence of operations the book stays ordered and bounded, and
      for every key arrivals equal closings plus evictions plus presence. */
  lemma {:induction false} EveryRunKeepsTheBook(ops: seq<Op>)
    ensures Good(Run(EMPTY, ops))
  {
    if ops == [] {
      forall k ensures Balanced(EMPTY, k) {}
    } else {
      EveryRunKeepsTheBook(ops[..|ops| - 1]);
      StepKeeps(Run(EMPTY, ops[..|ops| - 1]), ops[|ops| - 1]);
    }
  }

  /** A key resident across a step keeps its first-seen time, and its sequence
      number does not go down. */
  lemma StepKeepsResident(b: Book, op: Op, k: Key)
    requires Good(b)
    ensures Get(b.entries, k).Some? && Get(Step(b, op).entries, k).Some? ==>
              var before, after := Get(b.entries, k).value, Get(Step(b, op).entries, k).value;
              after.firstSeen == before.firstSeen && before.seqNo <= after.seqNo
  {
    match op
    case Insert(offer) =>
      var entry := Get(b.entries, offer.key);
      var o := if entry.Some? then offer.(firstSeen := entry.value.firstSeen) else offer;
      PutLaws(b.entries, o);
      var placed := Put(b.entries, o);
      if |placed| > MAX_OPEN_OFFERS {
        RemoveLaws(placed, Oldest(placed).key);
      }
    case Close(key, reason) => RemoveLaws(b.entries, key);
    case Expire(now) => RetainLaws(b.entries, Live(now));
    case DropProgram(program) => RetainLaws(b.entries, Elsewhere(program));
  }

  /** Key `k` is in the book throughout a run. */
  ghost predicate ResidentThroughout(b: Book, ops: seq<Op>, k: Key) {
    forall n :: 0 <= n <= |ops| ==> Get(Run(b, ops[..n]).entries, k).Some?
  }

  lemma {:induction false} ResidentKeepsFirstSeen(b: Book, ops: seq<Op>, k: Key)
    requires Good(b) && ResidentThroughout(b, ops, k)
    ensures Get(b.entries, k).Some? && Get(Run(b, ops).entries, k).Some?
    ensures var before, after := Get(b.entries, k).value, Get(Run(b, ops).entries, k).value;
            after.firstSeen == before.firstSeen && before.seqNo <= after.seqNo
    ensures Good(Run(b, ops))
  {
    assert ops[..0] == [] && ops[..|ops|] == ops;
    assert Get(Run(b, ops[..0]).entries, k).Some? && Get(Run(b, ops[..|ops|]).entries, k).Some?;
    if ops != [] {
      var front := ops[..|ops| - 1];
      forall n | 0 <= n <= |front| ensures Get(Run(b, front[..n]).entries, k).Some? {
        assert front[..n] == ops[..n];
      }
      ResidentKeepsFirstSeen(b, front, k);
      StepKeepsResident(Run(b, front), ops[|ops| - 1], k);
      StepKeeps(Run(b, front), ops[|ops| - 1]);
    }
  }

  // ------------------------------------------------------- the shared book

  /** The locked book. `log` is the Host's event stream, and `evicted` records
      what the source drops without an event. */
  class Offers {
    var entries: seq<Offer>
    var log: seq<Event>
    ghost var evicted: seq<Key>

    ghost function Value(): Book
      reads this
    {
      Book(entries, log, evicted)
    }

    constructor ()
      ensures Value() == EMPTY
    {
      entries, log, evicted := [], [], [];
    }

    method InsertOne(offer: Offer)
      requires Good(Value())
      modifies this
      ensures Value() == Step(old(Value()), Insert(offer)) && Good(Value())
    {
      StepKeeps(Value(), Insert(offer));
      var entry := Get(entries, offer.key);
      var placed := offer;
      if entry.Some? {
        if offer.seqNo < entry.value.seqNo {
          return;
        }
        placed := offer.(firstSeen := entry.value.firstSeen);
      } else {
        log := log + [Seen(offer.key, offer.seqNo)];
      }
      entries := Put(entries, placed);
      if |entries| > MAX_OPEN_OFFERS {
        var oldest := FindOldest(entries);
        entries := Remove(entries, oldest.key);
        evicted := evicted + [oldest.key];
      }
    }

    method CloseOne(key: Key, reason: Reason)
      requires Good(Value())
      modifies this
      ensures Value() == Step(old(Value()), Close(key, reason)) && Good(Value())
    {
      StepKeeps(Value(), Close(key, reason));
      if Get(entries, key).Some? {
        entries := Remove(entries, key);
        log := log + [Closed(key, reason)];
      }
    }

    /** Visit the entries in order, keeping those that stay and closing the rest. */
    method RetainEntries(stays: Offer -> bool, reason: Reason)
      modifies this`entries, this`log
      ensures Value() == Sweep(old(Value()), stays, reason)
    {
      var before := entries;
      var kept := [];
      for i := 0 to |before|
        invariant entries == before && evicted == old(evicted)
        invariant kept == Retain(before[..i], stays)
        invariant log == old(log) + Drops(before[..i], stays, reason)
      {
        assert before[..i + 1][..i] == before[..i];
        if stays(before[i]) {
          kept := kept + [before[i]];
        } else {
          log := log + [Closed(before[i].key, reason)];
        }
      }
      assert before[..|before|] == before;
      entries := kept;
    }

    method ExpireAll(now: nat)
      requires Good(Value())
      modifies this
      ensures Value() == Step(old(Value()), Expire(now)) && Good(Value())
    {
      StepKeeps(Value(), Expire(now));
      RetainEntries(Live(now), Expired);
    }

    method DropAll(program: nat)
      requires Good(Value())
      modifies this
      ensures Value() == Step(old(Value()), DropProgram(program)) && Good(Value())
    {
      StepKeeps(Value(), DropProgram(program));
      RetainEntries(Elsewhere(program), Unwatched);
    }

    /** Operations of others that come to the lock one after the other. */
    method Meanwhile(ops: seq<Op>)
      requires Good(Value())
      modifies this
      ensures Value() == Run(old(Value()), ops) && Good(Value())
    {
      for i := 0 to |ops|
        invariant Value() == Run(old(Value()), ops[..i]) && Good(Value())
      {
        assert ops[..i + 1][..i] == ops[..i];
        match ops[i]
        case Insert(offer) => InsertOne(offer);
        case Close(key, reason) => CloseOne(key, reason);
        case Expire(now) => ExpireAll(now);
        case DropProgram(program) => DropAll(program);
      }
      assert ops[..|ops|] == ops;
    }

    /** Close the expired offers, then read the book in key order. The lock is
        taken for each, so other operations may come in between. */
    method List(now: nat, between: seq<Op>) returns (offers: seq<Offer>)
      requires Good(Value())
      modifies this
      ensures Value() == Run(Step(old(Value()), Expire(now)), between) && Good(Value())
      ensures offers == entries && Ordered(offers) && |offers| <= MAX_OPEN_OFFERS
      ensures forall o :: o in offers ==> (o in old(entries) && o.deadline > now) || Inserted(between, o)
      ensures between == [] ==> forall o :: o in offers <==> o in old(entries) && o.deadline > now
    {
      RetainLaws(entries, Live(now));
      ExpireAll(now);
      ghost var live := Value();
      Meanwhile(between);
      forall o | o in entries ensures o in live.entries || Inserted(between, o) {
        EntryOrigin(live, between, o);
      }
      offers := entries;
    }
  }

  // ------------------------------------------------- where entries come from

  /** One of `ops` brought offer `o`, whatever its first-seen time became. */
  ghost predicate Inserted(ops: seq<Op>, o: Offer) {
    exists i :: 0 <= i < |ops| && Brings(ops[i], o)
  }

  predicate Brings(op: Op, o: Offer) {
    op.Insert? && o == op.offer.(firstSeen := o.firstSeen)
  }

  lemma InsertedStays(ops: seq<Op>, op: Op, o: Offer)
    ensures Inserted(ops + [op], o) <==> Inserted(ops, o) || Brings(op, o)
  {
    if Inserted(ops, o) {
      var i :| 0 <= i < |ops| && Brings(ops[i], o);
      assert Brings((ops + [op])[i], o);
    }
    if Brings(op, o) {
      assert Brings((ops + [op])[|ops|], o);
    }
  }

  lemma {:induction false} PutMembers(es: seq<Offer>, x: Offer, o: Offer)
    requires o in Put(es, x)
    ensures o in es || o == x
  {
    if es != [] && !Less(es[|es| - 1].key, x.key) && es[|es| - 1].key != x.key && o in Put(es[..|es| - 1], x) {
      PutMembers(es[..|es| - 1], x, o);
    }
  }

  lemma EvictedFrom(b: Book, o: Offer)
    requires Ordered(b.entries) && o in Evict(b).entries
    ensures o in b.entries
  {
    if |b.entries| > MAX_OPEN_OFFERS {
      RemoveLaws(b.entries, Oldest(b.entries).key);
    }
  }

  lemma InsertOrigin(b: Book, x: Offer, o: Offer)
    requires Good(b) && o in InsertOffer(b, x).entries
    ensures o in b.entries || o == x.(firstSeen := o.firstSeen)
  {
    var entry := Get(b.entries, x.key);
    if entry.None? {
      PutLaws(b.entries, x);
      EvictedFrom(b.(entries := Put(b.entries, x), log := b.log + [Seen(x.key, x.seqNo)]), o);
      PutMembers(b.entries, x, o);
    } else if x.seqNo >= entry.value.seqNo {
      var y := x.(firstSeen := entry.value.firstSeen);
      PutLaws(b.entries, y);
      EvictedFrom(b.(entries := Put(b.entries, y)), o);
      PutMembers(b.entries, y, o);
    }
  }

  lemma StepOrigin(b: Book, op: Op, o: Offer)
    requires Good(b) && o in Step(b, op).entries
    ensures o in b.entries || Brings(op, o)
  {
    match op
    case Insert(x) => InsertOrigin(b, x, o);
    case Close(key, _) => RemoveLaws(b.entries, key);
    case Expire(now) => RetainLaws(b.entries, Live(now));
    case DropProgram(program) => RetainLaws(b.entries, Elsewhere(program));
  }

  /** An entry was there before, or one of the operations brought it. */
  lemma {:induction false} EntryOrigin(b: Book, ops: seq<Op>, o: Offer)
    requires Good(b) && o in Run(b, ops).entries
    ensures o in b.entries || Inserted(ops, o)
  {
    if ops != [] {
      var front, last := ops[..|ops| - 1], ops[|ops| - 1];
      var before := Run(b, front);
      RunKeeps(b, front);
      StepOrigin(before, last, o);
      InsertedStays(front, last, o);
      assert front + [last] == ops;
      if o in before.entries {
        EntryOrigin(b, front, o);
      }
    }
  }

  lemma {:induction false} RunKeeps(b: Book, ops: seq<Op>)
    requires Good(b)
    ensures Good(Run(b, ops))
  {
    if ops != [] {
      RunKeeps(b, ops[..|ops| - 1]);
      StepKeeps(Run(b, ops[..|ops| - 1]), ops[|ops| - 1]);
    }
  }

  method FindOldest(es: seq<Offer>) returns (o: Offer)
    requires es != []
    ensures o == Oldest(es)
  {
    o := es[0];
    assert es[..1] == [es[0]];
    for i := 1 to |es|
      invariant o == Oldest(es[..i])
    {
      assert es[..i + 1][..i] == es[..i];
      if es[i].firstSeen < o.firstSeen {
        o := es[i];
      }
    }
    assert es[..|es|] == es;
  }
}
