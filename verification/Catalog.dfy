/** A Host's program catalog: a content-addressed store of program bytes, a
    cache of parsed details shared by every clone, and reference resolution. */
module Catalog {
  import opened Options

  const PROGRAM_LIST_LIMIT: nat := 1024

  type Bytes = seq<nat>

  /** A program hash in its only text form: 64 lowercase hexadecimal digits. */
  type Hash = string

  datatype Detail = Detail(hash: Hash, name: string, schema: nat)

  /** The content hash, the program parser, and the engine's validation. */
  datatype Engine = Engine(hashOf: Bytes -> Hash, parse: Bytes -> Option<Detail>, loads: Bytes -> bool)

  /** A parsed program carries the hash of its own bytes. */
  ghost predicate EngineOk(e: Engine) {
    forall w :: e.parse(w).Some? ==> e.parse(w).value.hash == e.hashOf(w)
  }

  datatype Row = Row(wasm: Bytes, removed: bool)

  type Store = map<Hash, Row>

  datatype Found = Missing | Invalid | Parsed(detail: Detail)

  /** What a read gives when the stored bytes are parsed each time. */
  function Uncached(e: Engine, store: Store, hash: Hash): Found {
    if hash !in store then Missing
    else match e.parse(store[hash].wasm)
      case None => Invalid
      case Some(d) => Parsed(d)
  }

  /** Register bytes under their hash: a new row, a revived one, or no change. */
  function Register(e: Engine, store: Store, wasm: Bytes): Store {
    var hash := e.hashOf(wasm);
    if hash !in store then store[hash := Row(wasm, false)]
    else if store[hash].wasm != wasm then store
    else store[hash := Row(wasm, false)]
  }

  function Unregister(store: Store, hash: Hash): Store {
    if hash in store then store[hash := store[hash].(removed := true)] else store
  }

  // --------------------------------------------------------- references

  datatype Resolution = Resolved(hash: Hash) | NotFound | Ambiguous(candidates: seq<Hash>)

  predicate IsLowerHex(c: char) {
    '0' <= c <= '9' || 'a' <= c <= 'f'
  }

  predicate IsHex(c: char) {
    IsLowerHex(c) || 'A' <= c <= 'F'
  }

  /** A full id: 64 lowercase hexadecimal digits. */
  predicate IsId(reference: string) {
    |reference| == 64 && forall i :: 0 <= i < |reference| ==> IsLowerHex(reference[i])
  }

  predicate IsPrefixText(reference: string) {
    reference != "" && forall i :: 0 <= i < |reference| ==> IsHex(reference[i])
  }

  function Lowercase(s: string): string {
    seq(|s|, i requires 0 <= i < |s| => if 'A' <= s[i] <= 'Z' then s[i] + ' ' else s[i])
  }

  /** The hashes of the listed programs that `f` accepts, in order. */
  function Matching(programs: seq<Detail>, f: Detail -> bool): seq<Hash> {
    if programs == [] then []
    else
      var front := Matching(programs[..|programs| - 1], f);
      if f(programs[|programs| - 1]) then front + [programs[|programs| - 1].hash] else front
  }

  function Pick(candidates: seq<Hash>): Resolution {
    if |candidates| == 0 then NotFound
    else if |candidates| == 1 then Resolved(candidates[0])
    else Ambiguous(candidates)
  }

  function Named(reference: string): Detail -> bool {
    (p: Detail) => p.name == reference
  }

  function WithPrefix(reference: string): Detail -> bool {
    (p: Detail) => Lowercase(reference) <= p.hash
  }

  function Resolve(hashes: seq<Hash>, programs: seq<Detail>, reference: string): Resolution {
    if IsId(reference) then (if reference in hashes then Resolved(reference) else NotFound)
    else
      var byName := Matching(programs, Named(reference));
      if byName != [] then Pick(byName)
      else if IsPrefixText(reference) then Pick(Matching(programs, WithPrefix(reference)))
      else NotFound
  }

  /** `programs` are the details of the listed hashes, which are distinct. */
  ghost predicate Details(programs: seq<Detail>, hashes: seq<Hash>) {
    && |programs| == |hashes|
    && (forall i :: 0 <= i < |hashes| ==> programs[i].hash == hashes[i])
    && (forall i, j :: 0 <= i < j < |hashes| ==> hashes[i] != hashes[j])
  }

  /** `p` is the only listed program that `f` accepts. */
  ghost predicate OnlyMatch(programs: seq<Detail>, f: Detail -> bool, p: Detail) {
    p in programs && f(p) && forall q :: q in programs && f(q) ==> q == p
  }

  lemma {:induction false} MatchingMeaning(programs: seq<Detail>, f: Detail -> bool)
    ensures Matching(programs, f) == [] <==> forall p :: p in programs ==> !f(p)
    ensures forall h :: h in Matching(programs, f) <==> exists p :: p in programs && f(p) && p.hash == h
  {
    if programs != [] {
      var front, last := programs[..|programs| - 1], programs[|programs| - 1];
      assert programs == front + [last];
      MatchingMeaning(front, f);
      forall h ensures h in Matching(programs, f) <==> exists p :: p in programs && f(p) && p.hash == h {
        if f(last) && h == last.hash {
          assert last in programs;
        }
        if h in Matching(front, f) {
          var p :| p in front && f(p) && p.hash == h;
          assert p in programs;
        }
      }
    }
  }

  lemma {:induction false} OneMatch(programs: seq<Detail>, hashes: seq<Hash>, f: Detail -> bool, p: Detail)
    requires Details(programs, hashes) && p in programs && f(p)
    ensures |Matching(programs, f)| >= 1
    ensures |Matching(programs, f)| == 1 <==> OnlyMatch(programs, f, p)
    ensures OnlyMatch(programs, f, p) ==> Matching(programs, f) == [p.hash]
    decreases |programs|
  {
    var n := |programs| - 1;
    var front, last := programs[..n], programs[n];
    assert programs == front + [last];
    assert Details(front, hashes[..n]);
    MatchingMeaning(front, f);
    forall i | 0 <= i < n ensures front[i] != last {
      assert front[i].hash == hashes[i];
    }
    if p in front {
      OneMatch(front, hashes[..n], f, p);
    }
    if OnlyMatch(front, f, p) && !f(last) {
      forall q | q in programs && f(q) ensures q == p {}
    }
    if p == last && Matching(front, f) == [] {
      forall q | q in programs && f(q) ensures q == p {}
    }
  }

  /** 64 digits, with the letters in lower case. */
  ghost predicate FullId(reference: string) {
    |reference| == 64 && forall c :: c in reference ==> c in "0123456789abcdef"
  }

  ghost predicate HexText(reference: string) {
    |reference| > 0 && forall c :: c in reference ==> c in "0123456789abcdefABCDEF"
  }

  /** The digits of `reference` are the first ones of `h`, a capital letter
      standing for the small one. */
  ghost predicate Begins(h: Hash, reference: string) {
    && |reference| <= |h|
    && forall i :: 0 <= i < |reference| ==>
         if 'A' <= reference[i] <= 'F' then h[i] as int == reference[i] as int + 32 else h[i] == reference[i]
  }

  /** What a reference that is no full id may mean: the programs of that name
      if there are any, else those whose hash begins with its digits. */
  ghost predicate Meant(programs: seq<Detail>, reference: string, p: Detail) {
    && p in programs
    && if exists q :: q in programs && q.name == reference then p.name == reference
       else HexText(reference) && Begins(p.hash, reference)
  }

  /** The reference names one listed program: by its full id, or as the only
      program it may mean. */
  ghost predicate Names(programs: seq<Detail>, reference: string, p: Detail) {
    if FullId(reference) then p in programs && p.hash == reference
    else Meant(programs, reference, p) && forall q :: Meant(programs, reference, q) ==> q == p
  }

  lemma TextsAre(reference: string)
    ensures FullId(reference) <==> IsId(reference)
    ensures HexText(reference) <==> IsPrefixText(reference)
  {
    assert forall i :: 0 <= i < |reference| ==> reference[i] in reference;
    assert forall c: char :: c in "0123456789abcdef" <==> IsLowerHex(c);
    assert forall c: char :: c in "0123456789abcdefABCDEF" <==> IsHex(c);
  }

  lemma PrefixIs(h: Hash, reference: string)
    requires IsPrefixText(reference)
    ensures Lowercase(reference) <= h <==> Begins(h, reference)
  {
    var low := Lowercase(reference);
    forall i | 0 <= i < |reference|
      ensures low[i] as int == if 'A' <= reference[i] <= 'F' then reference[i] as int + 32 else reference[i] as int
    {
      assert IsHex(reference[i]);
    }
  }

  /** The filter that decides about a reference that is no full id. */
  function Filter(programs: seq<Detail>, reference: string): Detail -> bool {
    if Matching(programs, Named(reference)) != [] then Named(reference)
    else if IsPrefixText(reference) then WithPrefix(reference)
    else (p: Detail) => false
  }

  lemma FilterMeaning(programs: seq<Detail>, reference: string, p: Detail)
    ensures Meant(programs, reference, p) <==> p in programs && Filter(programs, reference)(p)
  {
    MatchingMeaning(programs, Named(reference));
    TextsAre(reference);
    if IsPrefixText(reference) {
      PrefixIs(p.hash, reference);
    }
    assert forall q :: q in programs && q.name == reference ==> Named(reference)(q);
  }

  lemma ResolveIsPick(hashes: seq<Hash>, programs: seq<Detail>, reference: string)
    requires !IsId(reference)
    ensures Resolve(hashes, programs, reference) == Pick(Matching(programs, Filter(programs, reference)))
  {
    MatchingMeaning(programs, Filter(programs, reference));
  }

  /** Resolution succeeds exactly with the program the reference names. */
  lemma ResolveMeaning(hashes: seq<Hash>, programs: seq<Detail>, reference: string, p: Detail)
    requires Details(programs, hashes) && p in programs
    ensures Resolve(hashes, programs, reference) == Resolved(p.hash) <==> Names(programs, reference, p)
  {
    TextsAre(reference);
    var i :| 0 <= i < |programs| && programs[i] == p;
    assert p.hash == hashes[i];
    if IsId(reference) {
      assert reference == p.hash ==> reference in hashes;
    } else {
      var f := Filter(programs, reference);
      ResolveIsPick(hashes, programs, reference);
      PickMeaning(hashes, programs, f, p);
      forall q ensures Meant(programs, reference, q) <==> q in programs && f(q) {
        FilterMeaning(programs, reference, q);
      }
    }
  }

  /** The hashes come in the order of the listing. */
  ghost predicate InListingOrder(candidates: seq<Hash>, hashes: seq<Hash>) {
    && (forall i :: 0 <= i < |candidates| ==> candidates[i] in hashes)
    && forall i, j, a, b ::
         (0 <= i < j < |candidates| && 0 <= a < |hashes| && 0 <= b < |hashes|
          && candidates[i] == hashes[a] && candidates[j] == hashes[b]) ==> a < b
  }

  lemma {:induction false} MatchingInOrder(hashes: seq<Hash>, programs: seq<Detail>, f: Detail -> bool)
    requires Details(programs, hashes)
    ensures InListingOrder(Matching(programs, f), hashes)
    decreases |programs|
  {
    MatchingIsListed(hashes, programs, f);
    if programs != [] {
      var n := |programs| - 1;
      var front := Matching(programs[..n], f);
      assert Details(programs[..n], hashes[..n]);
      MatchingInOrder(hashes[..n], programs[..n], f);
      var all := Matching(programs, f);
      forall i, j, a, b | 0 <= i < j < |all| && 0 <= a < |hashes| && 0 <= b < |hashes|
        && all[i] == hashes[a] && all[j] == hashes[b]
        ensures a < b
      {
        assert front[i] in hashes[..n];
        var k :| 0 <= k < n && hashes[..n][k] == front[i];
        assert hashes[k] == hashes[a];
        if j < |front| {
          assert front[j] in hashes[..n];
          var m :| 0 <= m < n && hashes[..n][m] == front[j];
          assert hashes[m] == hashes[b];
          assert hashes[..n][a] == front[i] && hashes[..n][b] == front[j];
        } else {
          assert hashes[b] == hashes[n];
        }
      }
    }
  }

  /** The hashes of all programs that the reference may mean, which are more
      than one, each once and in the order of the listing. */
  ghost predicate AreRivals(hashes: seq<Hash>, programs: seq<Detail>, reference: string, candidates: seq<Hash>) {
    && |candidates| >= 2 && InListingOrder(candidates, hashes)
    && forall h :: h in candidates <==> exists p :: Meant(programs, reference, p) && p.hash == h
  }

  /** Why a resolution does not succeed: nothing is meant, or several programs
      are, and those are told. */
  lemma FailureMeaning(hashes: seq<Hash>, programs: seq<Detail>, reference: string)
    requires Details(programs, hashes)
    ensures var r := Resolve(hashes, programs, reference);
      r == NotFound <==> (if FullId(reference) then reference !in hashes else forall p :: !Meant(programs, reference, p))
    ensures var r := Resolve(hashes, programs, reference);
      r.Ambiguous? ==> !FullId(reference) && AreRivals(hashes, programs, reference, r.candidates)
  {
    TextsAre(reference);
    if !IsId(reference) {
      var f := Filter(programs, reference);
      ResolveIsPick(hashes, programs, reference);
      MatchingMeaning(programs, f);
      MatchingInOrder(hashes, programs, f);
      forall q ensures Meant(programs, reference, q) <==> q in programs && f(q) {
        FilterMeaning(programs, reference, q);
      }
      forall h ensures h in Matching(programs, f) <==> exists p :: Meant(programs, reference, p) && p.hash == h {
        if h in Matching(programs, f) {
          var p :| p in programs && f(p) && p.hash == h;
          assert Meant(programs, reference, p);
        }
      }
    }
  }

  lemma PickMeaning(hashes: seq<Hash>, programs: seq<Detail>, f: Detail -> bool, p: Detail)
    requires Details(programs, hashes) && p in programs
    ensures Pick(Matching(programs, f)) == Resolved(p.hash) <==> OnlyMatch(programs, f, p)
  {
    MatchingMeaning(programs, f);
    if f(p) {
      OneMatch(programs, hashes, f, p);
    } else if Pick(Matching(programs, f)) == Resolved(p.hash) {
      assert p.hash in Matching(programs, f);
      var q :| q in programs && f(q) && q.hash == p.hash;
      SameHash(hashes, programs, p, q);
    }
  }

  lemma SameHash(hashes: seq<Hash>, programs: seq<Detail>, p: Detail, q: Detail)
    requires Details(programs, hashes) && p in programs && q in programs && p.hash == q.hash
    ensures p == q
  {
    var i, j :| 0 <= i < |programs| && 0 <= j < |programs| && programs[i] == p && programs[j] == q;
    assert hashes[i] == hashes[j];
  }

  lemma ResolvedIsListed(hashes: seq<Hash>, programs: seq<Detail>, reference: string)
    requires Details(programs, hashes)
    ensures Resolve(hashes, programs, reference).Resolved? ==> Resolve(hashes, programs, reference).hash in hashes
  {
    if !IsId(reference) {
      ResolveIsPick(hashes, programs, reference);
      MatchingIsListed(hashes, programs, Filter(programs, reference));
    }
  }

  lemma MatchingIsListed(hashes: seq<Hash>, programs: seq<Detail>, f: Detail -> bool)
    requires Details(programs, hashes)
    ensures forall i :: 0 <= i < |Matching(programs, f)| ==> Matching(programs, f)[i] in hashes
  {
    MatchingMeaning(programs, f);
    forall h | h in Matching(programs, f) ensures h in hashes {
      var p :| p in programs && f(p) && p.hash == h;
      var i :| 0 <= i < |programs| && programs[i] == p;
      assert hashes[i] == p.hash;
    }
  }

  // ------------------------------------------------------------- listings

  predicate HashLess(a: Hash, b: Hash) {
    if b == "" then false
    else if a == "" then true
    else a[0] < b[0] || (a[0] == b[0] && HashLess(a[1..], b[1..]))
  }

  lemma {:induction false} HashLessIsStrict(a: Hash, b: Hash)
    ensures HashLess(a, b) ==> a != b && !HashLess(b, a)
  {
    if a != "" && b != "" {
      HashLessIsStrict(a[1..], b[1..]);
    }
  }

  predicate Active(store: Store, hash: Hash) {
    hash in store && !store[hash].removed
  }

  /** The active hashes in order, cut off after the first `limit`. */
  ghost predicate IsListing(hashes: seq<Hash>, store: Store, limit: nat) {
    && |hashes| <= limit
    && (forall i :: 0 <= i < |hashes| ==> Active(store, hashes[i]))
    && (forall i, j :: 0 <= i < j < |hashes| ==> HashLess(hashes[i], hashes[j]))
    && (forall h :: Active(store, h) ==> h in hashes || (|hashes| == limit && forall g :: g in hashes ==> HashLess(g, h)))
  }

  ghost function Below(store: Store, hash: Hash): set<Hash> {
    set g | g in store && Active(store, g) && HashLess(g, hash)
  }

  /** An active program is listed exactly when fewer than `limit` active
      programs come before it. */
  lemma ListedMeansRank(hashes: seq<Hash>, store: Store, limit: nat, hash: Hash)
    requires IsListing(hashes, store, limit) && Active(store, hash)
    ensures hash in hashes <==> |Below(store, hash)| < limit
  {
    if hash in hashes {
      var n :| 0 <= n < |hashes| && hashes[n] == hash;
      forall g | g in Below(store, hash) ensures g in hashes[..n] {
        BelowIsListed(hashes, store, limit, n, g);
      }
      PrefixSize(hashes[..n], Below(store, hash));
    } else {
      forall g | g in hashes ensures g in Below(store, hash) {}
      ListingDistinct(hashes, store, limit);
      DistinctSize(hashes, Below(store, hash));
    }
  }

  lemma BelowIsListed(hashes: seq<Hash>, store: Store, limit: nat, n: nat, g: Hash)
    requires IsListing(hashes, store, limit) && n < |hashes| && g in Below(store, hashes[n])
    ensures g in hashes[..n]
  {
    HashLessIsStrict(g, hashes[n]);
    assert hashes[n] in hashes;
    var m :| 0 <= m < |hashes| && hashes[m] == g;
    assert !HashLess(hashes[n], hashes[m]);
    assert hashes[..n][m] == g;
  }

  lemma ListingDistinct(hashes: seq<Hash>, store: Store, limit: nat)
    requires IsListing(hashes, store, limit)
    ensures forall i, j :: 0 <= i < j < |hashes| ==> hashes[i] != hashes[j]
  {
    forall i, j | 0 <= i < j < |hashes| ensures hashes[i] != hashes[j] {
      HashLessIsStrict(hashes[i], hashes[j]);
    }
  }

  /** A set inside a sequence is no larger than it. */
  lemma {:induction false} PrefixSize(s: seq<Hash>, inside: set<Hash>)
    requires forall g :: g in inside ==> g in s
    ensures |inside| <= |s|
    decreases |s|
  {
    if s == [] {
      assert inside == {};
    } else {
      var last := s[|s| - 1];
      forall g | g in inside - {last} ensures g in s[..|s| - 1] {}
      PrefixSize(s[..|s| - 1], inside - {last});
    }
  }

  /** A set around a duplicate-free sequence is no smaller than it. */
  lemma {:induction false} DistinctSize(s: seq<Hash>, around: set<Hash>)
    requires forall g :: g in s ==> g in around
    requires forall i, j :: 0 <= i < j < |s| ==> s[i] != s[j]
    ensures |s| <= |around|
    decreases |s|
  {
    if s != [] {
      var last := s[|s| - 1];
      assert last in around;
      DistinctSize(s[..|s| - 1], around - {last});
    }
  }

  // -------------------------------------------- details of what is listed

  /** Every row holds bytes under their own hash. */
  ghost predicate StoreOk(e: Engine, store: Store) {
    forall h :: h in store ==> e.hashOf(store[h].wasm) == h
  }

  predicate AllParse(e: Engine, store: Store, hashes: seq<Hash>) {
    forall k :: 0 <= k < |hashes| ==> Uncached(e, store, hashes[k]).Parsed?
  }

  /** The details that parsing the stored bytes of the listed hashes gives. */
  function DetailsOf(e: Engine, store: Store, hashes: seq<Hash>): (programs: seq<Detail>)
    requires AllParse(e, store, hashes)
    ensures |programs| == |hashes|
    ensures forall k :: 0 <= k < |hashes| ==> Uncached(e, store, hashes[k]) == Parsed(programs[k])
  {
    seq(|hashes|, k requires 0 <= k < |hashes| && AllParse(e, store, hashes) => Uncached(e, store, hashes[k]).detail)
  }

  lemma ListingHasDetails(e: Engine, store: Store, hashes: seq<Hash>)
    requires EngineOk(e) && StoreOk(e, store) && IsListing(hashes, store, PROGRAM_LIST_LIMIT) && AllParse(e, store, hashes)
    ensures Details(DetailsOf(e, store, hashes), hashes)
  {
    ListingDistinct(hashes, store, PROGRAM_LIST_LIMIT);
    var programs := DetailsOf(e, store, hashes);
    forall k | 0 <= k < |hashes| ensures programs[k].hash == hashes[k] {
      assert Active(store, hashes[k]);
      assert Uncached(e, store, hashes[k]) == Parsed(programs[k]);
    }
  }

  /** Among the listed programs, as the stored bytes describe them, `reference`
      names the one with hash `h`. */
  ghost predicate NamedIn(e: Engine, store: Store, hashes: seq<Hash>, reference: string, h: Hash) {
    if FullId(reference) then h == reference && h in hashes
    else
      && AllParse(e, store, hashes)
      && exists p: Detail :: p.hash == h && Names(DetailsOf(e, store, hashes), reference, p)
  }

  /** What resolving over a listing gives: nothing when the reference needs the
      details and one of them does not parse. */
  function ResolvedFrom(e: Engine, store: Store, hashes: seq<Hash>, reference: string): Option<Resolution> {
    if IsId(reference) then Some(Resolve(hashes, [], reference))
    else if AllParse(e, store, hashes) then Some(Resolve(hashes, DetailsOf(e, store, hashes), reference))
    else None
  }

  /** Resolution succeeds with a hash exactly when the reference names it among
      the listed programs, and then that program is active. */
  lemma ResolvedMeansNamed(e: Engine, store: Store, hashes: seq<Hash>, reference: string, h: Hash)
    requires EngineOk(e) && StoreOk(e, store) && IsListing(hashes, store, PROGRAM_LIST_LIMIT)
    ensures ResolvedFrom(e, store, hashes, reference) == Some(Resolved(h)) <==> NamedIn(e, store, hashes, reference, h)
    ensures NamedIn(e, store, hashes, reference, h) ==> Active(store, h)
  {
    TextsAre(reference);
    if !IsId(reference) && AllParse(e, store, hashes) {
      ListingHasDetails(e, store, hashes);
      var programs := DetailsOf(e, store, hashes);
      if Resolve(hashes, programs, reference) == Resolved(h) {
        ResolvedIsListed(hashes, programs, reference);
        var k :| 0 <= k < |hashes| && hashes[k] == h;
        assert programs[k] in programs;
        ResolveMeaning(hashes, programs, reference, programs[k]);
      }
      if NamedIn(e, store, hashes, reference, h) {
        var p: Detail :| p.hash == h && Names(programs, reference, p);
        ResolveMeaning(hashes, programs, reference, p);
        var k :| 0 <= k < |programs| && programs[k] == p;
        assert Active(store, hashes[k]);
      }
    }
  }

  /** Why resolving over a listing did not succeed, if it did not. */
  ghost predicate FailsRightly(e: Engine, store: Store, hashes: seq<Hash>, reference: string, r: Resolution) {
    if FullId(reference) then !r.Ambiguous? && (r == NotFound <==> reference !in hashes)
    else
      && AllParse(e, store, hashes)
      && (r == NotFound <==> forall p :: !Meant(DetailsOf(e, store, hashes), reference, p))
      && (r.Ambiguous? ==> AreRivals(hashes, DetailsOf(e, store, hashes), reference, r.candidates))
  }

  lemma ResolvedFailsRightly(e: Engine, store: Store, hashes: seq<Hash>, reference: string)
    requires EngineOk(e) && StoreOk(e, store) && IsListing(hashes, store, PROGRAM_LIST_LIMIT)
    requires ResolvedFrom(e, store, hashes, reference).Some?
    ensures FailsRightly(e, store, hashes, reference, ResolvedFrom(e, store, hashes, reference).value)
  {
    TextsAre(reference);
    if !IsId(reference) {
      ListingHasDetails(e, store, hashes);
      FailureMeaning(hashes, DetailsOf(e, store, hashes), reference);
    }
  }

  // ------------------------------------------------ interleaved operations

  /** A read between its store access and its turn at the cache, or finished. */
  datatype Read = Loaded(hash: Hash, wasm: Bytes) | Done(hash: Hash, found: Found) | Failed(hash: Hash)

  datatype Query = Everything | ByReference(reference: string)

  datatype Outcome = Listed(programs: seq<Detail>) | Answer(resolution: Resolution)

  /** A listing or resolution at work: it listed `hashes` once, from a store
      that was `seen` then and is remembered here only to speak about it, and
      reads one detail after the other. */
  datatype Task =
    | Busy(query: Query, seen: Store, hashes: seq<Hash>, details: seq<Detail>, loaded: Option<Bytes>)
    | Answered(query: Query, seen: Store, hashes: seq<Hash>, outcome: Outcome)
    | Erred(query: Query)

  /** `parses` lists the hashes parsed for the cache, in order. */
  datatype State = State(
    store: Store,
    cache: map<Hash, Detail>,
    parses: seq<Hash>,
    readers: map<nat, Read>,
    tasks: map<nat, Task>)

  function Fresh(store: Store): State {
    State(store, map[], [], map[], map[])
  }

  datatype Action =
    | Import(wasm: Bytes)
    | Remove(hash: Hash)
    | Load(id: nat, hash: Hash)
    | LoadFails(id: nat, hash: Hash)
    | Finish(id: nat)
    | Begin(task: nat, query: Query, hashes: seq<Hash>)
    | Fetch(task: nat, ok: bool)
    | Decode(task: nat)
    | Conclude(task: nat)

  /** The part of a read that runs under the cache lock. */
  function Lookup(e: Engine, s: State, id: nat, hash: Hash, wasm: Bytes): State {
    if hash in s.cache then s.(readers := s.readers[id := Done(hash, Parsed(s.cache[hash]))])
    else match e.parse(wasm)
      case None => s.(readers := s.readers[id := Done(hash, Invalid)])
      case Some(d) =>
        s.(cache := s.cache[hash := d], parses := s.parses + [hash], readers := s.readers[id := Done(hash, Parsed(d))])
  }

  /** List the active hashes; a full id needs no more than that. */
  function Listing(s: State, query: Query, hashes: seq<Hash>): Task {
    if query.ByReference? && IsId(query.reference) then
      Answered(query, s.store, hashes, Answer(Resolve(hashes, [], query.reference)))
    else Busy(query, s.store, hashes, [], None)
  }

  /** Load the bytes of the next listed hash. */
  function FetchNext(s: State, t: Task, ok: bool): Task
    requires t.Busy? && t.loaded.None? && |t.details| < |t.hashes|
  {
    var hash := t.hashes[|t.details|];
    if ok && hash in s.store then t.(loaded := Some(s.store[hash].wasm)) else Erred(t.query)
  }

  /** Take the next detail from the cache, or parse the loaded bytes. */
  function DecodeNext(e: Engine, s: State, id: nat, t: Task): State
    requires t.Busy? && t.loaded.Some? && |t.details| < |t.hashes|
  {
    var hash := t.hashes[|t.details|];
    if hash in s.cache then
      s.(tasks := s.tasks[id := t.(details := t.details + [s.cache[hash]], loaded := None)])
    else match e.parse(t.loaded.value)
      case None => s.(tasks := s.tasks[id := Erred(t.query)])
      case Some(d) =>
        s.(cache := s.cache[hash := d], parses := s.parses + [hash],
           tasks := s.tasks[id := t.(details := t.details + [d], loaded := None)])
  }

  function Concluded(t: Task): Task
    requires t.Busy?
  {
    Answered(t.query, t.seen, t.hashes,
             match t.query
             case Everything => Listed(t.details)
             case ByReference(reference) => Answer(Resolve(t.hashes, t.details, reference)))
  }

  /** One step of a listing or resolution that has listed its hashes. */
  function TaskStep(e: Engine, s: State, a: Action): State {
    match a
    case Fetch(id, ok) =>
      if id in s.tasks && s.tasks[id].Busy? && s.tasks[id].loaded.None? && |s.tasks[id].details| < |s.tasks[id].hashes| then
        s.(tasks := s.tasks[id := FetchNext(s, s.tasks[id], ok)])
      else s
    case Decode(id) =>
      if id in s.tasks && s.tasks[id].Busy? && s.tasks[id].loaded.Some? && |s.tasks[id].details| < |s.tasks[id].hashes| then
        DecodeNext(e, s, id, s.tasks[id])
      else s
    case Conclude(id) =>
      if id in s.tasks && s.tasks[id].Busy? && |s.tasks[id].details| == |s.tasks[id].hashes| then
        s.(tasks := s.tasks[id := Concluded(s.tasks[id])])
      else s
    case _ => s
  }

  /** One step of any caller, through any clone. A step that does not apply
      changes nothing. */
  ghost function Step(e: Engine, s: State, a: Action): State {
    match a
    case Import(wasm) =>
      if e.parse(wasm).Some? && e.loads(wasm) then s.(store := Register(e, s.store, wasm)) else s
    case Remove(hash) => s.(store := Unregister(s.store, hash))
    case Load(id, hash) =>
      if id in s.readers then s
      else if hash in s.store then s.(readers := s.readers[id := Loaded(hash, s.store[hash].wasm)])
      else s.(readers := s.readers[id := Done(hash, Missing)])
    case LoadFails(id, hash) =>
      if id in s.readers then s else s.(readers := s.readers[id := Failed(hash)])
    case Finish(id) =>
      if id in s.readers && s.readers[id].Loaded? then Lookup(e, s, id, s.readers[id].hash, s.readers[id].wasm) else s
    case Begin(id, query, hashes) =>
      if id !in s.tasks && IsListing(hashes, s.store, PROGRAM_LIST_LIMIT) then
        s.(tasks := s.tasks[id := Listing(s, query, hashes)])
      else s
    case Fetch(_, _) | Decode(_) | Conclude(_) => TaskStep(e, s, a)
  }

  ghost function Run(e: Engine, s: State, actions: seq<Action>): State {
    if actions == [] then s else Step(e, Run(e, s, actions[..|actions| - 1]), actions[|actions| - 1])
  }

  function Count(parses: seq<Hash>, hash: Hash): nat {
    if parses == [] then 0
    else Count(parses[..|parses| - 1], hash) + (if parses[|parses| - 1] == hash then 1 else 0)
  }

  predicate CacheAgrees(e: Engine, s: State, hash: Hash) {
    && (hash in s.cache ==> Uncached(e, s.store, hash) == Parsed(s.cache[hash]))
    && Count(s.parses, hash) == (if hash in s.cache then 1 else 0)
  }

  /** A read in flight holds the stored bytes; a finished read that found its
      program agrees with parsing the stored bytes. */
  predicate ReadAgrees(e: Engine, s: State, read: Read) {
    match read
    case Loaded(hash, wasm) => hash in s.store && s.store[hash].wasm == wasm
    case Done(hash, found) => found == Missing || found == Uncached(e, s.store, hash)
    case Failed(_) => true
  }

  /** `details` are what parsing the stored bytes of the first hashes gives. */
  predicate DetailsSoFar(e: Engine, store: Store, hashes: seq<Hash>, details: seq<Detail>) {
    && |details| <= |hashes|
    && forall k :: 0 <= k < |details| ==> Uncached(e, store, hashes[k]) == Parsed(details[k])
  }

  /** What a finished listing or resolution promises of the store it listed. */
  ghost predicate OutcomeOk(e: Engine, seen: Store, hashes: seq<Hash>, query: Query, outcome: Outcome) {
    match query
    case Everything => AllParse(e, seen, hashes) && outcome == Listed(DetailsOf(e, seen, hashes))
    case ByReference(reference) => outcome.Answer? && ResolvedFrom(e, seen, hashes, reference) == Some(outcome.resolution)
  }

  ghost predicate TaskAgrees(e: Engine, s: State, t: Task) {
    match t
    case Busy(query, seen, hashes, details, loaded) =>
      && IsListing(hashes, seen, PROGRAM_LIST_LIMIT) && Extends(seen, s.store)
      && DetailsSoFar(e, seen, hashes, details)
      && (query.ByReference? ==> !IsId(query.reference))
      && (loaded.Some? ==> |details| < |hashes| && hashes[|details|] in seen && loaded.value == seen[hashes[|details|]].wasm)
    case Answered(query, seen, hashes, outcome) =>
      && IsListing(hashes, seen, PROGRAM_LIST_LIMIT) && Extends(seen, s.store)
      && OutcomeOk(e, seen, hashes, query, outcome)
    case Erred(_) => true
  }

  ghost predicate Agrees(e: Engine, s: State) {
    && (forall hash :: CacheAgrees(e, s, hash))
    && (forall id :: id in s.readers ==> ReadAgrees(e, s, s.readers[id]))
    && (forall id :: id in s.tasks ==> TaskAgrees(e, s, s.tasks[id]))
  }

  /** Stored bytes never change. */
  predicate Extends(before: Store, after: Store) {
    forall hash :: hash in before ==> hash in after && after[hash].wasm == before[hash].wasm
  }

  lemma StoreChangesKeep(e: Engine, s: State, after: Store)
    requires Agrees(e, s) && Extends(s.store, after)
    ensures Agrees(e, s.(store := after))
  {
    var t := s.(store := after);
    forall hash ensures CacheAgrees(e, t, hash) {
      assert CacheAgrees(e, s, hash);
    }
    forall id | id in t.readers ensures ReadAgrees(e, t, t.readers[id]) {
      assert ReadAgrees(e, s, s.readers[id]);
    }
    forall id | id in t.tasks ensures TaskAgrees(e, t, t.tasks[id]) {
      assert TaskAgrees(e, s, s.tasks[id]);
      if !t.tasks[id].Erred? {
      }
    }
  }

  /** The stored bytes of a hash are parsed for the cache. */
  lemma CacheGrows(e: Engine, s: State, hash: Hash)
    requires Agrees(e, s) && hash in s.store && hash !in s.cache && e.parse(s.store[hash].wasm).Some?
    ensures Agrees(e, s.(cache := s.cache[hash := e.parse(s.store[hash].wasm).value], parses := s.parses + [hash]))
  {
    var t := s.(cache := s.cache[hash := e.parse(s.store[hash].wasm).value], parses := s.parses + [hash]);
    assert t.parses[..|s.parses|] == s.parses;
    forall h ensures CacheAgrees(e, t, h) {
      assert CacheAgrees(e, s, h);
    }
    forall i | i in t.readers ensures ReadAgrees(e, t, t.readers[i]) {
      assert ReadAgrees(e, s, s.readers[i]);
    }
    forall i | i in t.tasks ensures TaskAgrees(e, t, t.tasks[i]) {
      assert TaskAgrees(e, s, s.tasks[i]);
    }
  }

  lemma LookupKeeps(e: Engine, s: State, id: nat)
    requires Agrees(e, s) && id in s.readers && s.readers[id].Loaded?
    ensures Agrees(e, Lookup(e, s, id, s.readers[id].hash, s.readers[id].wasm))
  {
    var hash := s.readers[id].hash;
    var t := Lookup(e, s, id, hash, s.readers[id].wasm);
    assert ReadAgrees(e, s, s.readers[id]) && CacheAgrees(e, s, hash);
    if t.cache == s.cache {
      ReadStarts(e, s, t, id);
    } else {
      CacheGrows(e, s, hash);
      ReadStarts(e, s.(cache := t.cache, parses := t.parses), t, id);
    }
  }

  lemma StoreStepKeeps(e: Engine, s: State, a: Action)
    requires Agrees(e, s) && (a.Import? || a.Remove?)
    ensures Agrees(e, Step(e, s, a)) && Extends(s.store, Step(e, s, a).store)
  {
    StoreChangesKeep(e, s, Step(e, s, a).store);
  }

  lemma ReadStepKeeps(e: Engine, s: State, a: Action)
    requires Agrees(e, s) && (a.Load? || a.LoadFails? || a.Finish?)
    ensures Agrees(e, Step(e, s, a)) && Step(e, s, a).store == s.store
  {
    match a
    case Finish(id) =>
      if id in s.readers && s.readers[id].Loaded? {
        LookupKeeps(e, s, id);
      }
    case Load(id, _) => ReadStarts(e, s, Step(e, s, a), id);
    case LoadFails(id, _) => ReadStarts(e, s, Step(e, s, a), id);
    case _ =>
  }

  lemma BeginKeeps(e: Engine, s: State, id: nat, query: Query, hashes: seq<Hash>)
    requires Agrees(e, s)
    ensures var t := Step(e, s, Begin(id, query, hashes)); Agrees(e, t) && t.store == s.store
  {
    if id !in s.tasks && IsListing(hashes, s.store, PROGRAM_LIST_LIMIT) {
      TaskMoves(e, s, Step(e, s, Begin(id, query, hashes)), id);
    }
  }

  lemma StepKeeps(e: Engine, s: State, a: Action)
    requires Agrees(e, s)
    ensures Agrees(e, Step(e, s, a)) && Extends(s.store, Step(e, s, a).store)
  {
    match a
    case Import(_) | Remove(_) => StoreStepKeeps(e, s, a);
    case Load(_, _) | LoadFails(_, _) | Finish(_) => ReadStepKeeps(e, s, a);
    case Begin(id, query, hashes) => BeginKeeps(e, s, id, query, hashes);
    case Fetch(_, _) | Decode(_) | Conclude(_) => TaskStepKeeps(e, s, a);
  }

  lemma TaskStepKeeps(e: Engine, s: State, a: Action)
    requires Agrees(e, s)
    ensures Agrees(e, TaskStep(e, s, a)) && TaskStep(e, s, a).store == s.store
  {
    var t := TaskStep(e, s, a);
    if t != s {
      match a
      case Fetch(id, ok) =>
        assert TaskAgrees(e, s, s.tasks[id]);
        TaskMoves(e, s, t, id);
      case Decode(id) => DecodeKeeps(e, s, id);
      case Conclude(id) =>
        assert TaskAgrees(e, s, s.tasks[id]);
        ConcludedAgrees(e, s, s.tasks[id]);
        TaskMoves(e, s, t, id);
      case _ =>
    }
  }

  lemma ConcludedAgrees(e: Engine, s: State, t: Task)
    requires t.Busy? && |t.details| == |t.hashes| && TaskAgrees(e, s, t)
    ensures TaskAgrees(e, s, Concluded(t))
  {
    assert AllParse(e, t.seen, t.hashes);
    var programs := DetailsOf(e, t.seen, t.hashes);
    forall k | 0 <= k < |t.hashes| ensures t.details[k] == programs[k] {
      assert Uncached(e, t.seen, t.hashes[k]) == Parsed(t.details[k]);
    }
    assert t.details == programs;
  }

  /** Only one task moved, and it still agrees. */
  lemma TaskMoves(e: Engine, s: State, t: State, id: nat)
    requires Agrees(e, s) && id in t.tasks && t == s.(tasks := s.tasks[id := t.tasks[id]])
    requires TaskAgrees(e, s, t.tasks[id])
    ensures Agrees(e, t)
  {
    forall hash ensures CacheAgrees(e, t, hash) {
      assert CacheAgrees(e, s, hash);
    }
    forall i | i in t.readers ensures ReadAgrees(e, t, t.readers[i]) {
      assert ReadAgrees(e, s, s.readers[i]);
    }
    forall i | i in t.tasks ensures TaskAgrees(e, t, t.tasks[i]) {
      assert i != id ==> TaskAgrees(e, s, s.tasks[i]);
    }
  }

  lemma DecodeKeeps(e: Engine, s: State, id: nat)
    requires Agrees(e, s) && id in s.tasks && s.tasks[id].Busy?
    requires s.tasks[id].loaded.Some? && |s.tasks[id].details| < |s.tasks[id].hashes|
    ensures Agrees(e, DecodeNext(e, s, id, s.tasks[id]))
  {
    var t := s.tasks[id];
    var hash := t.hashes[|t.details|];
    var n := DecodeNext(e, s, id, t);
    assert TaskAgrees(e, s, t) && CacheAgrees(e, s, hash);
    assert hash in s.store && s.store[hash].wasm == t.loaded.value;
    if n.cache == s.cache {
      TaskMoves(e, s, n, id);
    } else {
      var grown := s.(cache := n.cache, parses := n.parses);
      CacheGrows(e, s, hash);
      assert TaskAgrees(e, grown, n.tasks[id]);
      TaskMoves(e, grown, n, id);
    }
  }

  lemma ReadStarts(e: Engine, s: State, t: State, id: nat)
    requires Agrees(e, s) && t.store == s.store && t.cache == s.cache && t.parses == s.parses && t.tasks == s.tasks
    requires forall i :: i in t.readers ==> i == id || (i in s.readers && t.readers[i] == s.readers[i])
    requires id in t.readers ==> ReadAgrees(e, t, t.readers[id])
    ensures Agrees(e, t)
  {
    forall hash ensures CacheAgrees(e, t, hash) {
      assert CacheAgrees(e, s, hash);
    }
    forall i | i in t.readers ensures ReadAgrees(e, t, t.readers[i]) {
      if i != id {
        assert ReadAgrees(e, s, s.readers[i]);
      }
    }
    forall i | i in t.tasks ensures TaskAgrees(e, t, t.tasks[i]) {
      assert TaskAgrees(e, s, s.tasks[i]);
    }
  }

  /** In every interleaving of imports, removals and reads, from any store: a
      finished read that met the program found what parsing the stored bytes
      gives, and no hash is parsed for the cache twice. */
  lemma {:induction false} EveryInterleavingAgrees(e: Engine, store: Store, actions: seq<Action>)
    ensures Agrees(e, Run(e, Fresh(store), actions))
    ensures forall hash :: Count(Run(e, Fresh(store), actions).parses, hash) <= 1
  {
    var s := Fresh(store);
    if actions == [] {
      forall hash ensures CacheAgrees(e, s, hash) {}
    } else {
      EveryInterleavingAgrees(e, store, actions[..|actions| - 1]);
      StepKeeps(e, Run(e, s, actions[..|actions| - 1]), actions[|actions| - 1]);
    }
    forall hash ensures Count(Run(e, s, actions).parses, hash) <= 1 {
      assert CacheAgrees(e, Run(e, s, actions), hash);
    }
  }

  /** A read that nothing interrupts gives what parsing the stored bytes gives,
      absence included. */
  lemma UndisturbedRead(e: Engine, s: State, id: nat, hash: Hash)
    requires Agrees(e, s) && id !in s.readers
    ensures var t := Step(e, Step(e, s, Load(id, hash)), Finish(id));
            t.readers[id] == Done(hash, Uncached(e, s.store, hash))
  {
    assert CacheAgrees(e, s, hash);
  }

  // ------------------------------------------------- how a task can end

  /** The steps of one task when nothing interrupts it. */
  predicate OwnSteps(actions: seq<Action>, id: nat) {
    forall k :: 0 <= k < |actions| ==> actions[k] == Fetch(id, true) || actions[k] == Decode(id) || actions[k] == Conclude(id)
  }

  /** Task `id` comes to an end by itself. */
  ghost predicate EndsBy(e: Engine, s: State, id: nat, more: seq<Action>, answered: bool) {
    && OwnSteps(more, id)
    && var t := Run(e, s, more); id in t.tasks && (if answered then t.tasks[id].Answered? else t.tasks[id].Erred?)
  }

  lemma EndsOneLater(e: Engine, s: State, id: nat, a: Action, more: seq<Action>, answered: bool)
    requires OwnSteps([a], id) && EndsBy(e, Step(e, s, a), id, more, answered)
    ensures EndsBy(e, s, id, [a] + more, answered)
  {
    RunOn(e, s, [], a);
    assert [] + [a] == [a] && [a][0] == a;
    RunConcat(e, s, [a], more);
    forall k | 0 <= k < |[a] + more|
      ensures ([a] + more)[k] == Fetch(id, true) || ([a] + more)[k] == Decode(id) || ([a] + more)[k] == Conclude(id)
    {
      assert k > 0 ==> ([a] + more)[k] == more[k - 1];
    }
  }

  /** What remains of a busy task. */
  function Remaining(t: Task): nat
    requires t.Busy?
  {
    2 * (if |t.details| <= |t.hashes| then |t.hashes| - |t.details| else 0) + (if t.loaded.None? then 1 else 0)
  }

  /** A busy task was brought on, or ended as it must end. */
  ghost predicate MovesOn(e: Engine, t: Task, t': Task)
    requires t.Busy?
  {
    && (t'.Busy? ==> t'.seen == t.seen && t'.hashes == t.hashes && Remaining(t') < Remaining(t))
    && (t'.Answered? ==> AllParse(e, t.seen, t.hashes)) && (t'.Erred? ==> !AllParse(e, t.seen, t.hashes))
  }

  lemma ConcludeMoves(e: Engine, s: State, t: Task)
    requires t.Busy? && TaskAgrees(e, s, t) && |t.details| == |t.hashes|
    ensures MovesOn(e, t, Concluded(t))
  {
  }

  lemma FetchMoves(e: Engine, s: State, t: Task)
    requires t.Busy? && TaskAgrees(e, s, t) && |t.details| < |t.hashes| && t.loaded.None?
    ensures MovesOn(e, t, FetchNext(s, t, true)) && FetchNext(s, t, true).Busy?
  {
    assert Active(t.seen, t.hashes[|t.details|]);
  }

  lemma DecodeMoves(e: Engine, s: State, id: nat, t: Task)
    requires t.Busy? && TaskAgrees(e, s, t) && |t.details| < |t.hashes| && t.loaded.Some?
    requires CacheAgrees(e, s, t.hashes[|t.details|])
    ensures id in DecodeNext(e, s, id, t).tasks && MovesOn(e, t, DecodeNext(e, s, id, t).tasks[id])
  {
  }

  /** One step of a busy task of its own moves it on. */
  lemma TaskAdvances(e: Engine, s: State, id: nat) returns (a: Action)
    requires Agrees(e, s) && id in s.tasks && s.tasks[id].Busy?
    ensures OwnSteps([a], id) && Agrees(e, Step(e, s, a))
    ensures id in Step(e, s, a).tasks && MovesOn(e, s.tasks[id], Step(e, s, a).tasks[id])
  {
    var t := s.tasks[id];
    assert TaskAgrees(e, s, t);
    if |t.details| == |t.hashes| {
      a := Conclude(id);
      ConcludeMoves(e, s, t);
    } else if t.loaded.None? {
      a := Fetch(id, true);
      FetchMoves(e, s, t);
    } else {
      a := Decode(id);
      assert CacheAgrees(e, s, t.hashes[|t.details|]);
      DecodeMoves(e, s, id, t);
    }
    StepKeeps(e, s, a);
  }

  lemma {:induction false} TaskEnds(e: Engine, s: State, id: nat)
    requires Agrees(e, s) && id in s.tasks && s.tasks[id].Busy?
    ensures exists more :: EndsBy(e, s, id, more, AllParse(e, s.tasks[id].seen, s.tasks[id].hashes))
    decreases Remaining(s.tasks[id])
  {
    var t := s.tasks[id];
    var a := TaskAdvances(e, s, id);
    var n, fine := Step(e, s, a), AllParse(e, t.seen, t.hashes);
    if n.tasks[id].Busy? {
      TaskEnds(e, n, id);
    } else {
      assert EndsBy(e, n, id, [], fine);
    }
    var more :| EndsBy(e, n, id, more, fine);
    EndsOneLater(e, s, id, a, more, fine);
  }

  /** In every interleaving: a listing or resolution at work can end by itself,
      and be answered exactly if the bytes of everything it listed parse. */
  lemma TaskEndsExactly(e: Engine, store: Store, actions: seq<Action>, id: nat)
    requires var s := Run(e, Fresh(store), actions); id in s.tasks && s.tasks[id].Busy?
    ensures var s := Run(e, Fresh(store), actions); var t := s.tasks[id];
      exists more :: EndsBy(e, s, id, more, AllParse(e, t.seen, t.hashes))
    ensures var s := Run(e, Fresh(store), actions); var t := s.tasks[id];
      (exists more :: EndsBy(e, s, id, more, true)) <==> AllParse(e, t.seen, t.hashes)
  {
    var s := Run(e, Fresh(store), actions);
    EveryInterleavingAgrees(e, store, actions);
    TaskEnds(e, s, id);
    forall more | EndsBy(e, s, id, more, true) ensures AllParse(e, s.tasks[id].seen, s.tasks[id].hashes) {
      AnsweredParses(e, store, actions, id, more);
    }
  }

  lemma AnsweredParses(e: Engine, store: Store, actions: seq<Action>, id: nat, more: seq<Action>)
    requires var s := Run(e, Fresh(store), actions);
      id in s.tasks && s.tasks[id].Busy? && EndsBy(e, s, id, more, true)
    ensures var t := Run(e, Fresh(store), actions).tasks[id]; AllParse(e, t.seen, t.hashes)
  {
    var s := Run(e, Fresh(store), actions);
    EveryInterleavingAgrees(e, store, actions);
    RunConcat(e, Fresh(store), actions, more);
    EveryInterleavingAgrees(e, store, actions + more);
    RunKeepsListing(e, s, more, id);
    assert TaskAgrees(e, s, s.tasks[id]);
    assert TaskAgrees(e, Run(e, s, more), Run(e, s, more).tasks[id]);
  }

  /** A task errs only because a read fails or because something it listed does
      not parse. */
  lemma OnlyTroubleErrs(e: Engine, s: State, a: Action, id: nat)
    requires Agrees(e, s) && id in s.tasks && s.tasks[id].Busy? && AllParse(e, s.tasks[id].seen, s.tasks[id].hashes)
    requires a != Fetch(id, false)
    ensures id in Step(e, s, a).tasks && !Step(e, s, a).tasks[id].Erred?
  {
    var t := s.tasks[id];
    assert TaskAgrees(e, s, t);
    match a
    case Fetch(k, ok) => if k == id && t.loaded.None? && |t.details| < |t.hashes| { FetchMoves(e, s, t); }
    case Decode(k) =>
      if k == id && t.loaded.Some? && |t.details| < |t.hashes| {
        assert CacheAgrees(e, s, t.hashes[|t.details|]);
        DecodeMoves(e, s, id, t);
      }
    case Conclude(_) =>
    case _ =>
  }

  // ------------------------------------- listings and resolutions in a run

  /** The store was `seen` at some moment of the run. */
  ghost predicate WasStore(e: Engine, store: Store, actions: seq<Action>, seen: Store) {
    exists k :: 0 <= k <= |actions| && Run(e, Fresh(store), actions[..k]).store == seen
  }

  ghost predicate SeenOk(e: Engine, store: Store, actions: seq<Action>, s: State) {
    forall id :: id in s.tasks && !s.tasks[id].Erred? ==> WasStore(e, store, actions, s.tasks[id].seen)
  }

  /** A task keeps the store it listed, or lists the present one. */
  predicate SeenStep(s: State, t: State) {
    forall id :: id in t.tasks && !t.tasks[id].Erred? ==>
      || t.tasks[id].seen == s.store
      || (id in s.tasks && !s.tasks[id].Erred? && s.tasks[id].seen == t.tasks[id].seen)
  }

  lemma StepSees(e: Engine, s: State, a: Action)
    ensures SeenStep(s, Step(e, s, a))
  {
    match a
    case Fetch(_, _) | Decode(_) | Conclude(_) =>
    case _ =>
  }

  lemma WasStoreStays(e: Engine, store: Store, actions: seq<Action>, seen: Store)
    requires actions != []
    requires WasStore(e, store, actions[..|actions| - 1], seen)
    ensures WasStore(e, store, actions, seen)
  {
    var before := actions[..|actions| - 1];
    var k :| 0 <= k <= |before| && Run(e, Fresh(store), before[..k]).store == seen;
    assert before[..k] == actions[..k];
  }

  lemma {:induction false} EveryTaskSawAStore(e: Engine, store: Store, actions: seq<Action>)
    ensures SeenOk(e, store, actions, Run(e, Fresh(store), actions))
  {
    if actions != [] {
      var before := actions[..|actions| - 1];
      var s, t := Run(e, Fresh(store), before), Run(e, Fresh(store), actions);
      EveryTaskSawAStore(e, store, before);
      StepSees(e, s, actions[|actions| - 1]);
      assert before[..|before|] == before;
      assert WasStore(e, store, before, s.store);
      forall id | id in t.tasks && !t.tasks[id].Erred? ensures WasStore(e, store, actions, t.tasks[id].seen) {
        WasStoreStays(e, store, actions, t.tasks[id].seen);
      }
    }
  }

  lemma {:induction false} StoresStayOk(e: Engine, store: Store, actions: seq<Action>)
    requires StoreOk(e, store)
    ensures StoreOk(e, Run(e, Fresh(store), actions).store)
  {
    if actions != [] {
      StoresStayOk(e, store, actions[..|actions| - 1]);
      StepKeepsStoreOk(e, Run(e, Fresh(store), actions[..|actions| - 1]), actions[|actions| - 1]);
    }
  }

  lemma StepKeepsStoreOk(e: Engine, s: State, a: Action)
    requires StoreOk(e, s.store)
    ensures StoreOk(e, Step(e, s, a).store)
  {
    match a
    case Import(_) =>
    case Remove(_) =>
    case Fetch(_, _) | Decode(_) | Conclude(_) => assert TaskStep(e, s, a).store == s.store;
    case _ =>
  }

  lemma WasStoreIsOk(e: Engine, store: Store, actions: seq<Action>, seen: Store)
    requires StoreOk(e, store) && WasStore(e, store, actions, seen)
    ensures StoreOk(e, seen)
  {
    var k :| 0 <= k <= |actions| && Run(e, Fresh(store), actions[..k]).store == seen;
    StoresStayOk(e, store, actions[..k]);
  }

  /** Bytes once listed are still stored, so their details are the same. */
  lemma DetailsStay(e: Engine, seen: Store, now: Store, hashes: seq<Hash>)
    requires IsListing(hashes, seen, PROGRAM_LIST_LIMIT) && Extends(seen, now)
    ensures AllParse(e, seen, hashes) <==> AllParse(e, now, hashes)
    ensures AllParse(e, seen, hashes) ==> DetailsOf(e, seen, hashes) == DetailsOf(e, now, hashes)
  {
    forall k | 0 <= k < |hashes| ensures Uncached(e, seen, hashes[k]) == Uncached(e, now, hashes[k]) {
      assert Active(seen, hashes[k]);
    }
    if AllParse(e, seen, hashes) {
      var a, b := DetailsOf(e, seen, hashes), DetailsOf(e, now, hashes);
      forall k | 0 <= k < |hashes| ensures a[k] == b[k] {
        assert Uncached(e, seen, hashes[k]) == Parsed(a[k]);
      }
    }
  }

  /** In every interleaving of imports, removals, reads, listings and other
      resolutions: a resolution that was answered listed the active programs
      of the store at one moment of the run, and succeeded with a hash exactly
      when the reference names it among those programs, as the bytes stored
      then and now describe them; that program was active when listed. */
  lemma ResolutionsAreNamed(e: Engine, store: Store, actions: seq<Action>, id: nat)
    requires EngineOk(e) && StoreOk(e, store)
    requires var s := Run(e, Fresh(store), actions);
      id in s.tasks && s.tasks[id].Answered? && s.tasks[id].query.ByReference?
    ensures var s := Run(e, Fresh(store), actions); var t := s.tasks[id];
      && WasStore(e, store, actions, t.seen) && IsListing(t.hashes, t.seen, PROGRAM_LIST_LIMIT)
      && t.outcome.Answer? && ResolvedFrom(e, t.seen, t.hashes, t.query.reference) == Some(t.outcome.resolution)
      && (forall h :: t.outcome.resolution == Resolved(h) <==> NamedIn(e, t.seen, t.hashes, t.query.reference, h))
      && (forall h :: NamedIn(e, t.seen, t.hashes, t.query.reference, h) <==> NamedIn(e, s.store, t.hashes, t.query.reference, h))
      && (t.outcome.resolution.Resolved? ==> Active(t.seen, t.outcome.resolution.hash))
      && FailsRightly(e, t.seen, t.hashes, t.query.reference, t.outcome.resolution)
  {
    EveryInterleavingAgrees(e, store, actions);
    EveryTaskSawAStore(e, store, actions);
    var s := Run(e, Fresh(store), actions);
    var t := s.tasks[id];
    assert TaskAgrees(e, s, t);
    WasStoreIsOk(e, store, actions, t.seen);
    DetailsStay(e, t.seen, s.store, t.hashes);
    ResolvedFailsRightly(e, t.seen, t.hashes, t.query.reference);
    forall h
      ensures t.outcome.resolution == Resolved(h) <==> NamedIn(e, t.seen, t.hashes, t.query.reference, h)
      ensures NamedIn(e, t.seen, t.hashes, t.query.reference, h) ==> Active(t.seen, h)
    {
      ResolvedMeansNamed(e, t.seen, t.hashes, t.query.reference, h);
    }
  }

  /** In every interleaving a finished listing holds, for each program active
      at one moment of the run up to the limit, what its stored bytes say. */
  lemma ListingsAreDetails(e: Engine, store: Store, actions: seq<Action>, id: nat)
    requires var s := Run(e, Fresh(store), actions);
      id in s.tasks && s.tasks[id].Answered? && s.tasks[id].query.Everything?
    ensures var s := Run(e, Fresh(store), actions); var t := s.tasks[id];
      && WasStore(e, store, actions, t.seen) && IsListing(t.hashes, t.seen, PROGRAM_LIST_LIMIT)
      && AllParse(e, s.store, t.hashes) && t.outcome == Listed(DetailsOf(e, s.store, t.hashes))
  {
    EveryInterleavingAgrees(e, store, actions);
    EveryTaskSawAStore(e, store, actions);
    var s := Run(e, Fresh(store), actions);
    assert TaskAgrees(e, s, s.tasks[id]);
    DetailsStay(e, s.tasks[id].seen, s.store, s.tasks[id].hashes);
  }

  lemma RunOn(e: Engine, s: State, actions: seq<Action>, a: Action)
    ensures Run(e, s, actions + [a]) == Step(e, Run(e, s, actions), a)
  {
    assert (actions + [a])[..|actions|] == actions;
  }

  /** The bytes `wasm`, stored under `hash`, are registered as active. */
  predicate Revives(e: Engine, a: Action, hash: Hash, wasm: Bytes) {
    a == Import(wasm) && e.hashOf(wasm) == hash && e.parse(wasm).Some? && e.loads(wasm)
  }

  /** The last import or removal of the program, if any, is no removal: every
      removal is followed by an import. */
  ghost predicate LastKeeps(e: Engine, actions: seq<Action>, hash: Hash, wasm: Bytes) {
    forall k :: 0 <= k < |actions| && actions[k] == Remove(hash) ==> RevivedAfter(e, actions, k, hash, wasm)
  }

  ghost predicate RevivedAfter(e: Engine, actions: seq<Action>, k: nat, hash: Hash, wasm: Bytes) {
    exists j :: k < j < |actions| && Revives(e, actions[j], hash, wasm)
  }

  /** One step changes whether a stored program is active only by removing it
      or by importing its own bytes. */
  lemma StepOnActive(e: Engine, s: State, a: Action, hash: Hash)
    requires hash in s.store && e.hashOf(s.store[hash].wasm) == hash
    ensures var t := Step(e, s, a);
      && hash in t.store && t.store[hash].wasm == s.store[hash].wasm
      && (Active(t.store, hash) <==>
            a != Remove(hash) && (Active(s.store, hash) || Revives(e, a, hash, s.store[hash].wasm)))
  {
    match a
    case Import(_) =>
    case Remove(_) =>
    case Fetch(_, _) | Decode(_) | Conclude(_) => assert TaskStep(e, s, a).store == s.store;
    case _ =>
  }

  lemma LastKeepsStep(e: Engine, actions: seq<Action>, a: Action, hash: Hash, wasm: Bytes)
    ensures LastKeeps(e, actions + [a], hash, wasm) <==>
      a != Remove(hash) && (LastKeeps(e, actions, hash, wasm) || Revives(e, a, hash, wasm))
  {
    var all := actions + [a];
    if LastKeeps(e, all, hash, wasm) && !Revives(e, a, hash, wasm) {
      forall k | 0 <= k < |actions| && actions[k] == Remove(hash) ensures RevivedAfter(e, actions, k, hash, wasm) {
        assert all[k] == Remove(hash);
        var j :| k < j < |all| && Revives(e, all[j], hash, wasm);
        assert actions[j] == all[j];
      }
    }
    if LastKeeps(e, all, hash, wasm) {
      assert all[|actions|] == a;
      assert !RevivedAfter(e, all, |actions|, hash, wasm);
    }
    if a != Remove(hash) && (LastKeeps(e, actions, hash, wasm) || Revives(e, a, hash, wasm)) {
      forall k | 0 <= k < |all| && all[k] == Remove(hash) ensures RevivedAfter(e, all, k, hash, wasm) {
        assert actions[k] == Remove(hash);
        if Revives(e, a, hash, wasm) {
          assert Revives(e, all[|actions|], hash, wasm);
        } else {
          var j :| k < j < |actions| && Revives(e, actions[j], hash, wasm);
          assert Revives(e, all[j], hash, wasm);
        }
      }
    }
  }

  /** From a state in which a program is active, any actions leave it active
      exactly when the last import or removal of it is no removal. */
  lemma {:induction false} ActiveAfter(e: Engine, s: State, actions: seq<Action>, hash: Hash)
    requires Active(s.store, hash) && e.hashOf(s.store[hash].wasm) == hash
    ensures var t := Run(e, s, actions);
      && hash in t.store && t.store[hash].wasm == s.store[hash].wasm
      && (Active(t.store, hash) <==> LastKeeps(e, actions, hash, s.store[hash].wasm))
  {
    if actions != [] {
      var before, a := actions[..|actions| - 1], actions[|actions| - 1];
      ActiveAfter(e, s, before, hash);
      StepOnActive(e, Run(e, s, before), a, hash);
      LastKeepsStep(e, before, a, hash, s.store[hash].wasm);
      assert before + [a] == actions;
    }
  }

  /** A task goes on with what it listed, or fails. */
  predicate SameListing(t: Task, t': Task) {
    t'.Erred? || (!t.Erred? && t'.query == t.query && t'.seen == t.seen && t'.hashes == t.hashes)
  }

  lemma StepKeepsListing(e: Engine, s: State, a: Action, id: nat)
    requires id in s.tasks
    ensures id in Step(e, s, a).tasks && SameListing(s.tasks[id], Step(e, s, a).tasks[id])
  {
    match a
    case Fetch(_, _) | Decode(_) | Conclude(_) => TaskStepKeepsListing(e, s, a, id);
    case _ =>
  }

  lemma TaskStepKeepsListing(e: Engine, s: State, a: Action, id: nat)
    requires id in s.tasks
    ensures id in TaskStep(e, s, a).tasks && SameListing(s.tasks[id], TaskStep(e, s, a).tasks[id])
  {
  }

  lemma {:induction false} RunKeepsListing(e: Engine, s: State, actions: seq<Action>, id: nat)
    requires id in s.tasks
    ensures id in Run(e, s, actions).tasks && SameListing(s.tasks[id], Run(e, s, actions).tasks[id])
  {
    if actions != [] {
      RunKeepsListing(e, s, actions[..|actions| - 1], id);
      StepKeepsListing(e, Run(e, s, actions[..|actions| - 1]), actions[|actions| - 1], id);
    }
  }

  lemma {:induction false} RunConcat(e: Engine, s: State, a: seq<Action>, b: seq<Action>)
    ensures Run(e, s, a + b) == Run(e, Run(e, s, a), b)
  {
    if b == [] {
      assert a + b == a;
    } else {
      assert (a + b)[..|a + b| - 1] == a + b[..|b| - 1];
      RunConcat(e, s, a, b[..|b| - 1]);
    }
  }

  /** The run up to a resolution, the step in which it lists, and what comes
      after it. */
  ghost predicate Lists(e: Engine, store: Store, before: seq<Action>, begin: Action) {
    && begin.Begin? && begin.query.ByReference?
    && begin.task !in Run(e, Fresh(store), before).tasks
    && IsListing(begin.hashes, Run(e, Fresh(store), before).store, PROGRAM_LIST_LIMIT)
  }

  lemma ListedThen(e: Engine, store: Store, before: seq<Action>, begin: Action, after: seq<Action>)
    requires Lists(e, store, before, begin)
    ensures var s := Run(e, Fresh(store), before);
      var t := Run(e, Fresh(store), before + [begin] + after);
      && t == Run(e, Step(e, s, begin), after) && Step(e, s, begin).store == s.store
      && begin.task in t.tasks
      && (t.tasks[begin.task].Answered? ==> t.tasks[begin.task].query.ByReference? && t.tasks[begin.task].seen == s.store)
  {
    RunConcat(e, Fresh(store), before + [begin], after);
    RunOn(e, Fresh(store), before, begin);
    RunKeepsListing(e, Run(e, Fresh(store), before + [begin]), after, begin.task);
  }

  /** In every interleaving: the program with which a resolution was answered
      is still active exactly when, after the step that listed it, the last
      import or removal of that program, if any, is no removal. */
  lemma AnswerStaysActive(e: Engine, store: Store, before: seq<Action>, begin: Action, after: seq<Action>)
    requires EngineOk(e) && StoreOk(e, store) && Lists(e, store, before, begin)
    ensures var s := Run(e, Fresh(store), before);
      var t := Run(e, Fresh(store), before + [begin] + after);
      begin.task in t.tasks && forall h ::
        t.tasks[begin.task].Answered? && t.tasks[begin.task].outcome == Answer(Resolved(h)) ==>
          Active(s.store, h) && (Active(t.store, h) <==> LastKeeps(e, after, h, s.store[h].wasm))
  {
    var s, t := Run(e, Fresh(store), before), Run(e, Fresh(store), before + [begin] + after);
    ListedThen(e, store, before, begin, after);
    StoresStayOk(e, store, before);
    forall h | t.tasks[begin.task].Answered? && t.tasks[begin.task].outcome == Answer(Resolved(h))
      ensures Active(s.store, h) && (Active(t.store, h) <==> LastKeeps(e, after, h, s.store[h].wasm))
    {
      ResolutionsAreNamed(e, store, before + [begin] + after, begin.task);
      ActiveAfter(e, Step(e, s, begin), after, h);
    }
  }

  /** Import a program, and list and read it to resolve its name. */
  function ReadByName(h: Hash, wasm: Bytes, name: string): seq<Action> {
    [Import(wasm)] + [Begin(0, ByReference(name), [h])] + [Fetch(0, true)] + [Decode(0)]
  }

  /** The program is removed before its resolution is answered. */
  function RemovedBeforeAnswer(h: Hash, wasm: Bytes, name: string): seq<Action> {
    ReadByName(h, wasm, name) + [Remove(h)] + [Conclude(0)]
  }

  lemma ReadByNameRuns(e: Engine, wasm: Bytes, d: Detail)
    requires e.parse(wasm) == Some(d) && e.loads(wasm) && !IsId(d.name)
    ensures var h := e.hashOf(wasm); var s := Run(e, Fresh(map[]), ReadByName(h, wasm, d.name));
      s.store == map[h := Row(wasm, false)]
      && s.tasks == map[0 := Busy(ByReference(d.name), map[h := Row(wasm, false)], [h], [d], None)]
  {
    var h, s0 := e.hashOf(wasm), Fresh(map[]);
    var listed: Store := map[h := Row(wasm, false)];
    RunOn(e, s0, [], Import(wasm));
    assert [] + [Import(wasm)] == [Import(wasm)];
    var s1 := Run(e, s0, [Import(wasm)]);
    assert s1 == Fresh(listed);
    assert IsListing([h], listed, PROGRAM_LIST_LIMIT);
    RunOn(e, s0, [Import(wasm)], Begin(0, ByReference(d.name), [h]));
    var s2 := Step(e, s1, Begin(0, ByReference(d.name), [h]));
    assert s2.tasks == map[0 := Busy(ByReference(d.name), listed, [h], [], None)];
    RunOn(e, s0, [Import(wasm)] + [Begin(0, ByReference(d.name), [h])], Fetch(0, true));
    var s3 := Step(e, s2, Fetch(0, true));
    assert s3.tasks == map[0 := Busy(ByReference(d.name), listed, [h], [], Some(wasm))];
    RunOn(e, s0, [Import(wasm)] + [Begin(0, ByReference(d.name), [h])] + [Fetch(0, true)], Decode(0));
    var none: seq<Detail> := [];
    assert none + [d] == [d];
    assert Step(e, s3, Decode(0)).tasks == map[0 := Busy(ByReference(d.name), listed, [h], [d], None)];
  }

  lemma OneNamed(d: Detail)
    ensures Matching([d], Named(d.name)) == [d.hash]
  {
    assert [d][..0] == [];
  }

  /** A program that is listed and read, then removed, and only then answered
      with: it was active when listed and is not any more. */
  lemma AnswerMayBeRemoved(e: Engine, wasm: Bytes, d: Detail)
    requires e.parse(wasm) == Some(d) && e.loads(wasm) && !IsId(d.name) && d.hash == e.hashOf(wasm)
    ensures var s := Run(e, Fresh(map[]), RemovedBeforeAnswer(d.hash, wasm, d.name));
      && 0 in s.tasks && s.tasks[0].Answered? && s.tasks[0].outcome == Answer(Resolved(d.hash))
      && Active(s.tasks[0].seen, d.hash) && !Active(s.store, d.hash)
  {
    var s0, begin := Fresh(map[]), ReadByName(d.hash, wasm, d.name);
    ReadByNameRuns(e, wasm, d);
    RunOn(e, s0, begin, Remove(d.hash));
    RunOn(e, s0, begin + [Remove(d.hash)], Conclude(0));
    OneNamed(d);
  }

  // ------------------------------------------------------------- the catalog

  /** The catalog behind every clone of one Host's handle. */
  class ProgramCatalog {
    const engine: Engine
    var store: Store
    var details: map<Hash, Detail>
    ghost var parses: seq<Hash>

    ghost function Value(): State
      reads this
    {
      State(store, details, parses, map[], map[])
    }

    ghost predicate Valid()
      reads this
    {
      Agrees(engine, Value()) && EngineOk(engine) && StoreOk(engine, store)
    }

    constructor (engine: Engine, store: Store)
      requires EngineOk(engine) && StoreOk(engine, store)
      ensures Valid() && this.engine == engine && this.store == store && details == map[]
    {
      this.engine, this.store, details, parses := engine, store, map[], [];
      new;
      EveryInterleavingAgrees(engine, store, []);
    }

    method ReadDetail(hash: Hash) returns (found: Found)
      requires Valid()
      modifies this`details, this`parses
      ensures Valid()
      ensures found == Uncached(engine, store, hash)
      ensures hash in old(details) ==> parses == old(parses)
    {
      assert CacheAgrees(engine, Value(), hash);
      if hash !in store {
        return Missing;
      }
      var wasm := store[hash].wasm;
      if hash in details {
        return Parsed(details[hash]);
      }
      ghost var before := Value();
      var program := engine.parse(wasm);
      if program.None? {
        return Invalid;
      }
      details := details[hash := program.value];
      parses := parses + [hash];
      CacheGrows(engine, before, hash);
      return Parsed(program.value);
    }

    method ImportProgram(wasm: Bytes) returns (ok: bool)
      requires Valid()
      modifies this`store
      ensures Valid()
      ensures ok <==> engine.parse(wasm).Some? && engine.loads(wasm)
      ensures store == if ok then Register(engine, old(store), wasm) else old(store)
      ensures var hash := engine.hashOf(wasm);
        ok && (hash in old(store) ==> old(store)[hash].wasm == wasm) ==> store == old(store)[hash := Row(wasm, false)]
    {
      ok := engine.parse(wasm).Some? && engine.loads(wasm);
      StepKeeps(engine, Value(), Import(wasm));
      if ok {
        store := Register(engine, store, wasm);
      }
    }

    method RemoveProgram(hash: Hash)
      requires Valid()
      modifies this`store
      ensures Valid()
      ensures store == Unregister(old(store), hash)
      ensures !Active(store, hash) && Uncached(engine, store, hash) == Uncached(engine, old(store), hash)
    {
      StepKeeps(engine, Value(), Remove(hash));
      store := Unregister(store, hash);
    }

    /** Details of the listed hashes; one that does not parse fails the call. */
    method ListPrograms(hashes: seq<Hash>) returns (programs: Option<seq<Detail>>)
      requires Valid() && IsListing(hashes, store, PROGRAM_LIST_LIMIT)
      modifies this`details, this`parses
      ensures Valid()
      ensures programs.Some? <==> AllParse(engine, store, hashes)
      ensures programs.Some? ==> programs.value == DetailsOf(engine, store, hashes) && Details(programs.value, hashes)
    {
      var listed := [];
      for i := 0 to |hashes|
        invariant Valid() && |listed| == i
        invariant forall k :: 0 <= k < i ==> Uncached(engine, store, hashes[k]) == Parsed(listed[k])
      {
        var found := ReadDetail(hashes[i]);
        if !found.Parsed? {
          return None;
        }
        listed := listed + [found.detail];
      }
      ListingHasDetails(engine, store, hashes);
      assert listed == DetailsOf(engine, store, hashes);
      return Some(listed);
    }

    method ResolveReference(hashes: seq<Hash>, reference: string) returns (r: Option<Resolution>)
      requires Valid() && IsListing(hashes, store, PROGRAM_LIST_LIMIT)
      modifies this`details, this`parses
      ensures Valid()
      ensures r == ResolvedFrom(engine, store, hashes, reference)
      ensures r.None? <==> !IsId(reference) && !AllParse(engine, store, hashes)
      ensures forall h :: r == Some(Resolved(h)) <==> NamedIn(engine, store, hashes, reference, h)
      ensures r.Some? && r.value.Resolved? ==> Active(store, r.value.hash)
      ensures r.Some? ==> FailsRightly(engine, store, hashes, reference, r.value)
      ensures IsId(reference) ==> parses == old(parses)
    {
      forall h ensures ResolvedFrom(engine, store, hashes, reference) == Some(Resolved(h)) <==> NamedIn(engine, store, hashes, reference, h)
        ensures NamedIn(engine, store, hashes, reference, h) ==> Active(store, h)
      {
        ResolvedMeansNamed(engine, store, hashes, reference, h);
      }
      if ResolvedFrom(engine, store, hashes, reference).Some? {
        ResolvedFailsRightly(engine, store, hashes, reference);
      }
      if IsId(reference) {
        return Some(if reference in hashes then Resolved(reference) else NotFound);
      }
      var programs := ListPrograms(hashes);
      if programs.None? {
        return None;
      }
      return Some(Resolve(hashes, programs.value, reference));
    }
  }
}
