/** Seeded permutations: a rejection sampler over 64-bit words feeding a
    descending Fisher-Yates pass. The generator is an arbitrary stream of words. */
module Permutation {
  import Arithmetic
  import opened Options

  /** The number of 64-bit words. */
  const WORDS: nat := 0x1_0000_0000_0000_0000

  /** Discarded words allowed for one draw. */
  const MAX_REJECTIONS: nat := 1024

  type Word = w: nat | w < WORDS

  // ---------------------------------------------------------------- sampling

  function WrappingNeg(x: Word): Word {
    (WORDS - x) % WORDS
  }

  /** Words below this bound are rejected. */
  function Threshold(bound: Word): nat
    requires bound > 0
  {
    WrappingNeg(bound) % bound
  }

  /** The threshold is the size of the incomplete residue class block. */
  lemma ThresholdIsRemainder(bound: Word)
    requires bound > 0
    ensures Threshold(bound) == WORDS % bound
    ensures Threshold(bound) < bound
  {
    var q, r := WORDS / bound, WORDS % bound;
    assert WORDS - bound == (q - 1) * bound + r;
    Arithmetic.ModUnique(WORDS - bound, bound, q - 1, r);
  }

  /** The accepted words with residue `r`. */
  ghost function AcceptedWords(bound: Word, r: nat): set<nat>
    requires bound > 0
  {
    ResidueIn(Threshold(bound), WORDS, bound, r)
  }

  ghost function RejectedWords(bound: Word): set<nat>
    requires bound > 0
  {
    Interval(0, Threshold(bound))
  }

  ghost function Interval(lo: nat, hi: nat): set<nat> {
    ResidueIn(lo, hi, 1, 0)
  }

  ghost function ResidueIn(lo: nat, hi: nat, m: nat, r: nat): set<nat>
    requires m > 0
  {
    set w: nat | lo <= w < hi && w % m == r
  }

  /** Every residue below the bound has exactly floor(2^64 / bound) accepted
      words, and fewer than `bound` words are rejected. */
  lemma ResiduesAreEquallyLikely(bound: Word, r: nat)
    requires 0 < bound && r < bound
    ensures |AcceptedWords(bound, r)| == WORDS / bound
    ensures |RejectedWords(bound)| == WORDS % bound < bound
  {
    ThresholdIsRemainder(bound);
    var rejected := Threshold(bound);
    assert rejected * 1 == rejected;
    ResidueCount(0, rejected, 1, 0);
    Arithmetic.WholeBlocks(WORDS, bound);
    ResidueCount(rejected, WORDS / bound, bound, r);
  }

  /** `q` consecutive blocks of length `m` hold `q` numbers of each residue. */
  lemma {:induction false} ResidueCount(lo: nat, q: nat, m: nat, r: nat)
    requires r < m
    ensures |ResidueIn(lo, lo + q * m, m, r)| == q
    decreases q
  {
    if q == 0 {
      assert ResidueIn(lo, lo + q * m, m, r) == {};
    } else {
      var mid := lo + (q - 1) * m;
      assert q * m == (q - 1) * m + m;
      ResidueCount(lo, q - 1, m, r);
      var w := OneResiduePerBlock(mid, m, r);
      assert ResidueIn(lo, mid + m, m, r) == ResidueIn(lo, mid, m, r) + {w};
    }
  }

  lemma OneResiduePerBlock(lo: nat, m: nat, r: nat) returns (w: nat)
    requires r < m
    ensures lo <= w < lo + m && w % m == r
    ensures forall v: nat :: lo <= v < lo + m && v % m == r ==> v == w
  {
    var q, s := lo / m, lo % m;
    if s <= r {
      w := lo + (r - s);
      Arithmetic.ModUnique(w, m, q, r);
    } else {
      w := lo + (m + r - s);
      assert w == (q + 1) * m + r;
      Arithmetic.ModUnique(w, m, q + 1, r);
    }
    forall v: nat | lo <= v < lo + m && v % m == r
      ensures v == w
    {
      SameResidueApart(v, w, m);
    }
  }

  lemma SameResidueApart(v: nat, w: nat, m: nat)
    requires m > 0 && v % m == w % m
    ensures v == w || v - w >= m || w - v >= m
  {
    var d := v / m - w / m;
    assert v == (v / m) * m + v % m && w == (w / m) * m + w % m;
    assert v - w == d * m;
    Arithmetic.SmallMultiple(d, m);
  }

  /** One draw read as a function of the stream: the residue and the position
      after it, or nothing once every word before position `limit` was rejected. */
  function Sample(words: nat -> Word, at: nat, bound: Word, limit: nat): (r: Option<(nat, nat)>)
    requires bound > 0
    ensures r.Some? ==> r.value.0 < bound
    decreases limit - at
  {
    if at >= limit then None
    else if words(at) >= Threshold(bound) then Some((words(at) % bound, at + 1))
    else Sample(words, at + 1, bound, limit)
  }

  /** One draw with the whole rejection budget. */
  function SampleFrom(words: nat -> Word, at: nat, bound: Word): Option<(nat, nat)>
    requires bound > 0
  {
    Sample(words, at, bound, at + MAX_REJECTIONS)
  }

  ghost predicate RejectedRun(words: nat -> Word, at: nat, bound: Word, end: nat)
    requires bound > 0
  {
    forall k :: at <= k < end ==> words(k) < Threshold(bound)
  }

  /** A draw fails exactly on a whole budget of rejected words; otherwise it
      is the residue of the first accepted word. */
  lemma {:induction false} SampleMeaning(words: nat -> Word, at: nat, bound: Word, limit: nat)
    requires bound > 0
    ensures Sample(words, at, bound, limit).None? <==> RejectedRun(words, at, bound, limit)
    ensures Sample(words, at, bound, limit).Some? ==>
              var (value, next) := Sample(words, at, bound, limit).value;
              && at < next <= limit
              && RejectedRun(words, at, bound, next - 1)
              && words(next - 1) in AcceptedWords(bound, value)
              && value < bound
    decreases limit - at
  {
    if at < limit && words(at) < Threshold(bound) {
      SampleMeaning(words, at + 1, bound, limit);
    }
  }

  /** The generator: a fixed stream and the number of words taken from it. */
  class Rng {
    const words: nat -> Word
    var drawn: nat

    constructor (words: nat -> Word)
      ensures this.words == words && drawn == 0
    {
      this.words := words;
      drawn := 0;
    }

    method NextU64() returns (w: Word)
      modifies this
      ensures w == words(old(drawn)) && drawn == old(drawn) + 1
    {
      w := words(drawn);
      drawn := drawn + 1;
    }
  }

  method Choose(rng: Rng, bound: Word) returns (r: Option<nat>)
    requires bound > 0
    modifies rng
    ensures match SampleFrom(rng.words, old(rng.drawn), bound)
            case None => r == None && rng.drawn == old(rng.drawn) + MAX_REJECTIONS
            case Some(draw) => r == Some(draw.0) && rng.drawn == draw.1
  {
    var threshold := WrappingNeg(bound) % bound;
    ghost var limit := rng.drawn + MAX_REJECTIONS;
    for tries := 0 to MAX_REJECTIONS
      invariant rng.drawn == old(rng.drawn) + tries
      invariant Sample(rng.words, old(rng.drawn), bound, limit) == Sample(rng.words, rng.drawn, bound, limit)
    {
      var value := rng.NextU64();
      if value >= threshold {
        return Some(value % bound);
      }
    }
    return None;
  }

  // ------------------------------------------------------------ Fisher-Yates

  function Swap<T>(s: seq<T>, i: nat, j: nat): seq<T>
    requires i < |s| && j < |s|
  {
    s[i := s[j]][j := s[i]]
  }

  /** One draw for each index from `n - 1` down to 1. */
  ghost predicate ValidDraws(draws: seq<nat>, n: nat) {
    && |draws| == (if n == 0 then 0 else n - 1)
    && forall k :: 0 <= k < |draws| ==> draws[k] <= n - 1 - k
  }

  /** The descending pass over `items`; `draws[k]` is the draw for index `n - 1 - k`. */
  ghost function Pass<T>(items: seq<T>, draws: seq<nat>): (out: seq<T>)
    requires ValidDraws(draws, |items|)
    ensures |out| == |items|
    decreases |items|
  {
    if |items| <= 1 then items
    else
      var last := |items| - 1;
      var s := Swap(items, last, draws[0]);
      assert forall k :: 0 <= k < |draws[1..]| ==> draws[1..][k] == draws[k + 1];
      Pass(s[..last], draws[1..]) + [s[last]]
  }

  function Identity(n: nat): (s: seq<nat>)
    ensures |s| == n && forall i :: 0 <= i < n ==> s[i] == i
  {
    seq(n, i => i)
  }

  ghost predicate Distinct<T(!new)>(s: seq<T>) {
    forall i, j :: 0 <= i < j < |s| ==> s[i] != s[j]
  }

  /** `out` lists the items of the duplicate-free `s`, each once. */
  ghost predicate Arranges<T(!new)>(out: seq<T>, s: seq<T>) {
    && |out| == |s|
    && Distinct(s) && Distinct(out)
    && forall x :: x in out <==> x in s
  }

  ghost predicate IsPermutation(p: seq<nat>, n: nat) {
    Arranges(p, Identity(n))
  }

  lemma SwapArranges<T(!new)>(s: seq<T>, i: nat, j: nat)
    requires i < |s| && j < |s| && Distinct(s)
    ensures Arranges(Swap(s, i, j), s)
  {
    var t := Swap(s, i, j);
    assert forall k :: 0 <= k < |s| ==> t[k] == s[if k == i then j else if k == j then i else k];
    assert forall k :: 0 <= k < |s| ==> s[k] == t[if k == i then j else if k == j then i else k];
  }

  /** Arrangements with the same last item arrange each other's fronts, and back. */
  lemma FrontArranges<T(!new)>(out: seq<T>, s: seq<T>, x: T)
    requires Distinct(s + [x])
    ensures Arranges(out + [x], s + [x]) <==> Arranges(out, s)
  {
    assert forall i :: 0 <= i < |s| ==> (s + [x])[i] == s[i];
    assert forall i :: 0 <= i < |out| ==> (out + [x])[i] == out[i];
    assert (s + [x])[|s|] == x && (out + [x])[|out|] == x;
    assert x !in s;
    assert Distinct(s);
    if Arranges(out + [x], s + [x]) {
      assert x !in out;
      forall y ensures y in out <==> y in s {
        assert y in out + [x] <==> y in out || y == x;
        assert y in s + [x] <==> y in s || y == x;
      }
    }
  }

  lemma {:induction false} PassArranges<T(!new)>(items: seq<T>, draws: seq<nat>)
    requires ValidDraws(draws, |items|) && Distinct(items)
    ensures Arranges(Pass(items, draws), items)
    decreases |items|
  {
    if |items| > 1 {
      var last := |items| - 1;
      var s := Swap(items, last, draws[0]);
      SwapArranges(items, last, draws[0]);
      assert s == s[..last] + [s[last]];
      var front := Pass(s[..last], draws[1..]);
      PassArranges(s[..last], draws[1..]);
      FrontArranges(front, s[..last], s[last]);
    }
  }

  ghost function IndexOf<T>(s: seq<T>, x: T): (i: nat)
    requires x in s
    ensures i < |s| && s[i] == x
  {
    var i: nat :| i < |s| && s[i] == x;
    i
  }

  /** The draws that carry `s` to `out`, read off from the back. */
  lemma {:induction false} DrawsFor<T(!new)>(s: seq<T>, out: seq<T>) returns (draws: seq<nat>)
    requires Arranges(out, s)
    ensures ValidDraws(draws, |s|)
    ensures Pass(s, draws) == out
    decreases |s|
  {
    if |s| <= 1 {
      draws := [];
      if |s| == 1 {
        assert out[0] in s;
      }
    } else {
      var last := |s| - 1;
      assert out[last] in s;
      var j := IndexOf(s, out[last]);
      SwapToBack(s, out, j);
      var t := Swap(s, last, j);
      var rest := DrawsFor(t[..last], out[..last]);
      draws := [j] + rest;
      assert draws[1..] == rest;
      assert out == out[..last] + [out[last]];
    }
  }

  lemma SwapToBack<T(!new)>(s: seq<T>, out: seq<T>, j: nat)
    requires Arranges(out, s) && j < |s| && s[j] == out[|s| - 1]
    ensures Arranges(out[..|s| - 1], Swap(s, |s| - 1, j)[..|s| - 1])
  {
    var last := |s| - 1;
    var t := Swap(s, last, j);
    SwapArranges(s, last, j);
    assert t == t[..last] + [s[j]] && out == out[..last] + [s[j]];
    assert Arranges(out, t);
    FrontArranges(out[..last], t[..last], s[j]);
  }

  /** Different draws give different results on duplicate-free items. */
  lemma {:induction false} PassIsInjective<T(!new)>(s: seq<T>, a: seq<nat>, b: seq<nat>)
    requires ValidDraws(a, |s|) && ValidDraws(b, |s|) && Distinct(s)
    requires Pass(s, a) == Pass(s, b)
    ensures a == b
    decreases |s|
  {
    if |s| > 1 {
      var last := |s| - 1;
      var ta, tb := Swap(s, last, a[0]), Swap(s, last, b[0]);
      assert Pass(s, a)[last] == s[a[0]] && Pass(s, b)[last] == s[b[0]];
      assert a[0] == b[0];
      assert Pass(s, a)[..last] == Pass(ta[..last], a[1..]);
      assert Pass(s, b)[..last] == Pass(tb[..last], b[1..]);
      SwapArranges(s, last, a[0]);
      PassIsInjective(ta[..last], a[1..], b[1..]);
      assert a == [a[0]] + a[1..] && b == [b[0]] + b[1..];
    }
  }

  /** For every n the pass is a bijection from draw sequences onto the
      permutations of 0..n. */
  lemma DrawsCorrespondToPermutations(n: nat)
    ensures forall d :: ValidDraws(d, n) ==> IsPermutation(Pass(Identity(n), d), n)
    ensures forall a, b :: ValidDraws(a, n) && ValidDraws(b, n) && Pass(Identity(n), a) == Pass(Identity(n), b) ==> a == b
    ensures forall p :: IsPermutation(p, n) ==> exists d :: ValidDraws(d, n) && Pass(Identity(n), d) == p
  {
    var id := Identity(n);
    forall d | ValidDraws(d, n) ensures IsPermutation(Pass(id, d), n) {
      PassArranges(id, d);
    }
    forall a, b | ValidDraws(a, n) && ValidDraws(b, n) && Pass(id, a) == Pass(id, b) ensures a == b {
      PassIsInjective(id, a, b);
    }
    forall p | IsPermutation(p, n) ensures exists d :: ValidDraws(d, n) && Pass(id, d) == p {
      var d := DrawsFor(id, p);
      assert ValidDraws(d, n) && Pass(id, d) == p;
    }
  }

  /** `out[i] = items[p[i]]`. */
  ghost predicate Applies<T(!new)>(out: seq<T>, items: seq<T>, p: seq<nat>) {
    && |out| == |p|
    && forall i :: 0 <= i < |p| ==> p[i] < |items| && out[i] == items[p[i]]
  }

  /** Running the pass on `items` equals indexing `items` by the pass run on
      their positions. */
  lemma {:induction false} PassActsOnPositions<T(!new)>(base: seq<T>, items: seq<T>, positions: seq<nat>, draws: seq<nat>)
    requires Applies(items, base, positions) && ValidDraws(draws, |items|)
    ensures Applies(Pass(items, draws), base, Pass(positions, draws))
    decreases |items|
  {
    if |items| > 1 {
      var last := |items| - 1;
      var s, t := Swap(items, last, draws[0]), Swap(positions, last, draws[0]);
      PassActsOnPositions(base, s[..last], t[..last], draws[1..]);
    }
  }

  lemma PassEqualsIndexing<T(!new)>(items: seq<T>, draws: seq<nat>)
    requires ValidDraws(draws, |items|)
    ensures Applies(Pass(items, draws), items, Pass(Identity(|items|), draws))
  {
    PassActsOnPositions(items, items, Identity(|items|), draws);
  }

  // -------------------------------------------------- the seeded permutation

  /** The shuffle of `items` as a function of the stream from position `at`. */
  function Shuffle<T>(words: nat -> Word, at: nat, items: seq<T>): Option<seq<T>>
    requires |items| < WORDS
    decreases |items|
  {
    if |items| <= 1 then Some(items)
    else
      match SampleFrom(words, at, |items|)
      case None => None
      case Some(draw) =>
        var last := |items| - 1;
        var s := Swap(items, last, draw.0);
        match Shuffle(words, draw.1, s[..last])
        case None => None
        case Some(front) => Some(front + [s[last]])
  }

  /** Stream positions from `at` on hold, after rejected runs shorter than the
      budget, accepted words whose residues are `draws` for bounds n, n-1, .., 2. */
  ghost predicate StreamDraws(words: nat -> Word, at: nat, n: nat, draws: seq<nat>)
    requires n < WORDS
    decreases n
  {
    if n <= 1 then draws == []
    else
      && |draws| > 0
      && var draw := SampleFrom(words, at, n);
         draw.Some? && draw.value.0 == draws[0] && StreamDraws(words, draw.value.1, n - 1, draws[1..])
  }

  /** A shuffle that succeeds is the pass over one valid draw sequence taken
      from the stream, the same sequence whatever the items are. */
  lemma {:induction false} ShuffleIsPass<T(!new)>(words: nat -> Word, at: nat, items: seq<T>, draws: seq<nat>)
    requires |items| < WORDS && StreamDraws(words, at, |items|, draws)
    ensures ValidDraws(draws, |items|)
    ensures Shuffle(words, at, items) == Some(Pass(items, draws))
    decreases |items|
  {
    if |items| > 1 {
      var last := |items| - 1;
      SampleMeaning(words, at, |items|, at + MAX_REJECTIONS);
      var draw := SampleFrom(words, at, |items|).value;
      var s := Swap(items, last, draw.0);
      ShuffleIsPass(words, draw.1, s[..last], draws[1..]);
      assert forall k :: 0 < k < |draws| ==> draws[k] == draws[1..][k - 1];
    }
  }

  lemma {:induction false} ShuffleDraws<T(!new)>(words: nat -> Word, at: nat, items: seq<T>) returns (draws: seq<nat>)
    requires |items| < WORDS && Shuffle(words, at, items).Some?
    ensures StreamDraws(words, at, |items|, draws)
    decreases |items|
  {
    if |items| <= 1 {
      draws := [];
    } else {
      var last := |items| - 1;
      var draw := SampleFrom(words, at, |items|).value;
      var rest := ShuffleDraws(words, draw.1, Swap(items, last, draw.0)[..last]);
      draws := [draw.0] + rest;
      assert draws[1..] == rest;
    }
  }

  /** The documented law: indexing any items by the seeded permutation gives
      the order of shuffling them directly, from the same stream. */
  lemma SeededPermutationActsOnItems<T(!new)>(words: nat -> Word, at: nat, items: seq<T>)
    requires |items| < WORDS
    ensures Shuffle(words, at, items).Some? <==> Shuffle(words, at, Identity(|items|)).Some?
    ensures Shuffle(words, at, items).Some? ==>
              && IsPermutation(Shuffle(words, at, Identity(|items|)).value, |items|)
              && Applies(Shuffle(words, at, items).value, items, Shuffle(words, at, Identity(|items|)).value)
  {
    var id := Identity(|items|);
    if Shuffle(words, at, items).Some? || Shuffle(words, at, id).Some? {
      var draws;
      if Shuffle(words, at, items).Some? {
        draws := ShuffleDraws(words, at, items);
      } else {
        draws := ShuffleDraws(words, at, id);
      }
      ShuffleIsPass(words, at, items, draws);
      ShuffleIsPass(words, at, id, draws);
      PassEqualsIndexing(items, draws);
      PassArranges(id, draws);
    }
  }

  /** The shuffle of `front`, followed by a finished `back`. */
  ghost function Completed<T>(words: nat -> Word, at: nat, front: seq<T>, back: seq<T>): Option<seq<T>>
    requires |front| < WORDS
  {
    match Shuffle(words, at, front)
    case None => None
    case Some(s) => Some(s + back)
  }

  lemma CompletedStep<T(!new)>(words: nat -> Word, at: nat, front: seq<T>, back: seq<T>)
    requires 1 < |front| < WORDS
    ensures match SampleFrom(words, at, |front|)
            case None => Completed(words, at, front, back).None?
            case Some(draw) =>
              && draw.0 < |front|
              && var t := Swap(front, |front| - 1, draw.0);
                 Completed(words, at, front, back)
                 == Completed(words, draw.1, t[..|front| - 1], [t[|front| - 1]] + back)
  {
    SampleMeaning(words, at, |front|, at + MAX_REJECTIONS);
    var draw := SampleFrom(words, at, |front|);
    if draw.Some? {
      var last := |front| - 1;
      var t := Swap(front, last, draw.value.0);
      var rest := Shuffle(words, draw.value.1, t[..last]);
      if rest.Some? {
        assert (rest.value + [t[last]]) + back == rest.value + ([t[last]] + back);
      }
    }
  }

  lemma CompletedEnds<T(!new)>(words: nat -> Word, at: nat, front: seq<T>, back: seq<T>)
    requires |front| < WORDS
    ensures |front| <= 1 ==> Completed(words, at, front, back) == Some(front + back)
    ensures back == [] ==> Completed(words, at, front, back) == Shuffle(words, at, front)
  {
    var s := Shuffle(words, at, front);
    assert s.Some? ==> s.value + [] == s.value;
  }

  lemma SwapSlices<T(!new)>(s: seq<T>, last: nat, j: nat)
    requires j <= last < |s|
    ensures Swap(s, last, j)[..last] == Swap(s[..last + 1], last, j)[..last]
    ensures Swap(s, last, j)[last..] == [Swap(s[..last + 1], last, j)[last]] + s[last + 1..]
  {
  }

  method SwapEntries(a: array<nat>, i: nat, j: nat)
    requires i < a.Length && j < a.Length
    modifies a
    ensures a[..] == Swap(old(a[..]), i, j)
  {
    a[i], a[j] := a[j], a[i];
  }

  ghost function Pending(words: nat -> Word, at: nat, s: seq<nat>, next: nat): Option<seq<nat>>
    requires next <= |s| && next < WORDS
  {
    Completed(words, at, s[..next], s[next..])
  }

  lemma PendingStep(words: nat -> Word, at: nat, s: seq<nat>, last: nat)
    requires 0 < last < |s| < WORDS
    ensures match SampleFrom(words, at, last + 1)
            case None => Pending(words, at, s, last + 1).None?
            case Some(draw) =>
              && draw.0 <= last
              && Pending(words, at, s, last + 1) == Pending(words, draw.1, Swap(s, last, draw.0), last)
  {
    CompletedStep(words, at, s[..last + 1], s[last + 1..]);
    var draw := SampleFrom(words, at, last + 1);
    if draw.Some? {
      SwapSlices(s, last, draw.value.0);
    }
  }

  lemma PendingEnds(words: nat -> Word, at: nat, s: seq<nat>, next: nat)
    requires next <= |s| < WORDS
    ensures next == |s| ==> Pending(words, at, s, next) == Shuffle(words, at, s)
    ensures next <= 1 ==> Pending(words, at, s, next) == Some(s)
  {
    CompletedEnds(words, at, s[..next], s[next..]);
    assert s == s[..next] + s[next..];
    assert next == |s| ==> s[..next] == s;
  }

  method SeededPermutation(rng: Rng, n: nat) returns (r: Option<seq<nat>>)
    requires n < 0x1_0000_0000
    modifies rng
    ensures r == Shuffle(rng.words, old(rng.drawn), Identity(n))
  {
    var order := new nat[n](i => i);
    assert order[..] == Identity(n);
    PendingEnds(rng.words, rng.drawn, order[..], n);
    ghost var target := Pending(rng.words, rng.drawn, order[..], n);
    var next := n;
    while next > 1
      invariant next <= n
      invariant target == Pending(rng.words, rng.drawn, order[..], next)
    {
      var index := next - 1;
      PendingStep(rng.words, rng.drawn, order[..], index);
      var swap := Choose(rng, index + 1);
      if swap.None? {
        return None;
      }
      SwapEntries(order, index, swap.value);
      next := index;
    }
    PendingEnds(rng.words, rng.drawn, order[..], next);
    return Some(order[..]);
  }

  // -------------------------------------------------------------- uniformity

  /** One accepted word for each bound n, n-1, .., 2, with residues `draws`. */
  ghost predicate AcceptedTuple(ws: seq<nat>, n: nat, draws: seq<nat>)
    requires n < WORDS
    decreases n
  {
    if n <= 1 then ws == [] && draws == []
    else
      && |ws| > 0 && |draws| > 0 && draws[0] < n
      && ws[0] in AcceptedWords(n, draws[0])
      && AcceptedTuple(ws[1..], n - 1, draws[1..])
  }

  /** floor(2^64 / n) * floor(2^64 / (n-1)) * .. * floor(2^64 / 2). */
  ghost function WaysPerPermutation(n: nat): nat {
    if n <= 1 then 1 else (WORDS / n) * WaysPerPermutation(n - 1)
  }

  /** Exactly `WaysPerPermutation(n)` accepted tuples have given residues. */
  lemma {:induction false} TuplesWith(draws: seq<nat>, n: nat) returns (tuples: set<seq<nat>>)
    requires n < WORDS && ValidDraws(draws, n)
    ensures forall ws :: ws in tuples <==> AcceptedTuple(ws, n, draws)
    ensures |tuples| == WaysPerPermutation(n)
    decreases n
  {
    if n <= 1 {
      tuples := {[]};
    } else {
      assert forall k :: 0 <= k < |draws[1..]| ==> draws[1..][k] == draws[k + 1];
      var rest := TuplesWith(draws[1..], n - 1);
      var heads := AcceptedWords(n, draws[0]);
      ResiduesAreEquallyLikely(n, draws[0]);
      PrefixedSize(heads, rest);
      tuples := Prefixed(heads, rest);
      forall ws ensures ws in tuples <==> AcceptedTuple(ws, n, draws) {
        PrefixedMember(heads, rest, ws);
      }
    }
  }

  ghost function Prefixed(heads: set<nat>, tails: set<seq<nat>>): set<seq<nat>> {
    set w, t | w in heads && t in tails :: [w] + t
  }

  lemma PrefixedMember(heads: set<nat>, tails: set<seq<nat>>, x: seq<nat>)
    ensures x in Prefixed(heads, tails) <==> |x| > 0 && x[0] in heads && x[1..] in tails
  {
    if |x| > 0 && x[0] in heads && x[1..] in tails {
      assert x == [x[0]] + x[1..];
    }
  }

  lemma {:induction false} PrefixedSize(heads: set<nat>, tails: set<seq<nat>>)
    ensures |Prefixed(heads, tails)| == |heads| * |tails|
    decreases heads
  {
    if heads == {} {
      assert Prefixed(heads, tails) == {};
    } else {
      var h :| h in heads;
      var others := heads - {h};
      PrefixedSize(others, tails);
      OneHeadSize(h, tails);
      PrefixedSplit(heads, h, tails);
      assert |Prefixed(heads, tails)| == |Prefixed(others, tails)| + |Prefixed({h}, tails)|;
      assert |heads| == |others| + 1;
      Distribute(|others|, |tails|);
    }
  }

  lemma Distribute(a: nat, b: nat)
    ensures (a + 1) * b == a * b + b
  {
  }

  lemma PrefixedSplit(heads: set<nat>, h: nat, tails: set<seq<nat>>)
    requires h in heads
    ensures Prefixed(heads, tails) == Prefixed(heads - {h}, tails) + Prefixed({h}, tails)
    ensures Prefixed(heads - {h}, tails) !! Prefixed({h}, tails)
  {
    forall x ensures x in Prefixed(heads, tails) <==> x in Prefixed(heads - {h}, tails) + Prefixed({h}, tails)
             ensures x !in Prefixed(heads - {h}, tails) || x !in Prefixed({h}, tails)
    {
      PrefixedMember(heads, tails, x);
      PrefixedMember(heads - {h}, tails, x);
      PrefixedMember({h}, tails, x);
    }
  }

  lemma {:induction false} OneHeadSize(h: nat, tails: set<seq<nat>>)
    ensures |Prefixed({h}, tails)| == |tails|
    decreases tails
  {
    if tails == {} {
      assert Prefixed({h}, tails) == {};
    } else {
      var t :| t in tails;
      OneHeadSize(h, tails - {t});
      var x := [h] + t;
      assert x[1..] == t;
      PrefixedMember({h}, tails - {t}, x);
      forall y ensures y in Prefixed({h}, tails) <==> y in Prefixed({h}, tails - {t}) + {x} {
        PrefixedMember({h}, tails, y);
        PrefixedMember({h}, tails - {t}, y);
        assert |y| > 0 && y[0] == h && y[1..] == t ==> y == [y[0]] + y[1..] == x;
      }
      assert Prefixed({h}, tails) == Prefixed({h}, tails - {t}) + {x};
    }
  }

  /** The stream holds `ws` from position `at` on. */
  ghost predicate Begins(words: nat -> Word, at: nat, ws: seq<nat>) {
    forall k: nat :: k < |ws| ==> words(at + k) == ws[k]
  }

  /** A stream that begins with accepted words rejects nothing. */
  lemma {:induction false} TupleIsDrawn(words: nat -> Word, at: nat, ws: seq<nat>, n: nat, draws: seq<nat>)
    requires n < WORDS && AcceptedTuple(ws, n, draws) && Begins(words, at, ws)
    ensures StreamDraws(words, at, n, draws)
    decreases n
  {
    if n > 1 {
      assert words(at + 0) == ws[0];
      assert SampleFrom(words, at, n) == Some((draws[0], at + 1));
      forall k: nat | k < |ws[1..]| ensures words(at + 1 + k) == ws[1..][k] {
        assert words(at + (k + 1)) == ws[k + 1];
      }
      TupleIsDrawn(words, at + 1, ws[1..], n - 1, draws[1..]);
    }
  }

  lemma TupleShuffles(words: nat -> Word, at: nat, ws: seq<nat>, n: nat, draws: seq<nat>)
    requires n < WORDS && AcceptedTuple(ws, n, draws) && Begins(words, at, ws)
    ensures ValidDraws(draws, n) && Shuffle(words, at, Identity(n)) == Some(Pass(Identity(n), draws))
  {
    TupleIsDrawn(words, at, ws, n, draws);
    ShuffleIsPass(words, at, Identity(n), draws);
  }

  /** Words `ws` are accepted one after the other, and every stream that begins
      with them, anywhere, shuffles 0..n into `p`. */
  ghost predicate Produces(ws: seq<nat>, n: nat, p: seq<nat>)
    requires n < WORDS
  {
    && (exists draws :: AcceptedTuple(ws, n, draws))
    && forall words: nat -> Word, at: nat :: Begins(words, at, ws) ==> Shuffle(words, at, Identity(n)) == Some(p)
  }

  lemma {:induction false} TupleOfWords(ws: seq<nat>, n: nat, draws: seq<nat>)
    requires n < WORDS && AcceptedTuple(ws, n, draws)
    ensures forall k: nat :: k < |ws| ==> ws[k] < WORDS
    decreases n
  {
    if n > 1 {
      TupleOfWords(ws[1..], n - 1, draws[1..]);
      forall k: nat | k < |ws| ensures ws[k] < WORDS {
        assert k > 0 ==> ws[k] == ws[1..][k - 1];
      }
    }
  }

  function Padded(ws: seq<nat>, k: nat): Word
    requires forall i: nat :: i < |ws| ==> ws[i] < WORDS
  {
    if k < |ws| then ws[k] else 0
  }

  lemma ProducesMeaning(ws: seq<nat>, n: nat, p: seq<nat>, draws: seq<nat>)
    requires n < WORDS && AcceptedTuple(ws, n, draws)
    ensures ValidDraws(draws, n) && (Produces(ws, n, p) <==> Pass(Identity(n), draws) == p)
  {
    TupleOfWords(ws, n, draws);
    var stream: nat -> Word := (k: nat) requires forall i: nat :: i < |ws| ==> ws[i] < WORDS => Padded(ws, k);
    assert Begins(stream, 0, ws);
    TupleShuffles(stream, 0, ws, n, draws);
    forall words: nat -> Word, at: nat | Begins(words, at, ws)
      ensures Shuffle(words, at, Identity(n)) == Some(Pass(Identity(n), draws))
    {
      TupleShuffles(words, at, ws, n, draws);
    }
  }

  /** Unbiasedness: every permutation of 0..n is what the shuffle gives for the
      same number of accepted word tuples at the front of the stream, a number
      that does not depend on the permutation. */
  lemma EveryPermutationIsEquallyLikely(n: nat, p: seq<nat>) returns (tuples: set<seq<nat>>)
    requires n < WORDS && IsPermutation(p, n)
    ensures forall ws :: ws in tuples <==> Produces(ws, n, p)
    ensures |tuples| == WaysPerPermutation(n)
  {
    var id := Identity(n);
    var draws := DrawsFor(id, p);
    tuples := TuplesWith(draws, n);
    forall ws ensures AcceptedTuple(ws, n, draws) <==> Produces(ws, n, p) {
      if AcceptedTuple(ws, n, draws) {
        ProducesMeaning(ws, n, p, draws);
      }
      if Produces(ws, n, p) {
        var other :| AcceptedTuple(ws, n, other);
        ProducesMeaning(ws, n, p, other);
        PassIsInjective(id, other, draws);
      }
    }
  }
}
