/** The shuffle is fair with its rejections counted in: among all word
    sequences of any one length, equally many make it finish within them with
    each permutation. */
module Uniformity {
  import opened Options
  import opened Permutation

  predicate OfWords(ws: seq<nat>) {
    forall k :: 0 <= k < |ws| ==> ws[k] < WORDS
  }

  /** The position after the last word that a shuffle of `n` items reads. */
  function End(words: nat -> Word, at: nat, n: nat): Option<nat>
    requires n < WORDS
    decreases n
  {
    if n <= 1 then Some(at)
    else match SampleFrom(words, at, n)
      case None => None
      case Some(draw) => End(words, draw.1, n - 1)
  }

  /** Whatever comes after the words `ws`, and wherever in a stream they stand,
      the shuffle of 0..n that begins with them reads no further and gives `p`. */
  ghost predicate Yields(ws: seq<nat>, n: nat, p: seq<nat>)
    requires n < WORDS
  {
    && OfWords(ws)
    && forall words: nat -> Word, at: nat :: Begins(words, at, ws) ==>
         && Shuffle(words, at, Identity(n)) == Some(p)
         && End(words, at, n).Some? && End(words, at, n).value <= at + |ws|
  }

  // ------------------------------------------------------ reading a sequence

  /** With `budget` tries left for the bound `n`, the words `ws` are enough for
      the draws `draws` for the bounds n, n-1, .., 2. */
  ghost predicate Drawn(ws: seq<nat>, n: nat, budget: nat, draws: seq<nat>)
    requires n < WORDS
    decreases |ws|
  {
    if n <= 1 then draws == []
    else if budget == 0 || ws == [] then false
    else if ws[0] >= Threshold(n) then
      |draws| > 0 && ws[0] % n == draws[0] && Drawn(ws[1..], n - 1, MAX_REJECTIONS, draws[1..])
    else Drawn(ws[1..], n, budget - 1, draws)
  }

  /** The stream has the draws, with all words read before position `limit`. */
  ghost predicate DrawsBefore(words: nat -> Word, at: nat, n: nat, draws: seq<nat>, limit: nat)
    requires n < WORDS
  {
    StreamDraws(words, at, n, draws) && End(words, at, n).Some? && End(words, at, n).value <= limit
  }

  /** The same, with a budget of tries for the first of them. */
  ghost predicate DrawsWithin(words: nat -> Word, at: nat, n: nat, budget: nat, draws: seq<nat>, limit: nat)
    requires n < WORDS
  {
    if n <= 1 then draws == [] && at <= limit
    else
      var draw := Sample(words, at, n, at + budget);
      && draw.Some? && draw.value.1 <= limit && |draws| > 0 && draw.value.0 == draws[0]
      && DrawsBefore(words, draw.value.1, n - 1, draws[1..], limit)
  }

  lemma {:induction false} EndIsAfter(words: nat -> Word, at: nat, n: nat)
    requires n < WORDS
    ensures End(words, at, n).Some? ==> End(words, at, n).value >= at
    decreases n
  {
    if n > 1 && SampleFrom(words, at, n).Some? {
      SampleMeaning(words, at, n, at + MAX_REJECTIONS);
      EndIsAfter(words, SampleFrom(words, at, n).value.1, n - 1);
    }
  }

  lemma WholeBudget(words: nat -> Word, at: nat, n: nat, draws: seq<nat>, limit: nat)
    requires n < WORDS
    ensures DrawsWithin(words, at, n, MAX_REJECTIONS, draws, limit) <==> DrawsBefore(words, at, n, draws, limit)
  {
    if n > 1 && SampleFrom(words, at, n).Some? {
      EndIsAfter(words, SampleFrom(words, at, n).value.1, n - 1);
    }
  }

  lemma BeginsRest(words: nat -> Word, at: nat, ws: seq<nat>)
    requires Begins(words, at, ws) && ws != []
    ensures words(at) == ws[0] && Begins(words, at + 1, ws[1..])
  {
    assert words(at + 0) == ws[0];
    forall k: nat | k < |ws[1..]| ensures words(at + 1 + k) == ws[1..][k] {
      assert words(at + (k + 1)) == ws[k + 1];
    }
  }

  /** Reading a sequence is what the sampler does with a stream that holds it. */
  lemma {:induction false} DrawnMeaning(words: nat -> Word, at: nat, ws: seq<nat>, n: nat, budget: nat, draws: seq<nat>)
    requires n < WORDS && Begins(words, at, ws)
    ensures Drawn(ws, n, budget, draws) <==> DrawsWithin(words, at, n, budget, draws, at + |ws|)
    decreases |ws|
  {
    if n > 1 && budget > 0 {
      SampleMeaning(words, at, n, at + budget);
      if ws != [] {
        BeginsRest(words, at, ws);
        if ws[0] >= Threshold(n) {
          DrawnMeaning(words, at + 1, ws[1..], n - 1, MAX_REJECTIONS, if draws == [] then [] else draws[1..]);
          WholeBudget(words, at + 1, n - 1, if draws == [] then [] else draws[1..], at + |ws|);
        } else {
          DrawnMeaning(words, at + 1, ws[1..], n, budget - 1, draws);
        }
      }
    }
  }

  // ------------------------------------------------------------- counting

  /** All word sequences of a length. */
  ghost function Power(length: nat): nat {
    if length == 0 then 1 else WORDS * Power(length - 1)
  }

  /** Words accepted for one residue, and words rejected, in number. */
  ghost function Accepting(n: nat): nat
    requires n > 0
  {
    WORDS / n
  }

  ghost function Rejecting(n: nat): nat
    requires n > 0
  {
    WORDS % n
  }

  ghost function Times(a: nat, b: nat): nat {
    a * b
  }

  /** The word sequences of a length with given draws, in number: the first
      word is accepted with the residue wanted, or rejected. */
  ghost function Ways(length: nat, n: nat, budget: nat): nat
    requires n < WORDS
    decreases length
  {
    if n <= 1 then Power(length)
    else if budget == 0 || length == 0 then 0
    else
      Times(Accepting(n), Ways(length - 1, n - 1, MAX_REJECTIONS)) + Times(Rejecting(n), Ways(length - 1, n, budget - 1))
  }

  lemma OfWordsRest(ws: seq<nat>)
    requires ws != []
    ensures OfWords(ws) <==> ws[0] < WORDS && OfWords(ws[1..])
  {
    if ws[0] < WORDS && OfWords(ws[1..]) {
      forall k | 0 <= k < |ws| ensures ws[k] < WORDS {
        assert k > 0 ==> ws[k] == ws[1..][k - 1];
      }
    }
  }

  lemma AllWords()
    ensures |Interval(0, WORDS)| == WORDS
    ensures forall w: nat :: w in Interval(0, WORDS) <==> w < WORDS
  {
    var all := WORDS;
    assert 0 + all * 1 == all;
    ResidueCount(0, all, 1, 0);
  }

  lemma {:induction false} AllSequences(length: nat) returns (all: set<seq<nat>>)
    ensures forall ws :: ws in all <==> |ws| == length && OfWords(ws)
    ensures |all| == Power(length)
  {
    if length == 0 {
      all := {[]};
    } else {
      var rest := AllSequences(length - 1);
      AllWords();
      PrefixedSize(Interval(0, WORDS), rest);
      all := Prefixed(Interval(0, WORDS), rest);
      forall ws ensures ws in all <==> |ws| == length && OfWords(ws) {
        PrefixedMember(Interval(0, WORDS), rest, ws);
        if ws != [] {
          OfWordsRest(ws);
        }
      }
    }
  }

  /** Sequences whose first word is accepted with residue `r`, and sequences
      whose first word is rejected. */
  ghost function FirstWord(n: nat, r: nat, accepted: set<seq<nat>>, rejected: set<seq<nat>>): set<seq<nat>>
    requires 0 < n < WORDS
  {
    Prefixed(AcceptedWords(n, r), accepted) + Prefixed(RejectedWords(n), rejected)
  }

  predicate IsAccepted(w: nat, n: nat)
    requires 0 < n < WORDS
  {
    w >= Threshold(n)
  }

  lemma FirstWordMember(n: nat, r: nat, accepted: set<seq<nat>>, rejected: set<seq<nat>>, ws: seq<nat>)
    requires 0 < n < WORDS
    ensures ws in FirstWord(n, r, accepted, rejected) <==>
      |ws| > 0 && ws[0] < WORDS
      && (if IsAccepted(ws[0], n) then ws[0] % n == r && ws[1..] in accepted else ws[1..] in rejected)
  {
    ThresholdIsRemainder(n);
    PrefixedMember(AcceptedWords(n, r), accepted, ws);
    PrefixedMember(RejectedWords(n), rejected, ws);
  }

  lemma FirstWordCount(n: nat, r: nat, accepted: set<seq<nat>>, rejected: set<seq<nat>>)
    requires 0 < n < WORDS && r < n
    ensures |FirstWord(n, r, accepted, rejected)| == Times(Accepting(n), |accepted|) + Times(Rejecting(n), |rejected|)
  {
    ResiduesAreEquallyLikely(n, r);
    PrefixedSize(AcceptedWords(n, r), accepted);
    PrefixedSize(RejectedWords(n), rejected);
    var a, b := Prefixed(AcceptedWords(n, r), accepted), Prefixed(RejectedWords(n), rejected);
    forall ws ensures ws !in a || ws !in b {
      PrefixedMember(AcceptedWords(n, r), accepted, ws);
      PrefixedMember(RejectedWords(n), rejected, ws);
    }
    assert a !! b;
    assert |a + b| == |a| + |b|;
  }

  /** `all` are the word sequences of a length with these draws. */
  ghost predicate Collects(all: set<seq<nat>>, length: nat, n: nat, budget: nat, draws: seq<nat>)
    requires n < WORDS
  {
    forall ws :: ws in all <==> |ws| == length && OfWords(ws) && Drawn(ws, n, budget, draws)
  }

  lemma DrawnFirst(ws: seq<nat>, n: nat, budget: nat, draws: seq<nat>)
    requires 1 < n < WORDS && budget > 0 && |draws| > 0 && ws != []
    ensures Drawn(ws, n, budget, draws) <==>
      if IsAccepted(ws[0], n) then ws[0] % n == draws[0] && Drawn(ws[1..], n - 1, MAX_REJECTIONS, draws[1..])
      else Drawn(ws[1..], n, budget - 1, draws)
  {
  }

  lemma CollectsFirst(length: nat, n: nat, budget: nat, draws: seq<nat>, accepted: set<seq<nat>>, rejected: set<seq<nat>>)
    requires 1 < n < WORDS && length > 0 && budget > 0 && |draws| > 0
    requires Collects(accepted, length - 1, n - 1, MAX_REJECTIONS, draws[1..])
    requires Collects(rejected, length - 1, n, budget - 1, draws)
    ensures Collects(FirstWord(n, draws[0], accepted, rejected), length, n, budget, draws)
  {
    forall ws
      ensures ws in FirstWord(n, draws[0], accepted, rejected) <==>
        |ws| == length && OfWords(ws) && Drawn(ws, n, budget, draws)
    {
      FirstWordMember(n, draws[0], accepted, rejected, ws);
      if ws != [] {
        OfWordsRest(ws);
        DrawnFirst(ws, n, budget, draws);
      }
    }
  }

  lemma WaysFirst(length: nat, n: nat, budget: nat)
    requires 1 < n < WORDS && length > 0 && budget > 0
    ensures Ways(length, n, budget) ==
      Times(Accepting(n), Ways(length - 1, n - 1, MAX_REJECTIONS)) + Times(Rejecting(n), Ways(length - 1, n, budget - 1))
  {
  }

  lemma RestOfDraws(draws: seq<nat>, n: nat)
    requires 1 < n && ValidDraws(draws, n)
    ensures |draws| > 0 && ValidDraws(draws[1..], n - 1)
  {
    assert forall k :: 0 <= k < |draws[1..]| ==> draws[1..][k] == draws[k + 1];
  }

  /** Equally many sequences of a length have each valid draws. */
  lemma {:induction false} SequencesWith(length: nat, n: nat, budget: nat, draws: seq<nat>) returns (all: set<seq<nat>>)
    requires n < WORDS && ValidDraws(draws, n)
    ensures Collects(all, length, n, budget, draws) && |all| == Ways(length, n, budget)
    decreases length
  {
    if n <= 1 {
      all := AllSequences(length);
    } else if budget == 0 || length == 0 {
      all := {};
    } else {
      RestOfDraws(draws, n);
      var accepted := SequencesWith(length - 1, n - 1, MAX_REJECTIONS, draws[1..]);
      var rejected := SequencesWith(length - 1, n, budget - 1, draws);
      all := FirstWord(n, draws[0], accepted, rejected);
      CollectsFirst(length, n, budget, draws, accepted, rejected);
      FirstWordCount(n, draws[0], accepted, rejected);
      WaysFirst(length, n, budget);
    }
  }

  // ------------------------------------------------------------ the result

  lemma DrawnYields(ws: seq<nat>, n: nat, draws: seq<nat>)
    requires n < WORDS && OfWords(ws) && Drawn(ws, n, MAX_REJECTIONS, draws) && ValidDraws(draws, n)
    ensures Yields(ws, n, Pass(Identity(n), draws))
  {
    forall words: nat -> Word, at: nat | Begins(words, at, ws)
      ensures Shuffle(words, at, Identity(n)) == Some(Pass(Identity(n), draws))
      ensures End(words, at, n).Some? && End(words, at, n).value <= at + |ws|
    {
      DrawnMeaning(words, at, ws, n, MAX_REJECTIONS, draws);
      WholeBudget(words, at, n, draws, at + |ws|);
      ShuffleIsPass(words, at, Identity(n), draws);
    }
  }

  lemma YieldsDrawn(ws: seq<nat>, n: nat, p: seq<nat>) returns (draws: seq<nat>)
    requires n < WORDS && Yields(ws, n, p)
    ensures ValidDraws(draws, n) && Pass(Identity(n), draws) == p && Drawn(ws, n, MAX_REJECTIONS, draws)
  {
    var words: nat -> Word := (k: nat) requires forall i: nat :: i < |ws| ==> ws[i] < WORDS => Padded(ws, k);
    assert Begins(words, 0, ws);
    draws := ShuffleDraws(words, 0, Identity(n));
    ShuffleIsPass(words, 0, Identity(n), draws);
    WholeBudget(words, 0, n, draws, |ws|);
    DrawnMeaning(words, 0, ws, n, MAX_REJECTIONS, draws);
  }

  /** For every length and every permutation of 0..n: the word sequences of
      that length with which the shuffle finishes, rejected words and all, and
      gives that permutation are equally many, whichever the permutation is. */
  lemma EveryLengthIsUniform(length: nat, n: nat, p: seq<nat>) returns (sequences: set<seq<nat>>)
    requires n < WORDS && IsPermutation(p, n)
    ensures forall ws :: ws in sequences <==> |ws| == length && Yields(ws, n, p)
    ensures |sequences| == Ways(length, n, MAX_REJECTIONS)
  {
    var draws := DrawsFor(Identity(n), p);
    sequences := SequencesWith(length, n, MAX_REJECTIONS, draws);
    forall ws ensures ws in sequences <==> |ws| == length && Yields(ws, n, p) {
      if ws in sequences {
        DrawnYields(ws, n, draws);
      }
      if Yields(ws, n, p) {
        var other := YieldsDrawn(ws, n, p);
        PassIsInjective(Identity(n), other, draws);
      }
    }
  }
}
