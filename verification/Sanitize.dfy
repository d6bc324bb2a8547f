/** Sanitizing program-authored text for a terminal: an escape-sequence scanner
    that keeps newlines and SGR sequences and drops every other control. */
module Sanitize {

  const MAX_SLOT_BYTES: nat := 65536
  const ESC: char := '\U{1b}'

  // ---------------------------------------------------------------- classes

  predicate IsControl(c: char) {
    c <= '\U{1f}' || '\U{7f}' <= c <= '\U{9f}'
  }

  predicate IsParameter(c: char) {
    '\U{30}' <= c <= '\U{3f}'
  }

  predicate IsIntermediate(c: char) {
    '\U{20}' <= c <= '\U{2f}'
  }

  predicate IsFinal(c: char) {
    '\U{40}' <= c <= '\U{7e}'
  }

  /** The classes by the columns of the code table of section 5 of ECMA-48:
      sixteen codes each, with DEL alone among the controls. */
  lemma ClassesAreColumns(c: char)
    ensures IsControl(c) <==> c as int == 127 || c as int / 16 in {0, 1, 8, 9}
    ensures IsIntermediate(c) <==> c as int / 16 == 2
    ensures IsParameter(c) <==> c as int / 16 == 3
    ensures IsFinal(c) <==> c as int / 16 in {4, 5, 6, 7} && c as int != 127
  {
  }

  // ------------------------------------------------------- what is consumed

  /** How many leading characters of `s` are parameter bytes. */
  function Parameters(s: string): (n: nat)
    ensures n <= |s|
  {
    if s != "" && IsParameter(s[0]) then 1 + Parameters(s[1..]) else 0
  }

  function Intermediates(s: string): (n: nat)
    ensures n <= |s|
  {
    if s != "" && IsIntermediate(s[0]) then 1 + Intermediates(s[1..]) else 0
  }

  /** The text taken by an escape, and whether it is a complete SGR sequence. */
  datatype Taken = Taken(length: nat, sgr: bool)

  /** After `ESC [`: parameters, intermediates and, if it is there, a final byte. */
  function Csi(s: string): (t: Taken)
    ensures t.length <= |s|
  {
    var n := Parameters(s) + Intermediates(s[Parameters(s)..]);
    if n < |s| && IsFinal(s[n]) then Taken(n + 1, s[n] == 'm') else Taken(n, false)
  }

  predicate StartsStringTerminator(s: string) {
    |s| >= 2 && s[0] == ESC && s[1] == '\\'
  }

  /** After `ESC ]`: through BEL or the string terminator. */
  function Osc(s: string): (n: nat)
    ensures n <= |s|
  {
    if s == "" then 0
    else if s[0] == '\U{7}' then 1
    else if StartsStringTerminator(s) then 2
    else 1 + Osc(s[1..])
  }

  /** After `ESC P`, `ESC X`, `ESC ^` or `ESC _`: through the string terminator. */
  function ControlString(s: string): (n: nat)
    ensures n <= |s|
  {
    if s == "" then 0
    else if StartsStringTerminator(s) then 2
    else 1 + ControlString(s[1..])
  }

  /** What an ESC takes of the text after it. */
  function Escape(s: string): (t: Taken)
    ensures t.length <= |s|
  {
    if s == "" then Taken(0, false)
    else if s[0] == '[' then var t := Csi(s[1..]); Taken(1 + t.length, t.sgr)
    else if s[0] == ']' then Taken(1 + Osc(s[1..]), false)
    else if s[0] == 'P' || s[0] == 'X' || s[0] == '^' || s[0] == '_' then Taken(1 + ControlString(s[1..]), false)
    else Taken(1, false)
  }

  /** How many characters the scanner consumes at the front of `s`. */
  function Step(s: string): (n: nat)
    requires s != ""
    ensures 1 <= n <= |s|
  {
    if s[0] == ESC then 1 + Escape(s[1..]).length else 1
  }

  /** What the scanner emits for them. */
  function Emit(s: string, keepSgr: bool): string
    requires s != ""
  {
    if s[0] == '\n' then (if keepSgr then "\n" else "")
    else if s[0] == ESC then (if keepSgr && Escape(s[1..]).sgr then s[..Step(s)] else "")
    else if IsControl(s[0]) then ""
    else [s[0]]
  }

  function Scan(s: string, keepSgr: bool): string
  {
    if s == "" then "" else Emit(s, keepSgr) + Scan(s[Step(s)..], keepSgr)
  }

  // ------------------------------------------------------------ the scanner

  lemma SuffixStep(input: string, pos: nat)
    requires pos < |input|
    ensures input[pos..] != "" && input[pos..][0] == input[pos] && input[pos..][1..] == input[pos + 1..]
  {
  }

  method TakeParameters(input: string, start: nat, sequence: string) returns (pos: nat, sequence': string)
    requires start <= |input|
    ensures pos == start + Parameters(input[start..])
    ensures sequence' == sequence + input[start..pos]
  {
    pos, sequence' := start, sequence;
    while pos < |input| && IsParameter(input[pos])
      invariant start <= pos <= |input|
      invariant sequence' == sequence + input[start..pos]
      invariant start + Parameters(input[start..]) == pos + Parameters(input[pos..])
    {
      SuffixStep(input, pos);
      sequence' := sequence' + [input[pos]];
      pos := pos + 1;
    }
  }

  method TakeIntermediates(input: string, start: nat, sequence: string) returns (pos: nat, sequence': string)
    requires start <= |input|
    ensures pos == start + Intermediates(input[start..])
    ensures sequence' == sequence + input[start..pos]
  {
    pos, sequence' := start, sequence;
    while pos < |input| && IsIntermediate(input[pos])
      invariant start <= pos <= |input|
      invariant sequence' == sequence + input[start..pos]
      invariant start + Intermediates(input[start..]) == pos + Intermediates(input[pos..])
    {
      SuffixStep(input, pos);
      sequence' := sequence' + [input[pos]];
      pos := pos + 1;
    }
  }

  lemma CsiAt(input: string, start: nat, mid: nat, end: nat)
    requires start <= |input| && mid == start + Parameters(input[start..]) && end == mid + Intermediates(input[mid..])
    ensures end <= |input|
    ensures Csi(input[start..]) ==
            if end < |input| && IsFinal(input[end]) then Taken(end + 1 - start, input[end] == 'm') else Taken(end - start, false)
  {
    assert input[start..][mid - start..] == input[mid..];
  }

  method TakeCsiBody(input: string, start: nat) returns (pos: nat, sequence: string)
    requires start <= |input|
    ensures start <= pos <= |input|
    ensures sequence == [ESC, '['] + input[start..pos]
    ensures Csi(input[start..]) ==
            if pos < |input| && IsFinal(input[pos]) then Taken(pos + 1 - start, input[pos] == 'm') else Taken(pos - start, false)
  {
    var mid;
    mid, sequence := TakeParameters(input, start, [ESC, '[']);
    pos, sequence := TakeIntermediates(input, mid, sequence);
    assert input[start..mid] + input[mid..pos] == input[start..pos];
    Reassociate([ESC, '['], input[start..mid], input[mid..pos]);
    CsiAt(input, start, mid, pos);
  }

  method ScanCsi(input: string, start: nat, out: string, keepSgr: bool) returns (pos: nat, out': string)
    requires start <= |input|
    ensures var t := Csi(input[start..]);
            && pos == start + t.length
            && out' == out + (if keepSgr && t.sgr then [ESC, '['] + input[start..pos] else "")
  {
    out' := out;
    var sequence;
    pos, sequence := TakeCsiBody(input, start);
    if pos == |input| || !IsFinal(input[pos]) {
      return;
    }
    var final := input[pos];
    sequence := sequence + [final];
    pos := pos + 1;
    if keepSgr && final == 'm' {
      Reassociate([ESC, '['], input[start..pos - 1], [final]);
      assert input[start..pos - 1] + [final] == input[start..pos];
      out' := out' + sequence;
    }
  }

  method SkipOsc(input: string, start: nat) returns (pos: nat)
    requires start <= |input|
    ensures pos == start + Osc(input[start..])
  {
    pos := start;
    while pos < |input|
      invariant start <= pos <= |input|
      invariant start + Osc(input[start..]) == pos + Osc(input[pos..])
    {
      var c := input[pos];
      pos := pos + 1;
      if c == '\U{7}' {
        return;
      }
      if c == ESC && pos < |input| && input[pos] == '\\' {
        pos := pos + 1;
        return;
      }
    }
  }

  method SkipControlString(input: string, start: nat) returns (pos: nat)
    requires start <= |input|
    ensures pos == start + ControlString(input[start..])
  {
    pos := start;
    while pos < |input|
      invariant start <= pos <= |input|
      invariant start + ControlString(input[start..]) == pos + ControlString(input[pos..])
    {
      var c := input[pos];
      pos := pos + 1;
      if c == ESC && pos < |input| && input[pos] == '\\' {
        pos := pos + 1;
        return;
      }
    }
  }

  method ScanEscape(input: string, start: nat, out: string, keepSgr: bool) returns (pos: nat, out': string)
    requires 0 < start <= |input| && input[start - 1] == ESC
    ensures var t := Escape(input[start..]);
            && pos == start + t.length
            && out' == out + (if keepSgr && t.sgr then input[start - 1..pos] else "")
  {
    pos, out' := start, out;
    if pos == |input| {
      return;
    }
    var kind := input[pos];
    pos := pos + 1;
    assert input[start..][1..] == input[pos..];
    if kind == '[' {
      pos, out' := ScanCsi(input, pos, out', keepSgr);
      assert [ESC, '['] + input[start + 1..pos] == input[start - 1..pos];
    } else if kind == ']' {
      pos := SkipOsc(input, pos);
    } else if kind == 'P' || kind == 'X' || kind == '^' || kind == '_' {
      pos := SkipControlString(input, pos);
    }
  }

  /** One round of the scanner, seen from the text still to be read. */
  lemma ScanRound(input: string, at: nat, pos: nat, keepSgr: bool)
    requires at < |input| && pos == at + Step(input[at..])
    ensures Scan(input[at..], keepSgr) == Emit(input[at..], keepSgr) + Scan(input[pos..], keepSgr)
    ensures input[at..][..pos - at] == input[at..pos]
  {
    assert input[at..][pos - at..] == input[pos..];
  }

  /** Consume one character, or an escape and what belongs to it. */
  method ScanOne(input: string, at: nat, out: string, keepSgr: bool) returns (pos: nat, out': string)
    requires at < |input|
    ensures pos == at + Step(input[at..])
    ensures out' == out + Emit(input[at..], keepSgr)
  {
    SuffixStep(input, at);
    var c := input[at];
    pos, out' := at + 1, out;
    if c == '\n' {
      if keepSgr {
        out' := out' + [c];
      }
    } else if c == ESC {
      pos, out' := ScanEscape(input, pos, out', keepSgr);
      assert input[at..][..pos - at] == input[at..pos];
    } else if !IsControl(c) {
      out' := out' + [c];
    }
  }

  lemma Reassociate(a: string, b: string, c: string)
    ensures a + (b + c) == (a + b) + c
  {
  }

  /** What one round adds to the output, the rest of the input lacks. */
  lemma RoundKeepsTotal(input: string, out: string, pos: nat, out': string, next: nat, keepSgr: bool, total: string)
    requires pos < |input| && total == out + Scan(input[pos..], keepSgr)
    requires next == pos + Step(input[pos..]) && out' == out + Emit(input[pos..], keepSgr)
    ensures pos < next <= |input| && total == out' + Scan(input[next..], keepSgr)
  {
    ScanRound(input, pos, next, keepSgr);
    Reassociate(out, Emit(input[pos..], keepSgr), Scan(input[next..], keepSgr));
  }

  method ScanText(input: string, keepSgr: bool) returns (out: string)
    ensures out == Scan(input, keepSgr)
  {
    out := "";
    var pos := 0;
    ghost var total := Scan(input, keepSgr);
    assert input[0..] == input;
    while pos < |input|
      invariant pos <= |input|
      invariant total == out + Scan(input[pos..], keepSgr)
      decreases |input| - pos
    {
      var next, out' := ScanOne(input, pos, out, keepSgr);
      RoundKeepsTotal(input, out, pos, out', next, keepSgr, total);
      pos, out := next, out';
    }
  }

  // ---------------------------------------------------- what the output is

  /** Section 5.4 of ECMA-48: `ESC [ parameters intermediates final`. */
  ghost predicate IsCsi(g: string) {
    && |g| >= 3 && g[0] == ESC && g[1] == '[' && IsFinal(g[|g| - 1])
    && exists p :: 2 <= p < |g| && AllParameters(g[2..p]) && AllIntermediates(g[p..|g| - 1])
  }

  ghost predicate IsSgr(g: string) {
    IsCsi(g) && g[|g| - 1] == 'm'
  }

  /** A string opened by ESC and `opener`, closed at `end` and nowhere before. */
  predicate Encloses(g: string, opener: char, end: nat, bel: bool) {
    && 2 <= end < |g| && g[0] == ESC && g[1] == opener
    && forall i :: 2 <= i < end ==> !(bel && g[i] == '\U{7}') && !(g[i] == ESC && g[i + 1] == '\\')
  }

  /** `ESC ] text BEL` or `ESC ] text ESC \`. */
  predicate IsOscString(g: string) {
    && |g| >= 3
    && ((Encloses(g, ']', |g| - 1, true) && g[|g| - 1] == '\U{7}')
        || (Encloses(g, ']', |g| - 2, true) && g[|g| - 2] == ESC && g[|g| - 1] == '\\'))
  }

  /** Section 5.6 of ECMA-48: a DCS, SOS, PM or APC string through its terminator. */
  predicate IsControlString(g: string) {
    && |g| >= 4 && (g[1] == 'P' || g[1] == 'X' || g[1] == '^' || g[1] == '_')
    && Encloses(g, g[1], |g| - 2, false) && g[|g| - 2] == ESC && g[|g| - 1] == '\\'
  }

  predicate AllParameters(s: string) {
    forall i :: 0 <= i < |s| ==> IsParameter(s[i])
  }

  predicate AllIntermediates(s: string) {
    forall i :: 0 <= i < |s| ==> IsIntermediate(s[i])
  }

  predicate IsPrintable(g: string) {
    |g| == 1 && !IsControl(g[0])
  }

  ghost predicate IsToken(g: string) {
    g == "\n" || IsPrintable(g) || IsSgr(g)
  }

  lemma {:induction false} ParametersTaken(s: string)
    ensures AllParameters(s[..Parameters(s)])
  {
    if s != "" && IsParameter(s[0]) {
      ParametersTaken(s[1..]);
      assert s[..Parameters(s)] == [s[0]] + s[1..][..Parameters(s[1..])];
    }
  }

  lemma {:induction false} IntermediatesTaken(s: string)
    ensures AllIntermediates(s[..Intermediates(s)])
  {
    if s != "" && IsIntermediate(s[0]) {
      IntermediatesTaken(s[1..]);
      assert s[..Intermediates(s)] == [s[0]] + s[1..][..Intermediates(s[1..])];
    }
  }

  lemma {:induction false} ParametersOf(a: string, b: string)
    requires AllParameters(a) && (b == "" || !IsParameter(b[0]))
    ensures Parameters(a + b) == |a|
  {
    if a == "" {
      assert a + b == b;
    } else {
      assert (a + b)[1..] == a[1..] + b;
      ParametersOf(a[1..], b);
    }
  }

  lemma {:induction false} IntermediatesOf(a: string, b: string)
    requires AllIntermediates(a) && (b == "" || !IsIntermediate(b[0]))
    ensures Intermediates(a + b) == |a|
  {
    if a == "" {
      assert a + b == b;
    } else {
      assert (a + b)[1..] == a[1..] + b;
      IntermediatesOf(a[1..], b);
    }
  }

  lemma CsiOf(params: string, inters: string, final: char, x: string)
    requires AllParameters(params) && AllIntermediates(inters) && IsFinal(final)
    ensures Csi(params + (inters + ([final] + x))) == Taken(|params| + |inters| + 1, final == 'm')
  {
    var s := params + (inters + ([final] + x));
    ParametersOf(params, inters + ([final] + x));
    assert s[|params|..] == inters + ([final] + x);
    IntermediatesOf(inters, [final] + x);
    assert s[|params| + |inters|] == final;
  }

  lemma SplitAt(g: string, x: string, p: nat)
    requires 2 <= p < |g|
    ensures (g + x)[1..][1..] == g[2..p] + (g[p..|g| - 1] + ([g[|g| - 1]] + x))
  {
  }

  /** A complete control sequence is recognised, whatever follows it. */
  lemma CsiIsRecognised(g: string, x: string)
    requires IsCsi(g)
    ensures Escape((g + x)[1..]) == Taken(|g| - 1, g[|g| - 1] == 'm')
  {
    var p :| 2 <= p < |g| && AllParameters(g[2..p]) && AllIntermediates(g[p..|g| - 1]);
    CsiOf(g[2..p], g[p..|g| - 1], g[|g| - 1], x);
    SplitAt(g, x, p);
  }

  lemma {:induction false} OscSkips(g: string, x: string, i: nat, end: nat)
    requires Encloses(g, ']', end, true) && 2 <= i <= end
    ensures Osc((g + x)[i..]) == (end - i) + Osc((g + x)[end..])
    decreases end - i
  {
    if i < end {
      OscSkips(g, x, i + 1, end);
      SuffixStep(g + x, i);
    }
  }

  lemma {:induction false} ControlStringSkips(g: string, x: string, i: nat, end: nat)
    requires |g| >= 2 && Encloses(g, g[1], end, false) && 2 <= i <= end
    ensures ControlString((g + x)[i..]) == (end - i) + ControlString((g + x)[end..])
    decreases end - i
  {
    if i < end {
      ControlStringSkips(g, x, i + 1, end);
      SuffixStep(g + x, i);
    }
  }

  /** Every complete sequence that is not SGR vanishes, and takes nothing of
      the text after it. */
  lemma OtherSequencesVanish(g: string, x: string, keepSgr: bool)
    requires (IsCsi(g) && !IsSgr(g)) || IsOscString(g) || IsControlString(g)
    ensures Scan(g + x, keepSgr) == Scan(x, keepSgr)
  {
    var s := g + x;
    assert s[1..][1..] == s[2..];
    if IsCsi(g) {
      CsiIsRecognised(g, x);
    } else if IsOscString(g) {
      var end := if Encloses(g, ']', |g| - 1, true) && g[|g| - 1] == '\U{7}' then |g| - 1 else |g| - 2;
      OscSkips(g, x, 2, end);
      SuffixStep(s, end);
    } else {
      ControlStringSkips(g, x, 2, |g| - 2);
      SuffixStep(s, |g| - 2);
    }
    NothingEmitted(g, x, keepSgr);
  }

  lemma NothingEmitted(g: string, x: string, keepSgr: bool)
    requires g + x != "" && Step(g + x) == |g| && Emit(g + x, keepSgr) == ""
    ensures Scan(g + x, keepSgr) == Scan(x, keepSgr)
  {
    assert (g + x)[|g|..] == x;
    assert "" + Scan(x, keepSgr) == Scan(x, keepSgr);
  }

  // ----------------------------------------- whatever else a text may hold

  predicate IsPlainControl(g: string) {
    |g| == 1 && IsControl(g[0]) && g[0] != '\n' && g[0] != ESC
  }

  /** ESC and a character that opens nothing longer. */
  predicate IsShortEscape(g: string) {
    |g| == 2 && g[0] == ESC && g[1] !in "[]PX^_"
  }

  /** A control sequence that ends, without its final byte, before `x`. */
  ghost predicate IsBrokenCsi(g: string, x: string) {
    && |g| >= 2 && g[0] == ESC && g[1] == '['
    && exists p :: 2 <= p <= |g| && AllParameters(g[2..p]) && AllIntermediates(g[p..])
         && (x == "" || (!IsFinal(x[0]) && !IsIntermediate(x[0]) && (p == |g| ==> !IsParameter(x[0]))))
  }

  /** A string may end at `k`. */
  predicate Closer(s: string, k: nat, bel: bool)
    requires k < |s|
  {
    (bel && s[k] == '\U{7}') || (s[k] == ESC && k + 1 < |s| && s[k + 1] == '\\')
  }

  predicate Unclosed(s: string, from: nat, end: nat, bel: bool)
    requires end <= |s|
  {
    forall k :: from <= k < end ==> !Closer(s, k, bel)
  }

  /** A string that is opened and goes on to the end of the text. */
  predicate NeverCloses(s: string) {
    && |s| >= 2 && s[0] == ESC
    && ((s[1] == ']' && Unclosed(s, 2, |s|, true)) || (s[1] in "PX^_" && Unclosed(s, 2, |s|, false)))
  }

  /** `g` leaves nothing behind when `x` follows it. */
  ghost predicate Vanishes(g: string, x: string) {
    || IsPlainControl(g) || IsShortEscape(g)
    || (IsCsi(g) && !IsSgr(g)) || IsBrokenCsi(g, x)
    || IsOscString(g) || IsControlString(g)
    || (x == "" && (g == [ESC] || NeverCloses(g)))
  }

  lemma BrokenCsiOf(params: string, inters: string, x: string)
    requires AllParameters(params) && AllIntermediates(inters)
    requires x == "" || (!IsFinal(x[0]) && !IsIntermediate(x[0]) && (inters == "" ==> !IsParameter(x[0])))
    ensures Csi(params + (inters + x)) == Taken(|params| + |inters|, false)
  {
    var s := params + (inters + x);
    ParametersOf(params, inters + x);
    assert s[|params|..] == inters + x;
    IntermediatesOf(inters, x);
    assert x != "" ==> s[|params| + |inters|] == x[0];
  }

  lemma BrokenCsiVanishes(g: string, x: string, keepSgr: bool)
    requires IsBrokenCsi(g, x)
    ensures Scan(g + x, keepSgr) == Scan(x, keepSgr)
  {
    var p :| 2 <= p <= |g| && AllParameters(g[2..p]) && AllIntermediates(g[p..])
      && (x == "" || (!IsFinal(x[0]) && !IsIntermediate(x[0]) && (p == |g| ==> !IsParameter(x[0]))));
    assert (g + x)[1..][1..] == g[2..p] + (g[p..] + x);
    BrokenCsiOf(g[2..p], g[p..], x);
    NothingEmitted(g, x, keepSgr);
  }

  lemma {:induction false} OscMeans(s: string, i: nat)
    requires i <= |s|
    ensures var end := i + Osc(s[i..]);
      || (end == |s| && Unclosed(s, i, |s|, true))
      || (end > i && s[end - 1] == '\U{7}' && Unclosed(s, i, end - 1, true))
      || (end > i + 1 && s[end - 2] == ESC && s[end - 1] == '\\' && Unclosed(s, i, end - 2, true))
    decreases |s| - i
  {
    if i < |s| {
      SuffixStep(s, i);
      if !Closer(s, i, true) {
        OscMeans(s, i + 1);
      }
    }
  }

  lemma {:induction false} ControlStringMeans(s: string, i: nat)
    requires i <= |s|
    ensures var end := i + ControlString(s[i..]);
      || (end == |s| && Unclosed(s, i, |s|, false))
      || (end > i + 1 && s[end - 2] == ESC && s[end - 1] == '\\' && Unclosed(s, i, end - 2, false))
    decreases |s| - i
  {
    if i < |s| {
      SuffixStep(s, i);
      if !Closer(s, i, false) {
        ControlStringMeans(s, i + 1);
      }
    }
  }

  /** From where nothing closes, everything is taken. */
  lemma {:induction false} UnclosedTakesAll(s: string, i: nat)
    requires i <= |s|
    ensures Unclosed(s, i, |s|, true) ==> Osc(s[i..]) == |s| - i
    ensures Unclosed(s, i, |s|, false) ==> ControlString(s[i..]) == |s| - i
    decreases |s| - i
  {
    if i < |s| {
      SuffixStep(s, i);
      UnclosedTakesAll(s, i + 1);
      assert Unclosed(s, i, |s|, true) ==> !Closer(s, i, true);
      assert Unclosed(s, i, |s|, false) ==> !Closer(s, i, false);
    }
  }

  lemma RestVanishes(g: string, keepSgr: bool)
    requires g == [ESC] || NeverCloses(g)
    ensures Scan(g, keepSgr) == ""
  {
    assert g + "" == g;
    if |g| >= 2 {
      assert g[1..][1..] == g[2..];
      UnclosedTakesAll(g, 2);
    }
    NothingEmitted(g, "", keepSgr);
  }

  /** What vanishes does so whatever follows, and takes nothing of it. */
  lemma VanishingMeans(g: string, x: string, keepSgr: bool)
    requires Vanishes(g, x)
    ensures Scan(g + x, keepSgr) == Scan(x, keepSgr)
  {
    if (IsCsi(g) && !IsSgr(g)) || IsOscString(g) || IsControlString(g) {
      OtherSequencesVanish(g, x, keepSgr);
    } else if IsBrokenCsi(g, x) {
      BrokenCsiVanishes(g, x, keepSgr);
    } else if IsPlainControl(g) || IsShortEscape(g) {
      NothingEmitted(g, x, keepSgr);
    } else {
      assert g + x == g;
      RestVanishes(g, keepSgr);
    }
  }

  lemma {:induction false} ParametersStop(s: string)
    ensures Parameters(s) < |s| ==> !IsParameter(s[Parameters(s)])
  {
    if s != "" && IsParameter(s[0]) {
      ParametersStop(s[1..]);
    }
  }

  lemma {:induction false} IntermediatesStop(s: string)
    ensures Intermediates(s) < |s| ==> !IsIntermediate(s[Intermediates(s)])
  {
    if s != "" && IsIntermediate(s[0]) {
      IntermediatesStop(s[1..]);
    }
  }

  /** Where the parameters and the intermediates of a control sequence end. */
  lemma CsiParts(s: string) returns (p: nat, k: nat)
    requires |s| >= 2 && s[0] == ESC && s[1] == '['
    ensures 2 <= p <= k <= |s| && AllParameters(s[2..p]) && AllIntermediates(s[p..k])
    ensures k < |s| ==> !IsIntermediate(s[k]) && (p == k ==> !IsParameter(s[k]))
  {
    var rest := s[2..];
    var n := Parameters(rest);
    var m := Intermediates(rest[n..]);
    p, k := 2 + n, 2 + n + m;
    ParametersTaken(rest);
    ParametersStop(rest);
    IntermediatesTaken(rest[n..]);
    IntermediatesStop(rest[n..]);
    assert s[2..p] == rest[..n] && s[p..k] == rest[n..][..m];
  }

  lemma CsiSplits(s: string) returns (g: string, x: string)
    requires |s| >= 2 && s[0] == ESC && s[1] == '['
    ensures s == g + x && g != "" && (IsSgr(g) || Vanishes(g, x))
  {
    var p, k := CsiParts(s);
    if k < |s| && IsFinal(s[k]) {
      g, x := s[..k + 1], s[k + 1..];
      assert g[2..p] == s[2..p] && g[p..|g| - 1] == s[p..k];
      assert IsCsi(g);
    } else {
      g, x := s[..k], s[k..];
      assert g[2..p] == s[2..p] && g[p..] == s[p..k];
      assert IsBrokenCsi(g, x);
    }
  }

  lemma StringSplits(s: string) returns (g: string, x: string)
    requires |s| >= 2 && s[0] == ESC && s[1] in "]PX^_"
    ensures s == g + x && g != "" && Vanishes(g, x)
  {
    var bel := s[1] == ']';
    var end := 2 + (if bel then Osc(s[2..]) else ControlString(s[2..]));
    OscMeans(s, 2);
    ControlStringMeans(s, 2);
    g, x := s[..end], s[end..];
    if end == |s| && Unclosed(s, 2, |s|, bel) {
      assert g == s;
    } else {
      var close := if bel && s[end - 1] == '\U{7}' && Unclosed(s, 2, end - 1, true) then end - 1 else end - 2;
      assert Unclosed(s, 2, close, bel);
      forall i | 2 <= i < close ensures !(bel && g[i] == '\U{7}') && !(g[i] == ESC && g[i + 1] == '\\') {
        assert !Closer(s, i, bel);
      }
      assert Encloses(g, g[1], close, bel);
    }
  }

  /** Every text begins with a token or with something that vanishes. So the
      laws for these two say what becomes of every text. */
  lemma EveryTextSplits(s: string) returns (g: string, x: string)
    requires s != ""
    ensures s == g + x && g != "" && (IsToken(g) || Vanishes(g, x))
  {
    if s[0] != ESC {
      g, x := s[..1], s[1..];
    } else if |s| == 1 {
      g, x := s, "";
    } else if s[1] == '[' {
      g, x := CsiSplits(s);
    } else if s[1] in "]PX^_" {
      g, x := StringSplits(s);
    } else {
      g, x := s[..2], s[2..];
    }
  }

  /** What the scanner keeps as SGR has the SGR form. */
  lemma KeptIsSgr(s: string)
    requires s != "" && s[0] == ESC && Escape(s[1..]).sgr
    ensures IsSgr(s[..Step(s)])
  {
    var rest := s[2..];
    assert s[1..][1..] == rest;
    var n := Parameters(rest);
    var m := Intermediates(rest[n..]);
    ParametersTaken(rest);
    IntermediatesTaken(rest[n..]);
    var g := s[..Step(s)];
    assert |g| == n + m + 3;
    assert g[2..2 + n] == rest[..n];
    assert g[2 + n..|g| - 1] == rest[n..][..m];
  }

  /** Each round emits nothing or one token. */
  lemma EmitIsToken(s: string)
    requires s != ""
    ensures Emit(s, true) == "" || IsToken(Emit(s, true))
    ensures Emit(s, false) == if IsPrintable(Emit(s, true)) then Emit(s, true) else ""
  {
    if s[0] == ESC && Escape(s[1..]).sgr {
      KeptIsSgr(s);
    }
  }

  /** Scanning a token followed by anything. */
  lemma ScanToken(g: string, x: string, keepSgr: bool)
    requires IsToken(g)
    ensures Scan(g + x, keepSgr) == (if keepSgr || IsPrintable(g) then g else "") + Scan(x, keepSgr)
  {
    var s := g + x;
    TokenStep(g, x);
    assert s[|g|..] == x;
    assert Scan(s, keepSgr) == Emit(s, keepSgr) + Scan(s[Step(s)..], keepSgr);
  }

  lemma TokenStep(g: string, x: string)
    requires IsToken(g)
    ensures Step(g + x) == |g|
    ensures Emit(g + x, true) == g && Emit(g + x, false) == if IsPrintable(g) then g else ""
  {
    var s := g + x;
    assert s[..|g|] == g;
    if IsSgr(g) {
      CsiIsRecognised(g, x);
    }
  }

  ghost function Flatten(tokens: seq<string>): string {
    if tokens == [] then "" else tokens[0] + Flatten(tokens[1..])
  }

  /** Text made of printable characters, newlines and complete SGR sequences
      is kept whole. */
  lemma {:induction false} CleanTextIsKept(tokens: seq<string>)
    requires forall i :: 0 <= i < |tokens| ==> IsToken(tokens[i])
    ensures Scan(Flatten(tokens), true) == Flatten(tokens)
  {
    if tokens != [] {
      CleanTextIsKept(tokens[1..]);
      ScanToken(tokens[0], Flatten(tokens[1..]), true);
    }
  }

  lemma {:induction false} ScanIsIdempotent(s: string, keepSgr: bool)
    ensures Scan(Scan(s, keepSgr), keepSgr) == Scan(s, keepSgr)
    decreases |s|
  {
    if s != "" {
      var e, rest := Emit(s, keepSgr), s[Step(s)..];
      ScanIsIdempotent(rest, keepSgr);
      EmitIsToken(s);
      if e == "" {
        assert e + Scan(rest, keepSgr) == Scan(rest, keepSgr);
      } else {
        ScanToken(e, Scan(rest, keepSgr), keepSgr);
      }
    }
  }

  /** Stripping after keeping SGR is stripping. */
  lemma {:induction false} StripAfterKeep(s: string)
    ensures Scan(Scan(s, true), false) == Scan(s, false)
    decreases |s|
  {
    if s != "" {
      var e, rest := Emit(s, true), s[Step(s)..];
      StripAfterKeep(rest);
      EmitIsToken(s);
      var kept := Scan(rest, true);
      assert Scan(s, true) == e + kept;
      assert Scan(s, false) == Emit(s, false) + Scan(rest, false);
      if e == "" {
        assert e + kept == kept;
      } else {
        ScanToken(e, kept, false);
      }
    }
  }

  /** A terminal can be handed position `i` of `out`: it is printable, a
      newline, or an ESC that begins a complete SGR sequence. */
  ghost predicate SafeAt(out: string, i: nat)
    requires i < |out|
  {
    || !IsControl(out[i])
    || out[i] == '\n'
    || exists j :: i < j <= |out| && IsSgr(out[i..j])
  }

  lemma TokenIsSafe(g: string, x: string, i: nat)
    requires IsToken(g) && i < |g|
    ensures SafeAt(g + x, i)
  {
    if IsSgr(g) {
      if i == 0 {
        assert (g + x)[0..|g|] == g;
      } else {
        var p :| 2 <= p < |g| && AllParameters(g[2..p]) && AllIntermediates(g[p..|g| - 1]);
        assert 2 <= i < p ==> g[i] == g[2..p][i - 2];
        assert p <= i < |g| - 1 ==> g[i] == g[p..|g| - 1][i - p];
        assert !IsControl(g[i]);
      }
    }
  }

  lemma SafeShifts(a: string, out: string, i: nat)
    requires i < |out| && SafeAt(out, i)
    ensures SafeAt(a + out, |a| + i)
  {
    if IsControl(out[i]) && out[i] != '\n' {
      var j :| i < j <= |out| && IsSgr(out[i..j]);
      assert (a + out)[|a| + i..|a| + j] == out[i..j];
    }
  }

  /** For every input, every position of the kept text is safe. */
  lemma {:induction false} ScanIsSafe(s: string)
    ensures IsSafe(Scan(s, true))
    decreases |s|
  {
    if s != "" {
      var e, rest := Emit(s, true), Scan(s[Step(s)..], true);
      ScanIsSafe(s[Step(s)..]);
      EmitIsToken(s);
      SafeConcat(e, rest);
    }
  }

  ghost predicate IsSafe(out: string) {
    forall i :: 0 <= i < |out| ==> SafeAt(out, i)
  }

  lemma SafeConcat(e: string, rest: string)
    requires e == "" || IsToken(e)
    requires IsSafe(rest)
    ensures IsSafe(e + rest)
  {
    forall i | 0 <= i < |e + rest|
      ensures SafeAt(e + rest, i)
    {
      if i < |e| {
        TokenIsSafe(e, rest, i);
      } else {
        SafeShifts(e, rest, i - |e|);
      }
    }
  }

  /** For every input, stripped text has no control character at all. */
  lemma {:induction false} StripIsPrintable(s: string)
    ensures forall i :: 0 <= i < |Scan(s, false)| ==> !IsControl(Scan(s, false)[i])
    decreases |s|
  {
    if s != "" {
      StripIsPrintable(s[Step(s)..]);
      EmitIsToken(s);
    }
  }

  // ------------------------------------------------------------- truncation

  function Utf8Length(c: char): (n: nat)
    ensures 1 <= n <= 4
  {
    if c < '\U{80}' then 1 else if c < '\U{800}' then 2 else if c < '\U{10000}' then 3 else 4
  }

  function PowerOfTwo(bits: nat): nat {
    if bits == 0 then 1 else 2 * PowerOfTwo(bits - 1)
  }

  /** Section 3 of RFC 3629: one byte carries seven bits of a character, and a
      sequence of n bytes, for n from 2 to 4, carries 5n + 1. A character takes
      the shortest that carries it. */
  lemma Utf8LengthIsShortest(c: char)
    ensures Utf8Length(c) <= 1 <==> (c as int) < PowerOfTwo(7)
    ensures Utf8Length(c) <= 2 <==> (c as int) < PowerOfTwo(5 * 2 + 1)
    ensures Utf8Length(c) <= 3 <==> (c as int) < PowerOfTwo(5 * 3 + 1)
    ensures (c as int) < PowerOfTwo(5 * 4 + 1)
  {
    assert PowerOfTwo(7) == 0x80;
    assert PowerOfTwo(11) == 0x800;
    assert PowerOfTwo(16) == 0x10000;
    assert PowerOfTwo(21) == 0x200000;
  }

  /** The UTF-8 length of a text. */
  function Bytes(s: string): nat {
    if s == "" then 0 else Bytes(s[..|s| - 1]) + Utf8Length(s[|s| - 1])
  }

  lemma {:induction false} BytesConcat(a: string, b: string)
    ensures Bytes(a + b) == Bytes(a) + Bytes(b)
    decreases |b|
  {
    if b == "" {
      assert a + b == a;
    } else {
      assert (a + b)[..|a + b| - 1] == a + b[..|b| - 1];
      BytesConcat(a, b[..|b| - 1]);
    }
  }

  /** How many whole characters fit in `max` bytes. */
  function WholeChars(s: string, max: nat): (k: nat)
    ensures k <= |s|
  {
    if s == "" || Bytes(s) <= max then |s| else WholeChars(s[..|s| - 1], max)
  }

  predicate IsCharBoundary(s: string, index: nat) {
    Bytes(s[..WholeChars(s, index)]) == index
  }

  /** `p` is the longest whole-character prefix of `s` within `max` bytes. */
  ghost predicate LongestWithin(p: string, s: string, max: nat) {
    && p <= s
    && Bytes(p) <= max
    && forall k :: |p| < k <= |s| ==> Bytes(s[..k]) > max
  }

  lemma {:induction false} WholeCharsIsLongest(s: string, max: nat)
    ensures LongestWithin(s[..WholeChars(s, max)], s, max)
  {
    if s == "" || Bytes(s) <= max {
      assert s[..|s|] == s;
    } else {
      var front := s[..|s| - 1];
      WholeCharsIsLongest(front, max);
      var k := WholeChars(front, max);
      assert front[..k] == s[..k];
      assert forall j :: k < j < |s| ==> s[..j] == front[..j];
      assert s[..|s|] == s;
    }
  }

  lemma LongestIsUnique(p: string, q: string, s: string, max: nat)
    requires LongestWithin(p, s, max) && LongestWithin(q, s, max)
    ensures p == q
  {
    assert s[..|p|] == p && s[..|q|] == q;
  }

  /** A byte index is a character boundary when some prefix ends there. */
  lemma BoundaryMeaning(s: string, index: nat)
    ensures IsCharBoundary(s, index) <==> exists k :: 0 <= k <= |s| && Bytes(s[..k]) == index
  {
    WholeCharsIsLongest(s, index);
    var w := WholeChars(s, index);
    forall k | 0 <= k <= |s| && Bytes(s[..k]) == index
      ensures Bytes(s[..w]) == index
    {
      PrefixBytes(s, k, w);
    }
  }

  lemma {:induction false} PrefixBytes(s: string, i: nat, j: nat)
    requires i <= |s| && j <= |s|
    ensures i <= j ==> Bytes(s[..i]) <= Bytes(s[..j])
    decreases j
  {
    if i < j {
      assert s[..j][..j - 1] == s[..j - 1];
      PrefixBytes(s, i, j - 1);
    }
  }

  method TruncateOnCharBoundary(input: string, max: nat) returns (p: string)
    ensures LongestWithin(p, input, max)
    ensures p == input[..WholeChars(input, max)]
  {
    WholeCharsIsLongest(input, max);
    if Bytes(input) <= max {
      assert input[..|input|] == input;
      return input;
    }
    var end := max;
    while !IsCharBoundary(input, end)
      invariant WholeChars(input, end) == WholeChars(input, max)
      decreases end
    {
      StepBack(input, end);
      end := end - 1;
    }
    return input[..WholeChars(input, end)];
  }

  lemma StepBack(s: string, end: nat)
    requires !IsCharBoundary(s, end)
    ensures end > 0 && WholeChars(s, end - 1) == WholeChars(s, end)
  {
    WholeCharsIsLongest(s, end);
    var p := s[..WholeChars(s, end)];
    assert Bytes(p) < end;
    assert LongestWithin(p, s, end - 1);
    WholeCharsIsLongest(s, end - 1);
    LongestIsUnique(p, s[..WholeChars(s, end - 1)], s, end - 1);
  }

  // ------------------------------------------------------- the two functions

  function Truncated(s: string): string {
    s[..WholeChars(s, MAX_SLOT_BYTES)]
  }

  method SanitizeText(input: string) returns (out: string)
    ensures out == Scan(Truncated(input), true)
  {
    var text := TruncateOnCharBoundary(input, MAX_SLOT_BYTES);
    out := ScanText(text, true);
  }

  method StripAnsi(input: string) returns (out: string)
    ensures out == Scan(input, false)
  {
    out := ScanText(input, false);
  }

  lemma {:induction false} ScanDoesNotGrow(s: string, keepSgr: bool)
    ensures Bytes(Scan(s, keepSgr)) <= Bytes(s)
    decreases |s|
  {
    if s != "" {
      var n := Step(s);
      ScanDoesNotGrow(s[n..], keepSgr);
      BytesConcat(s[..n], s[n..]);
      assert s[..n] + s[n..] == s;
      BytesConcat(Emit(s, keepSgr), Scan(s[n..], keepSgr));
      EmitDoesNotGrow(s, keepSgr);
    }
  }

  lemma EmitDoesNotGrow(s: string, keepSgr: bool)
    requires s != ""
    ensures Bytes(Emit(s, keepSgr)) <= Bytes(s[..Step(s)])
  {
    PrefixBytes(s, 1, Step(s));
    assert s[..1] == [s[0]];
  }

  /** Sanitizing twice is sanitizing once, the byte limit included. */
  lemma SanitizeIsIdempotent(s: string)
    ensures var once := Scan(Truncated(s), true); Scan(Truncated(once), true) == once
  {
    var t := Truncated(s);
    var once := Scan(t, true);
    WholeCharsIsLongest(s, MAX_SLOT_BYTES);
    ScanDoesNotGrow(t, true);
    assert Truncated(once) == once;
    ScanIsIdempotent(t, true);
  }

  /** Stripping sanitized text strips the longest prefix within the limit. */
  lemma StripOfSanitized(s: string)
    ensures LongestWithin(Truncated(s), s, MAX_SLOT_BYTES)
    ensures Scan(Scan(Truncated(s), true), false) == Scan(Truncated(s), false)
  {
    WholeCharsIsLongest(s, MAX_SLOT_BYTES);
    StripAfterKeep(Truncated(s));
  }
}
