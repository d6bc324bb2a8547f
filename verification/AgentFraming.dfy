/** Line framing between the coordinator and an executable agent: one callout
    line out, one answer line back, over an arbitrarily chunked output pipe. */
module AgentFraming {
  import opened Options

  const MAX_LINE_BYTES: nat := 65536
  const READ_CHUNK_BYTES: nat := 1024

  type Byte = b: nat | b < 256

  const NEWLINE: Byte := 10
  const RETURN: Byte := 13

  /** What one read of the agent's output gives. `Elapsed` is a read that was
      still waiting when its time ran out. */
  datatype Read = Data(bytes: seq<Byte>) | EndOfFile | ReadError | Elapsed

  type Output = nat -> Read

  /** A read fills at most one chunk and never returns an empty one. */
  ghost predicate OutputOk(out: Output) {
    forall i: nat :: out(i).Data? ==> 1 <= |out(i).bytes| <= READ_CHUNK_BYTES
  }

  // ----------------------------------------------------------------- lines

  /** The first newline at or after `from`, or the length of `s`. */
  function Find(s: seq<Byte>, from: nat): (i: nat)
    requires from <= |s|
    ensures from <= i <= |s|
    ensures forall k :: from <= k < i ==> s[k] != NEWLINE
    ensures i < |s| ==> s[i] == NEWLINE
    decreases |s| - from
  {
    if from == |s| || s[from] == NEWLINE then from else Find(s, from + 1)
  }

  /** A newline at the end and nowhere else. */
  predicate IsLine(s: seq<Byte>) {
    s != [] && Find(s, 0) == |s| - 1
  }

  /** A line without its newline and one carriage return before it. */
  function Strip(line: seq<Byte>): seq<Byte>
    requires IsLine(line)
  {
    var text := line[..|line| - 1];
    if text != [] && text[|text| - 1] == RETURN then text[..|text| - 1] else text
  }

  /** `line` is `text`, perhaps a carriage return, and a newline. A carriage
      return at the end of the text is taken for part of the line's end. */
  ghost predicate Frames(line: seq<Byte>, text: seq<Byte>) {
    line == text + [13, 10] || (line == text + [10] && (text == [] || text[|text| - 1] != 13))
  }

  /** Stripping a line is the only way to undo its framing. */
  lemma StripUnframes(line: seq<Byte>, text: seq<Byte>)
    requires IsLine(line)
    ensures Frames(line, text) <==> text == Strip(line)
  {
    var cut := line[..|line| - 1];
    assert line == cut + [10];
    if cut != [] && cut[|cut| - 1] == 13 {
      assert line == cut[..|cut| - 1] + [13, 10];
    }
    if line == text + [13, 10] {
      assert cut == text + [13] && cut[..|cut| - 1] == text;
    } else if line == text + [10] {
      assert cut == text;
    }
  }

  function Concat(lines: seq<seq<Byte>>): seq<Byte> {
    if lines == [] then [] else Concat(lines[..|lines| - 1]) + lines[|lines| - 1]
  }

  /** The complete lines of a byte stream, in order. */
  function LinesOf(s: seq<Byte>): seq<seq<Byte>>
    decreases |s|
  {
    var n := Find(s, 0);
    if n < |s| then [s[..n + 1]] + LinesOf(s[n + 1..]) else []
  }

  ghost predicate AllLines(lines: seq<seq<Byte>>) {
    forall i :: 0 <= i < |lines| ==> IsLine(lines[i])
  }

  lemma FindIs(s: seq<Byte>, i: nat)
    requires i <= |s| && (forall k :: 0 <= k < i ==> s[k] != NEWLINE) && (i < |s| ==> s[i] == NEWLINE)
    ensures Find(s, 0) == i
  {
  }

  lemma LineFirst(line: seq<Byte>, rest: seq<Byte>)
    requires IsLine(line)
    ensures LinesOf(line + rest) == [line] + LinesOf(rest)
  {
    var s, n := line + rest, |line| - 1;
    assert forall k :: 0 <= k < |line| ==> s[k] == line[k];
    FindIs(s, n);
    assert s[..n + 1] == line && s[n + 1..] == rest;
  }

  /** Splitting a concatenation of lines gives the lines back. */
  lemma {:induction false} LinesOfConcat(lines: seq<seq<Byte>>, rest: seq<Byte>)
    requires AllLines(lines)
    ensures LinesOf(Concat(lines) + rest) == lines + LinesOf(rest)
    decreases |lines|
  {
    if lines == [] {
      assert Concat(lines) + rest == rest;
    } else {
      var front, last := lines[..|lines| - 1], lines[|lines| - 1];
      assert Concat(lines) + rest == Concat(front) + (last + rest);
      LinesOfConcat(front, last + rest);
      LineFirst(last, rest);
      assert lines == front + [last];
    }
  }

  // -------------------------------------------------------- reading a line

  /** The result of waiting for an answer line: the line, the next read, and
      the bytes left over; or a failure with what was buffered. */
  datatype Answer =
    | Line(line: seq<Byte>, next: nat, left: seq<Byte>)
    | Oversized(next: nat, left: seq<Byte>)
    | Broken(next: nat, left: seq<Byte>)

  function ReadLine(out: Output, at: nat, pending: seq<Byte>): Answer
    decreases if |pending| < MAX_LINE_BYTES then MAX_LINE_BYTES - |pending| else 0
  {
    var n := Find(pending, 0);
    if n < |pending| then
      (if n + 1 > MAX_LINE_BYTES then Oversized(at, pending[n + 1..]) else Line(pending[..n + 1], at, pending[n + 1..]))
    else if |pending| >= MAX_LINE_BYTES then Oversized(at, pending)
    else match out(at)
      case Data(bytes) => if bytes == [] then Broken(at + 1, pending) else ReadLine(out, at + 1, pending + bytes)
      case _ => Broken(at + 1, pending)
  }

  /** The bytes of reads `from` up to `to`, all of them data. */
  ghost predicate AllData(out: Output, from: nat, end: nat) {
    forall i: nat :: from <= i < end ==> out(i).Data?
  }

  ghost function Received(out: Output, from: nat, end: nat): seq<Byte>
    decreases end
  {
    if from >= end then []
    else Received(out, from, end - 1) + (if out(end - 1).Data? then out(end - 1).bytes else [])
  }

  lemma {:induction false} ReceivedSplit(out: Output, from: nat, mid: nat, end: nat)
    requires from <= mid <= end
    ensures Received(out, from, end) == Received(out, from, mid) + Received(out, mid, end)
    decreases end
  {
    if mid < end {
      ReceivedSplit(out, from, mid, end - 1);
    }
  }

  lemma ReceivedFirst(out: Output, at: nat, end: nat)
    requires at < end && out(at).Data?
    ensures Received(out, at, end) == out(at).bytes + Received(out, at + 1, end)
  {
    ReceivedSplit(out, at, at + 1, end);
    assert Received(out, at, at + 1) == Received(out, at, at) + out(at).bytes;
  }

  /** However the pipe cut it, a successful read gives the first line of what
      was buffered and received, and leaves exactly the rest. */
  lemma {:induction false} ReadLineMeaning(out: Output, at: nat, pending: seq<Byte>)
    requires OutputOk(out)
    ensures var r := ReadLine(out, at, pending);
            && at <= r.next
            && (r.Line? ==> IsLine(r.line) && |r.line| <= MAX_LINE_BYTES && AllData(out, at, r.next)
                            && pending + Received(out, at, r.next) == r.line + r.left)
            && (|pending| < MAX_LINE_BYTES + READ_CHUNK_BYTES ==> |r.left| < MAX_LINE_BYTES + READ_CHUNK_BYTES)
    decreases if |pending| < MAX_LINE_BYTES then MAX_LINE_BYTES - |pending| else 0
  {
    var n := Find(pending, 0);
    if n < |pending| {
      if n + 1 <= MAX_LINE_BYTES {
        var line := pending[..n + 1];
        FindIs(line, n);
        assert pending == line + pending[n + 1..];
      }
    } else if |pending| < MAX_LINE_BYTES && out(at).Data? {
      ReadLineMeaning(out, at + 1, pending + out(at).bytes);
      var r := ReadLine(out, at + 1, pending + out(at).bytes);
      if r.Line? {
        ReceivedFirst(out, at, r.next);
        assert pending + Received(out, at, r.next) == (pending + out(at).bytes) + Received(out, at + 1, r.next);
      }
    }
  }

  /** Every way of cutting one line of at most 64 KiB into reads delivers it. */
  lemma {:induction false} EveryChunkingDelivers(out: Output, at: nat, end: nat, pending: seq<Byte>, line: seq<Byte>)
    requires OutputOk(out) && at <= end && AllData(out, at, end)
    requires IsLine(line) && |line| <= MAX_LINE_BYTES && pending + Received(out, at, end) == line
    ensures ReadLine(out, at, pending) == Line(line, end, [])
    decreases end - at
  {
    if at == end {
      assert pending == line;
      assert pending[..|line|] == line;
    } else {
      ReceivedFirst(out, at, end);
      var more := Received(out, at + 1, end);
      assert pending + (out(at).bytes + more) == (pending + out(at).bytes) + more;
      assert |pending| < |line|;
      assert forall k :: 0 <= k < |pending| ==> pending[k] == line[k];
      FindIs(pending, |pending|);
      EveryChunkingDelivers(out, at + 1, end, pending + out(at).bytes, line);
    }
  }

  // ------------------------------------------------------------- the agent

  /** What the surroundings decide during one callout: the encoded length, if
      encoding works; whether the callout was written; whether the response
      time lasted; whether the child still runs; whether a cleanup succeeds. */
  datatype Callout = Callout(encoded: Option<nat>, written: bool, inTime: bool, running: bool, cleanup: bool)

  /** The reads from `at` on and the callout let an open agent answer. */
  ghost predicate Answers(out: Output, at: nat, c: Callout, isJson: seq<Byte> -> bool) {
    && out(at).Elapsed?
    && c.encoded.Some? && c.encoded.value + 1 <= MAX_LINE_BYTES
    && c.written
    && Replies(out, at + 1, isJson)
    && c.inTime && c.running
  }

  /** The reads from `at` up to `end`, in whatever pieces, are one line with
      this text, within the line bound, and the agent is silent after it. */
  ghost predicate Sends(out: Output, at: nat, end: nat, text: seq<Byte>) {
    && at <= end && AllData(out, at, end)
    && Frames(Received(out, at, end), text) && 10 !in text
    && |Received(out, at, end)| <= MAX_LINE_BYTES
    && out(end).Elapsed?
  }

  ghost predicate Sent(out: Output, at: nat, text: seq<Byte>) {
    exists end: nat :: Sends(out, at, end, text)
  }

  /** From `at` on the agent sends one line of JSON and is silent then. */
  ghost predicate Replies(out: Output, at: nat, isJson: seq<Byte> -> bool) {
    exists end: nat, text: seq<Byte> :: Sends(out, at, end, text) && isJson(text)
  }

  /** Reading a line finds such a line, and nothing else. */
  lemma SendsMeaning(out: Output, at: nat, end: nat, text: seq<Byte>)
    requires OutputOk(out)
    ensures var a := ReadLine(out, at, []); a.Line? ==> IsLine(a.line)
    ensures var a := ReadLine(out, at, []);
      Sends(out, at, end, text) <==> a.Line? && a.left == [] && a.next == end && text == Strip(a.line) && out(end).Elapsed?
  {
    var a := ReadLine(out, at, []);
    ReadLineMeaning(out, at, []);
    if Sends(out, at, end, text) {
      var line := Received(out, at, end);
      FramedIsLine(line, text);
      assert [] + line == line;
      EveryChunkingDelivers(out, at, end, [], line);
      StripUnframes(line, text);
    }
    if a.Line? && a.left == [] && a.next == end && text == Strip(a.line) {
      assert Received(out, at, end) == [] + Received(out, at, end) == a.line + [] == a.line;
      StripUnframes(a.line, text);
    }
  }

  lemma FramedIsLine(line: seq<Byte>, text: seq<Byte>)
    requires Frames(line, text) && 10 !in text
    ensures IsLine(line)
  {
    FindIs(line, |line| - 1);
  }

  lemma RepliesMeaning(out: Output, at: nat, isJson: seq<Byte> -> bool)
    requires OutputOk(out)
    ensures var a := ReadLine(out, at, []); a.Line? ==> IsLine(a.line)
    ensures var a := ReadLine(out, at, []);
      Replies(out, at, isJson) <==> a.Line? && a.left == [] && isJson(Strip(a.line)) && out(a.next).Elapsed?
  {
    var a := ReadLine(out, at, []);
    ReadLineMeaning(out, at, []);
    if a.Line? {
      SendsMeaning(out, at, a.next, Strip(a.line));
    }
    if end: nat, text: seq<Byte> :| Sends(out, at, end, text) && isJson(text) {
      SendsMeaning(out, at, end, text);
    }
  }

  /** The lines frame the answers, each within the line bound. */
  ghost predicate History(lines: seq<seq<Byte>>, answers: seq<seq<Byte>>) {
    && AllLines(lines) && |answers| == |lines|
    && forall k :: 0 <= k < |lines| ==> Frames(lines[k], answers[k]) && |lines[k]| <= MAX_LINE_BYTES
  }

  lemma HistoryGrows(lines: seq<seq<Byte>>, answers: seq<seq<Byte>>, line: seq<Byte>)
    requires History(lines, answers) && IsLine(line) && |line| <= MAX_LINE_BYTES
    ensures History(lines + [line], answers + [Strip(line)])
  {
    StripUnframes(line, Strip(line));
  }

  class ExecutableAgent {
    const out: Output
    const isJson: seq<Byte> -> bool
    var at: nat
    var pending: seq<Byte>
    var stdinOpen: bool
    var closed: bool
    /** The lines answered so far, newline included. */
    ghost var lines: seq<seq<Byte>>
    ghost var answers: seq<seq<Byte>>

    ghost predicate Valid()
      reads this
    {
      && OutputOk(out)
      && (closed ==> !stdinOpen)
      && |pending| < MAX_LINE_BYTES + READ_CHUNK_BYTES
      && History(lines, answers)
      && Concat(lines) <= Received(out, 0, at)
      && (stdinOpen ==> pending == [] && Concat(lines) == Received(out, 0, at))
    }

    constructor (out: Output, isJson: seq<Byte> -> bool)
      requires OutputOk(out)
      ensures Valid() && stdinOpen && !closed && answers == [] && at == 0
      ensures this.out == out && this.isJson == isJson
    {
      this.out, this.isJson := out, isJson;
      at, pending, stdinOpen, closed, lines, answers := 0, [], true, false, [], [];
    }

    method ReadAnswerLine() returns (line: Option<seq<Byte>>)
      requires OutputOk(out) && pending == []
      modifies this`at, this`pending
      ensures var a := ReadLine(out, old(at), []);
              && at == a.next && pending == a.left
              && line == if a.Line? then Some(a.line) else None
    {
      ghost var target := ReadLine(out, at, pending);
      while true
        invariant target == ReadLine(out, at, pending)
        decreases if |pending| < MAX_LINE_BYTES then MAX_LINE_BYTES - |pending| else 0
      {
        var newline := Find(pending, 0);
        if newline < |pending| {
          var text := pending[..newline + 1];
          pending := pending[newline + 1..];
          if |text| > MAX_LINE_BYTES {
            return None;
          }
          return Some(text);
        }
        if |pending| >= MAX_LINE_BYTES {
          return None;
        }
        var read := out(at);
        at := at + 1;
        if !read.Data? {
          return None;
        }
        pending := pending + read.bytes;
      }
    }

    /** Output already there, or arriving within the grace time, is an error. */
    method RejectExtraOutput() returns (ok: bool)
      requires OutputOk(out)
      modifies this`at, this`pending
      ensures ok <==> old(pending) == [] && out(old(at)).Elapsed?
      ensures at == if old(pending) == [] then old(at) + 1 else old(at)
      ensures ok ==> pending == []
      ensures |pending| <= (if old(pending) == [] then READ_CHUNK_BYTES else |old(pending)|)
    {
      if pending != [] {
        return false;
      }
      var read := out(at);
      at := at + 1;
      if read.Data? {
        pending := read.bytes;
      }
      return read.Elapsed?;
    }

    method Terminate(cleanup: bool)
      modifies this`stdinOpen, this`closed
      ensures !old(closed) ==> !stdinOpen && closed == cleanup
      ensures old(closed) ==> closed && stdinOpen == old(stdinOpen)
    {
      if closed {
        return;
      }
      stdinOpen := false;
      closed := cleanup;
    }

    /** Send one callout and wait for its one answer. */
    method Answer(c: Callout) returns (r: Option<seq<Byte>>)
      requires Valid()
      modifies this
      ensures Valid()
      ensures r.Some? <==> old(stdinOpen) && Answers(out, old(at), c, isJson)
      ensures r.Some? ==> answers == old(answers) + [r.value] && stdinOpen
      ensures r.Some? ==> isJson(r.value) && Sent(out, old(at) + 1, r.value)
      ensures r.None? ==> answers == old(answers)
      ensures r.None? ==> (stdinOpen <==> old(stdinOpen) && out(old(at)).Elapsed? && c.encoded.None?)
      ensures r.None? && stdinOpen ==> at == old(at) + 1
    {
      if closed {
        return None;
      }
      ghost var start := at;
      var ok := RejectExtraOutput();
      ReceivedGrows(out, start, at);
      if !ok {
        Terminate(c.cleanup);
        return None;
      }
      assert Received(out, 0, at) == Received(out, 0, start);
      if c.encoded.None? {
        return None;
      }
      if c.encoded.value + 1 > MAX_LINE_BYTES || !stdinOpen || !c.written {
        Terminate(c.cleanup);
        return None;
      }
      r := Exchange(c);
    }

    /** Wait for one JSON line and then for silence. */
    method TakeReply() returns (line: Option<seq<Byte>>)
      requires OutputOk(out) && pending == [] && Concat(lines) == Received(out, 0, at)
      modifies this`at, this`pending
      ensures line.Some? <==> Replies(out, old(at), isJson)
      ensures line.Some? ==> IsLine(line.value) && |line.value| <= MAX_LINE_BYTES && pending == []
      ensures line.Some? ==> isJson(Strip(line.value)) && Sent(out, old(at), Strip(line.value))
      ensures line.Some? ==> Concat(lines + [line.value]) == Received(out, 0, at)
      ensures |pending| < MAX_LINE_BYTES + READ_CHUNK_BYTES
      ensures Received(out, 0, old(at)) <= Received(out, 0, at)
    {
      ghost var start := at;
      LineExtends(out, at, lines);
      RepliesMeaning(out, at, isJson);
      line := ReadAnswerLine();
      ghost var read := at;
      ReceivedGrows(out, start, read);
      if line.None? || !isJson(Strip(line.value)) {
        return None;
      }
      var ok := RejectExtraOutput();
      ReceivedGrows(out, read, at);
      ReceivedGrows(out, start, at);
      if !ok {
        return None;
      }
      SendsMeaning(out, start, read, Strip(line.value));
    }

    /** The part of a callout after its line was written. */
    method Exchange(c: Callout) returns (r: Option<seq<Byte>>)
      requires Valid() && stdinOpen
      modifies this
      ensures Valid()
      ensures r.Some? <==> Replies(out, old(at), isJson) && c.inTime && c.running
      ensures r.Some? ==> isJson(r.value) && Sent(out, old(at), r.value)
      ensures r.Some? ==> answers == old(answers) + [r.value] && stdinOpen
      ensures r.None? ==> answers == old(answers) && !stdinOpen
    {
      var line := TakeReply();
      if line.None? || !c.inTime || !c.running {
        Terminate(c.cleanup);
        return None;
      }
      HistoryGrows(lines, answers, line.value);
      lines := lines + [line.value];
      answers := answers + [Strip(line.value)];
      return Some(Strip(line.value));
    }
  }

  /** An answer line read after the lines so far continues the output. */
  lemma LineExtends(out: Output, at: nat, lines: seq<seq<Byte>>)
    requires OutputOk(out) && Concat(lines) == Received(out, 0, at)
    ensures var a := ReadLine(out, at, []);
            && at <= a.next && |a.left| < MAX_LINE_BYTES + READ_CHUNK_BYTES
            && (a.Line? ==> IsLine(a.line) && |a.line| <= MAX_LINE_BYTES)
            && (a.Line? && a.left == [] ==> Concat(lines + [a.line]) == Received(out, 0, a.next))
  {
    var a := ReadLine(out, at, []);
    ReadLineMeaning(out, at, []);
    if a.Line? && a.left == [] {
      assert (lines + [a.line])[..|lines|] == lines;
      ReceivedSplit(out, 0, at, a.next);
      assert [] + Received(out, at, a.next) == Received(out, at, a.next) && a.line + [] == a.line;
    }
  }

  lemma ReceivedGrows(out: Output, from: nat, end: nat)
    requires from <= end
    ensures Received(out, 0, from) <= Received(out, 0, end)
    ensures end == from + 1 && !out(from).Data? ==> Received(out, 0, end) == Received(out, 0, from)
  {
    ReceivedSplit(out, 0, from, end);
    if end == from + 1 {
      assert Received(out, from, end) == Received(out, from, from) + (if out(from).Data? then out(from).bytes else []);
    }
  }

  /** Over every run of callouts, whatever the reads: the k-th success is the
      k-th line of the output without its newline and one carriage return, at
      most 64 KiB with the newline; and no callout succeeds after one failed,
      unless that one failed to encode. So where every callout encodes, a
      failure is for good. */
  method AnswerAll(agent: ExecutableAgent, calls: seq<Callout>) returns (results: seq<Option<seq<Byte>>>)
    requires agent.Valid() && agent.answers == []
    modifies agent
    ensures |results| == |calls|
    ensures Successes(results) == agent.answers
    ensures AnswersAreLines(agent.answers, LinesOf(Received(agent.out, 0, agent.at)))
    ensures agent.stdinOpen ==> Concat(agent.lines) == Received(agent.out, 0, agent.at) && agent.pending == []
    ensures |agent.pending| < MAX_LINE_BYTES + READ_CHUNK_BYTES
    ensures forall i, j :: 0 <= i < j < |calls| && FailsFor(results, calls, i) ==> results[j].None?
    ensures AllEncode(calls) ==> forall i, j :: 0 <= i < j < |calls| && results[i].None? ==> results[j].None?
  {
    results := [];
    for n := 0 to |calls|
      invariant agent.Valid() && |results| == n
      invariant Successes(results) == agent.answers
      invariant AnyFailure(results, calls[..n]) ==> !agent.stdinOpen
      invariant Silenced(results, calls[..n])
    {
      var r := agent.Answer(calls[n]);
      assert (results + [r])[..|results|] == results && calls[..n + 1][..n] == calls[..n];
      results := results + [r];
    }
    assert calls[..|calls|] == calls;
    SilencedMeans(results, calls);
    SilencedForGood(results, calls);
    HistoryMeans(agent.lines, agent.answers, Received(agent.out, 0, agent.at));
  }

  /** Every callout is encoded, as text and JSON values always are. */
  ghost predicate AllEncode(calls: seq<Callout>) {
    forall i :: 0 <= i < |calls| ==> calls[i].encoded.Some?
  }

  /** Callout `i` failed, and not for want of an encoding. */
  predicate FailsFor(results: seq<Option<seq<Byte>>>, calls: seq<Callout>, i: nat) {
    i < |results| && i < |calls| && results[i].None? && calls[i].encoded.Some?
  }

  predicate AnyFailure(results: seq<Option<seq<Byte>>>, calls: seq<Callout>)
    requires |results| == |calls|
  {
    results != [] && (AnyFailure(results[..|results| - 1], calls[..|calls| - 1])
                      || (results[|results| - 1].None? && calls[|calls| - 1].encoded.Some?))
  }

  /** After a failure nothing succeeds. */
  predicate Silenced(results: seq<Option<seq<Byte>>>, calls: seq<Callout>)
    requires |results| == |calls|
  {
    results != [] ==>
      && Silenced(results[..|results| - 1], calls[..|calls| - 1])
      && (AnyFailure(results[..|results| - 1], calls[..|calls| - 1]) ==> results[|results| - 1].None?)
  }

  lemma {:induction false} AnyFailureMeans(results: seq<Option<seq<Byte>>>, calls: seq<Callout>, i: nat)
    requires |results| == |calls| && FailsFor(results, calls, i)
    ensures AnyFailure(results, calls)
  {
    if i < |results| - 1 {
      AnyFailureMeans(results[..|results| - 1], calls[..|calls| - 1], i);
    }
  }

  lemma {:induction false} SilencedMeans(results: seq<Option<seq<Byte>>>, calls: seq<Callout>)
    requires |results| == |calls| && Silenced(results, calls)
    ensures forall i, j :: 0 <= i < j < |calls| && FailsFor(results, calls, i) ==> results[j].None?
  {
    if results != [] {
      var front, before := results[..|results| - 1], calls[..|calls| - 1];
      SilencedMeans(front, before);
      forall i, j | 0 <= i < j < |calls| && FailsFor(results, calls, i) ensures results[j].None? {
        assert FailsFor(front, before, i);
        AnyFailureMeans(front, before, i);
        assert j < |front| ==> front[j] == results[j];
      }
    }
  }

  lemma SilencedForGood(results: seq<Option<seq<Byte>>>, calls: seq<Callout>)
    requires |results| == |calls|
    requires forall i, j :: 0 <= i < j < |calls| && FailsFor(results, calls, i) ==> results[j].None?
    ensures AllEncode(calls) ==> forall i, j :: 0 <= i < j < |calls| && results[i].None? ==> results[j].None?
  {
    forall i, j | AllEncode(calls) && 0 <= i < j < |calls| && results[i].None? ensures results[j].None? {
      assert FailsFor(results, calls, i);
    }
  }

  /** The k-th answer is the k-th line without its newline and one carriage
      return, and the line is within the bound. */
  ghost predicate AnswersAreLines(answers: seq<seq<Byte>>, whole: seq<seq<Byte>>) {
    && |answers| <= |whole|
    && forall k :: 0 <= k < |answers| ==>
         Frames(whole[k], answers[k]) && IsLine(whole[k]) && |whole[k]| <= MAX_LINE_BYTES
  }

  lemma HistoryMeans(lines: seq<seq<Byte>>, answers: seq<seq<Byte>>, received: seq<Byte>)
    requires History(lines, answers) && Concat(lines) <= received
    ensures AnswersAreLines(answers, LinesOf(received))
  {
    AnsweredLines(lines, received);
    forall k | 0 <= k < |answers|
      ensures IsLine(lines[k]) && LinesOf(received)[k] == lines[k]
    {
    }
  }

  ghost function Successes(results: seq<Option<seq<Byte>>>): seq<seq<Byte>> {
    if results == [] then []
    else
      var front := Successes(results[..|results| - 1]);
      match results[|results| - 1]
      case None => front
      case Some(a) => front + [a]
  }

  /** A callout that could not be encoded closes nothing: the next one is
      answered as if it had not been tried. */
  method AnswerAfterEncodeFailure(agent: ExecutableAgent, bad: Callout, good: Callout)
    returns (a: Option<seq<Byte>>, b: Option<seq<Byte>>)
    requires agent.Valid() && agent.stdinOpen && agent.out(agent.at).Elapsed? && bad.encoded.None?
    modifies agent
    ensures a.None? && (b.Some? <==> Answers(agent.out, old(agent.at) + 1, good, agent.isJson))
  {
    a := agent.Answer(bad);
    b := agent.Answer(good);
  }

  /** Silent twice, one answer, and silent again. */
  function OneAnswer(i: nat): Read {
    if i == 2 then Data([0x31, NEWLINE]) else Elapsed
  }

  /** An agent for which the next callout is indeed answered. */
  lemma OneAnswerIsGiven(isJson: seq<Byte> -> bool)
    requires isJson([0x31])
    ensures OutputOk(OneAnswer) && OneAnswer(0).Elapsed?
    ensures Answers(OneAnswer, 1, Callout(Some(10), true, true, true, true), isJson)
  {
    FindIs([], 0);
    FindIs([0x31, NEWLINE], 1);
    assert ReadLine(OneAnswer, 3, [0x31, NEWLINE]) == Line([0x31, NEWLINE], 3, []);
    assert [] + [0x31, NEWLINE] == [0x31, NEWLINE];
    assert ReadLine(OneAnswer, 2, []) == Line([0x31, NEWLINE], 3, []);
    assert Strip([0x31, NEWLINE]) == [0x31];
    RepliesMeaning(OneAnswer, 2, isJson);
  }

  lemma AnsweredLines(lines: seq<seq<Byte>>, received: seq<Byte>)
    requires AllLines(lines) && Concat(lines) <= received
    ensures lines <= LinesOf(received)
  {
    var rest := received[|Concat(lines)|..];
    assert received == Concat(lines) + rest;
    LinesOfConcat(lines, rest);
  }
}
