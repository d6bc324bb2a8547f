/** Shell quoting of values that cross into POSIX shell text, read back by the
    shell's own tokenizer. */
module ShellQuote {
  import opened Options

  // ---------------------------------------------------------------- quoting

  /** Every single quote becomes `'\''`. */
  function Escaped(value: string): string {
    if value == "" then ""
    else (if value[0] == '\'' then "'\\''" else [value[0]]) + Escaped(value[1..])
  }

  function Quote(value: string): string {
    "'" + Escaped(value) + "'"
  }

  // -------------------------------------------------------------- tokenizing

  /** How a character reached its word: unquoted, literal (single quotes or a
      backslash), or inside double quotes, where `$` still expands. */
  datatype Style = Bare | Literal | Double

  datatype Ch = Ch(c: char, style: Style)

  datatype Token = Word(text: seq<Ch>) | Operator(symbol: string)

  datatype Mode = Unquoted | SingleQuoted | DoubleQuoted

  function Styled(text: string, style: Style): (s: seq<Ch>)
    ensures |s| == |text|
  {
    seq(|text|, i requires 0 <= i < |text| => Ch(text[i], style))
  }

  function Flush(word: Option<seq<Ch>>): seq<Token> {
    match word
    case None => []
    case Some(text) => [Word(text)]
  }

  function Push(word: Option<seq<Ch>>, text: seq<Ch>): Option<seq<Ch>> {
    match word
    case None => Some(text)
    case Some(before) => Some(before + text)
  }

  function Prepend(tokens: seq<Token>, rest: Option<seq<Token>>): Option<seq<Token>> {
    match rest
    case None => None
    case Some(more) => Some(tokens + more)
  }

  predicate IsBlank(c: char) {
    c == ' ' || c == '\t'
  }

  predicate IsOperatorChar(c: char) {
    c == ';' || c == '&' || c == '|' || c == '<' || c == '>' || c == '(' || c == ')' || c == '\n'
  }

  /** The operator at the front of `s`, as long as possible. */
  function OperatorLength(s: string): (n: nat)
    requires s != "" && IsOperatorChar(s[0])
    ensures 1 <= n <= |s|
  {
    if |s| >= 2 && s[..2] in {"&&", "||", ";;", "<<", ">>", "<&", ">&", "<>", ">|"} then 2 else 1
  }

  /** Token recognition and quote removal in the POSIX shell (sections 2.2 and
      2.3 of the Shell Command Language). Text outside the fragment, such as a
      comment, a backquote or an open quotation, has no reading. */
  function Lex(s: string, mode: Mode, word: Option<seq<Ch>>): Option<seq<Token>>
    decreases |s|
  {
    match mode
    case SingleQuoted =>
      if s == "" then None
      else if s[0] == '\'' then Lex(s[1..], Unquoted, word)
      else Lex(s[1..], SingleQuoted, Push(word, [Ch(s[0], Literal)]))
    case DoubleQuoted =>
      if s == "" || s[0] == '`' then None
      else if s[0] == '"' then Lex(s[1..], Unquoted, word)
      else if s[0] == '\\' && |s| >= 2 && s[1] in {'$', '`', '"', '\\'} then
        Lex(s[2..], DoubleQuoted, Push(word, [Ch(s[1], Literal)]))
      else if s[0] == '\\' && |s| >= 2 && s[1] == '\n' then Lex(s[2..], DoubleQuoted, word)
      else Lex(s[1..], DoubleQuoted, Push(word, [Ch(s[0], Double)]))
    case Unquoted =>
      if s == "" then Some(Flush(word))
      else if s[0] == '\'' then Lex(s[1..], SingleQuoted, Push(word, []))
      else if s[0] == '"' then Lex(s[1..], DoubleQuoted, Push(word, []))
      else if s[0] == '\\' then
        (if |s| < 2 then None
         else if s[1] == '\n' then Lex(s[2..], Unquoted, word)
         else Lex(s[2..], Unquoted, Push(word, [Ch(s[1], Literal)])))
      else if IsBlank(s[0]) then Prepend(Flush(word), Lex(s[1..], Unquoted, None))
      else if IsOperatorChar(s[0]) then
        var n := OperatorLength(s);
        Prepend(Flush(word) + [Operator(s[..n])], Lex(s[n..], Unquoted, None))
      else if s[0] == '`' || (s[0] == '#' && word.None?) then None
      else Lex(s[1..], Unquoted, Push(word, [Ch(s[0], Bare)]))
  }

  function Tokens(s: string): Option<seq<Token>> {
    Lex(s, Unquoted, None)
  }

  // ------------------------------------------------------------- round trips

  lemma PushPush(word: Option<seq<Ch>>, a: seq<Ch>, b: seq<Ch>)
    ensures Push(Push(word, a), b) == Push(word, a + b)
  {
    if word.Some? {
      assert (word.value + a) + b == word.value + (a + b);
    }
  }

  lemma PushNothing(word: Option<seq<Ch>>)
    requires word.Some?
    ensures Push(word, []) == word
  {
    assert word.value + [] == word.value;
  }

  lemma StyledConcat(a: string, b: string, style: Style)
    ensures Styled(a + b, style) == Styled(a, style) + Styled(b, style)
  {
  }

  lemma {:induction false} InsideQuotes(value: string, rest: string, word: Option<seq<Ch>>)
    requires word.Some?
    ensures Lex(Escaped(value) + ("'" + rest), SingleQuoted, word)
         == Lex(rest, Unquoted, Push(word, Styled(value, Literal)))
    decreases |value|
  {
    if value == "" {
      assert Escaped(value) + ("'" + rest) == "'" + rest;
      assert ("'" + rest)[1..] == rest;
      assert Styled("", Literal) == [];
      PushNothing(word);
    } else {
      var head, tail := value[0], value[1..];
      var next := Push(word, [Ch(head, Literal)]);
      var after := Escaped(tail) + ("'" + rest);
      assert value == [head] + tail;
      StyledConcat([head], tail, Literal);
      assert Styled([head], Literal) == [Ch(head, Literal)];
      PushPush(word, [Ch(head, Literal)], Styled(tail, Literal));
      if head == '\'' {
        StepOverQuote(after, word);
        assert Escaped(value) + ("'" + rest) == "'\\''" + after;
      } else {
        assert Escaped(value) + ("'" + rest) == [head] + after;
        assert ([head] + after)[1..] == after;
      }
      InsideQuotes(tail, rest, next);
    }
  }

  /** Inside single quotes, `'\''` stands for one single quote. */
  lemma StepOverQuote(after: string, word: Option<seq<Ch>>)
    requires word.Some?
    ensures Lex("'\\''" + after, SingleQuoted, word) == Lex(after, SingleQuoted, Push(word, [Ch('\'', Literal)]))
  {
    var s := "'\\''" + after;
    var next := Push(word, [Ch('\'', Literal)]);
    assert s[1..] == "\\''" + after;
    assert Lex(s, SingleQuoted, word) == Lex(s[1..], Unquoted, word);
    assert s[1..][2..] == "'" + after;
    assert Lex(s[1..], Unquoted, word) == Lex("'" + after, Unquoted, next);
    assert ("'" + after)[1..] == after;
    PushNothing(next);
  }

  /** A quoted value adds exactly its own characters, all literal, to the word
      it stands in, whatever comes before and after. */
  lemma QuotedValueIsLiteral(value: string, rest: string, word: Option<seq<Ch>>)
    ensures Lex(Quote(value) + rest, Unquoted, word) == Lex(rest, Unquoted, Push(word, Styled(value, Literal)))
  {
    var s := Quote(value) + rest;
    assert s[1..] == Escaped(value) + ("'" + rest);
    InsideQuotes(value, rest, Push(word, []));
    PushPush(word, [], Styled(value, Literal));
    assert [] + Styled(value, Literal) == Styled(value, Literal);
  }

  /** For every string the shell reads the quoted form as the one word `value`. */
  lemma QuoteRoundTrip(value: string)
    ensures Tokens(Quote(value)) == Some([Word(Styled(value, Literal))])
  {
    assert Quote(value) + "" == Quote(value);
    QuotedValueIsLiteral(value, "", None);
  }

  lemma QuoteIsInjective(a: string, b: string)
    requires Quote(a) == Quote(b)
    ensures a == b
  {
    QuoteRoundTrip(a);
    QuoteRoundTrip(b);
    assert Styled(a, Literal) == Styled(b, Literal);
    forall i | 0 <= i < |a| ensures a[i] == b[i] {
      assert Styled(a, Literal)[i] == Ch(a[i], Literal) && Styled(b, Literal)[i] == Ch(b[i], Literal);
    }
  }

  // ------------------------------------------------------- the launch script

  /** Part of a script word: plain text, a quoted value, or double-quoted text. */
  datatype Part = Text(text: string) | Value(value: string) | InDouble(quoted: string)

  datatype Symbol = W(parts: seq<Part>) | O(symbol: string)

  /** One token of a script and whether a blank stands before it. */
  datatype Item = Item(blank: bool, symbol: Symbol)

  /** Characters that stand for themselves in a bare word and keep their place
      inside double quotes; `$` and `?` may expand later, they do not split. */
  predicate IsPlain(c: char) {
    || 'a' <= c <= 'z' || 'A' <= c <= 'Z' || '0' <= c <= '9'
    || c == '-' || c == '_' || c == '.' || c == '=' || c == '$' || c == '?'
  }

  predicate AllPlain(t: string) {
    forall i :: 0 <= i < |t| ==> IsPlain(t[i])
  }

  predicate PartOk(p: Part) {
    match p
    case Text(t) => t != "" && AllPlain(t)
    case Value(_) => true
    case InDouble(t) => AllPlain(t)
  }

  predicate SymbolOk(s: Symbol) {
    match s
    case W(parts) => parts != [] && forall i :: 0 <= i < |parts| ==> PartOk(parts[i])
    case O(o) => o in {";", "&&", "||", ">"}
  }

  /** Tokens that would run together are kept apart by a blank. */
  predicate ScriptOk(items: seq<Item>) {
    && (forall i :: 0 <= i < |items| ==> SymbolOk(items[i].symbol))
    && forall i, j :: 0 <= i && j == i + 1 < |items| && items[i].symbol.W? == items[j].symbol.W? ==> items[j].blank
  }

  function PartText(p: Part): string {
    match p
    case Text(t) => t
    case Value(v) => Quote(v)
    case InDouble(t) => "\"" + t + "\""
  }

  function PartsText(parts: seq<Part>): string {
    if parts == [] then "" else PartText(parts[0]) + PartsText(parts[1..])
  }

  function SymbolText(s: Symbol): string {
    match s
    case W(parts) => PartsText(parts)
    case O(o) => o
  }

  function ScriptText(items: seq<Item>): string {
    if items == [] then ""
    else
      var more := SymbolText(items[0].symbol) + ScriptText(items[1..]);
      if items[0].blank then " " + more else more
  }

  /** What a part means: a value stands for itself, character by character. */
  function PartMeaning(p: Part): seq<Ch> {
    match p
    case Text(t) => Styled(t, Bare)
    case Value(v) => Styled(v, Literal)
    case InDouble(t) => Styled(t, Double)
  }

  function PartsMeaning(parts: seq<Part>): seq<Ch> {
    if parts == [] then [] else PartMeaning(parts[0]) + PartsMeaning(parts[1..])
  }

  function Meaning(s: Symbol): Token {
    match s
    case W(parts) => Word(PartsMeaning(parts))
    case O(o) => Operator(o)
  }

  function ScriptMeaning(items: seq<Item>): seq<Token> {
    seq(|items|, i requires 0 <= i < |items| => Meaning(items[i].symbol))
  }

  lemma {:induction false} PlainText(t: string, rest: string, word: Option<seq<Ch>>)
    requires AllPlain(t)
    requires t != "" || word.Some?
    ensures Lex(t + rest, Unquoted, word) == Lex(rest, Unquoted, Push(word, Styled(t, Bare)))
    decreases |t|
  {
    if t == "" {
      assert t + rest == rest;
      PushNothing(word);
      assert Styled("", Bare) == [];
    } else {
      var next := Push(word, [Ch(t[0], Bare)]);
      assert (t + rest)[1..] == t[1..] + rest;
      PlainText(t[1..], rest, next);
      assert t == [t[0]] + t[1..];
      StyledConcat([t[0]], t[1..], Bare);
      assert Styled([t[0]], Bare) == [Ch(t[0], Bare)];
      PushPush(word, [Ch(t[0], Bare)], Styled(t[1..], Bare));
    }
  }

  lemma {:induction false} DoubleText(t: string, rest: string, word: Option<seq<Ch>>)
    requires AllPlain(t) && word.Some?
    ensures Lex(t + ("\"" + rest), DoubleQuoted, word) == Lex(rest, Unquoted, Push(word, Styled(t, Double)))
    decreases |t|
  {
    if t == "" {
      assert t + ("\"" + rest) == "\"" + rest;
      assert ("\"" + rest)[1..] == rest;
      PushNothing(word);
      assert Styled("", Double) == [];
    } else {
      var next := Push(word, [Ch(t[0], Double)]);
      assert (t + ("\"" + rest))[1..] == t[1..] + ("\"" + rest);
      DoubleText(t[1..], rest, next);
      assert t == [t[0]] + t[1..];
      StyledConcat([t[0]], t[1..], Double);
      assert Styled([t[0]], Double) == [Ch(t[0], Double)];
      PushPush(word, [Ch(t[0], Double)], Styled(t[1..], Double));
    }
  }

  lemma PartReads(p: Part, rest: string, word: Option<seq<Ch>>)
    requires PartOk(p)
    ensures Lex(PartText(p) + rest, Unquoted, word) == Lex(rest, Unquoted, Push(word, PartMeaning(p)))
  {
    match p
    case Text(t) =>
      PlainText(t, rest, word);
    case Value(v) => QuotedValueIsLiteral(v, rest, word);
    case InDouble(t) =>
      assert (PartText(p) + rest)[1..] == t + ("\"" + rest);
      DoubleText(t, rest, Push(word, []));
      PushPush(word, [], Styled(t, Double));
      assert [] + Styled(t, Double) == Styled(t, Double);
  }

  lemma {:induction false} PartsRead(parts: seq<Part>, rest: string, word: Option<seq<Ch>>)
    requires forall i :: 0 <= i < |parts| ==> PartOk(parts[i])
    requires parts != [] || word.Some?
    ensures Lex(PartsText(parts) + rest, Unquoted, word) == Lex(rest, Unquoted, Push(word, PartsMeaning(parts)))
    decreases |parts|
  {
    if parts == [] {
      assert PartsText(parts) + rest == rest;
      PushNothing(word);
    } else {
      var more := PartsText(parts[1..]) + rest;
      assert PartsText(parts) + rest == PartText(parts[0]) + more;
      PartReads(parts[0], more, word);
      PartsRead(parts[1..], rest, Push(word, PartMeaning(parts[0])));
      PushPush(word, PartMeaning(parts[0]), PartsMeaning(parts[1..]));
    }
  }

  /** The word read so far ends where `s` begins. */
  lemma WordEnds(s: string, word: Option<seq<Ch>>)
    requires s == "" || IsBlank(s[0]) || IsOperatorChar(s[0])
    ensures Lex(s, Unquoted, word) == Prepend(Flush(word), Lex(s, Unquoted, None))
  {
    if s != "" && IsOperatorChar(s[0]) {
      var n := OperatorLength(s);
      var rest := Lex(s[n..], Unquoted, None);
      assert Flush(None) == [];
      if rest.Some? {
        var op := [Operator(s[..n])];
        assert (Flush(word) + op) + rest.value == Flush(word) + (([] + op) + rest.value);
      }
    } else if s != "" {
      var rest := Lex(s[1..], Unquoted, None);
      if rest.Some? {
        assert [] + rest.value == rest.value;
      }
    } else {
      assert Flush(word) + [] == Flush(word);
    }
  }

  lemma BlankIsSkipped(s: string)
    ensures Lex(" " + s, Unquoted, None) == Lex(s, Unquoted, None)
  {
    assert (" " + s)[1..] == s;
    var rest := Lex(s, Unquoted, None);
    if rest.Some? {
      assert [] + rest.value == rest.value;
    }
  }

  lemma OperatorReads(o: string, rest: string)
    requires o in {";", "&&", "||", ">"}
    requires rest == "" || !IsOperatorChar(rest[0])
    ensures Lex(o + rest, Unquoted, None) == Prepend([Operator(o)], Lex(rest, Unquoted, None))
  {
    var s := o + rest;
    assert s[0] == o[0];
    assert OperatorLength(s) == |o| by {
      if |o| == 2 {
        assert s[..2] == o;
      } else if rest != "" {
        assert s[..2] == [o[0], rest[0]];
        assert s[..2][1] == rest[0];
      }
    }
    assert s[..|o|] == o && s[|o|..] == rest;
    assert Flush(None) + [Operator(o)] == [Operator(o)];
  }

  /** The first character of a script, if any, ends a word unless a word comes
      first without a blank. */
  lemma FirstOf(items: seq<Item>)
    requires ScriptOk(items) && items != []
    ensures ScriptText(items) != ""
    ensures items[0].blank ==> ScriptText(items)[0] == ' '
    ensures !items[0].blank && items[0].symbol.O? ==> IsOperatorChar(ScriptText(items)[0])
    ensures items[0].blank || items[0].symbol.W? ==> !IsOperatorChar(ScriptText(items)[0])
  {
    var first := items[0];
    assert SymbolOk(first.symbol);
    if first.symbol.W? {
    }
  }

  lemma TailOk(items: seq<Item>)
    requires ScriptOk(items) && items != []
    ensures ScriptOk(items[1..])
  {
    forall i, j | 0 <= i && j == i + 1 < |items[1..]| && items[1..][i].symbol.W? == items[1..][j].symbol.W?
      ensures items[1..][j].blank
    {
      assert items[1..][i] == items[i + 1] && items[1..][j] == items[j + 1];
    }
  }

  /** A script built from plain text, quoted values and operators reads back as
      exactly its tokens; the characters of the values play no part. */
  lemma {:induction false} ScriptReads(items: seq<Item>)
    requires ScriptOk(items)
    ensures Tokens(ScriptText(items)) == Some(ScriptMeaning(items))
    decreases |items|
  {
    if items == [] {
      assert Flush(None) == ScriptMeaning(items);
    } else {
      TailOk(items);
      ScriptReads(items[1..]);
      LeadingBlank(items);
      SymbolReads(items);
      MeaningStep(items);
    }
  }

  lemma MeaningStep(items: seq<Item>)
    requires items != []
    ensures ScriptMeaning(items) == [Meaning(items[0].symbol)] + ScriptMeaning(items[1..])
  {
  }

  lemma LeadingBlank(items: seq<Item>)
    requires items != []
    ensures Tokens(ScriptText(items)) == Tokens(SymbolText(items[0].symbol) + ScriptText(items[1..]))
  {
    BlankIsSkipped(SymbolText(items[0].symbol) + ScriptText(items[1..]));
  }

  lemma SymbolReads(items: seq<Item>)
    requires ScriptOk(items) && items != []
    ensures var rest := ScriptText(items[1..]);
            Tokens(SymbolText(items[0].symbol) + rest) == Prepend([Meaning(items[0].symbol)], Tokens(rest))
  {
    var first, rest := items[0].symbol, ScriptText(items[1..]);
    TailOk(items);
    if |items| > 1 {
      FirstOf(items[1..]);
      assert items[0].symbol.W? == items[1].symbol.W? ==> items[1].blank;
    }
    match first
    case W(parts) =>
      assert SymbolOk(first);
      PartsRead(parts, rest, None);
      WordEnds(rest, Some(PartsMeaning(parts)));
    case O(o) =>
      assert SymbolOk(first);
      OperatorReads(o, rest);
  }

  function Plain(text: string): Item {
    Item(true, W([Text(text)]))
  }

  function Expand(text: string): Item {
    Item(true, W([InDouble(text)]))
  }

  const SEMICOLON: Item := Item(false, O(";"))

  function SetupItems(home: string, cache: string, context: string): seq<Item> {
    [Item(false, W([Text("status=1")])), SEMICOLON,
     Plain("unset"), Plain("ARENA0_SOCKET"), Plain("ARENA0_HOST"), Plain("CODEX_THREAD_ID"), SEMICOLON,
     Plain("export"),
     Item(true, W([Text("ARENA0_HOME="), Value(home)])),
     Item(true, W([Text("ARENA0_CACHE_DIR="), Value(cache)])),
     Item(true, W([Text("ARENA0_CONTEXT="), Value(context)])), SEMICOLON]
  }

  function RunItems(workspace: string, prompt: string): seq<Item> {
    [Plain("cd"), Item(true, W([Value(workspace)])), Item(true, O("&&")),
     Plain("codex"), Plain("--ask-for-approval"), Plain("never"), Plain("--sandbox"), Plain("workspace-write"),
     Plain("-c"), Plain("sandbox_workspace_write.network_access=true"),
     Plain("--cd"), Item(true, W([Value(workspace)])), Plain("exec"), Plain("--skip-git-repo-check"),
     Plain("--color"), Plain("always"), Item(true, W([Value(prompt)])), SEMICOLON]
  }

  function PublishItems(marker: string): seq<Item> {
    [Plain("status=$?"), SEMICOLON,
     Item(true, W([Text("tmp="), Value(marker), Text(".tmp.$$")])), SEMICOLON,
     Plain("printf"), Item(true, W([Value("%s\\n")])), Expand("$status"), Item(true, O(">")), Expand("$tmp"), Item(true, O("&&")),
     Plain("mv"), Expand("$tmp"), Item(true, W([Value(marker)])), Item(true, O("||")),
     Plain("exit"), Plain("125"), SEMICOLON,
     Plain("exit"), Expand("$status")]
  }

  /** The session script, token by token. */
  function SessionScript(home: string, cache: string, context: string, workspace: string, prompt: string, marker: string): seq<Item> {
    SetupItems(home, cache, context) + RunItems(workspace, prompt) + PublishItems(marker)
  }

  /** `exec sh -c` and the script as one quoted word. */
  function LaunchCommand(script: string): seq<Item> {
    [Item(false, W([Text("exec")])), Plain("sh"), Plain("-c"), Item(true, W([Value(script)]))]
  }

  lemma SetupWords()
    ensures AllPlain("status=1") && AllPlain("unset") && AllPlain("export")
    ensures AllPlain("ARENA0_SOCKET") && AllPlain("ARENA0_HOST") && AllPlain("CODEX_THREAD_ID")
    ensures AllPlain("ARENA0_HOME=") && AllPlain("ARENA0_CACHE_DIR=") && AllPlain("ARENA0_CONTEXT=")
  {
  }

  lemma CodexWords()
    ensures AllPlain("cd") && AllPlain("codex") && AllPlain("--ask-for-approval") && AllPlain("never")
    ensures AllPlain("--sandbox") && AllPlain("workspace-write") && AllPlain("-c") && AllPlain("--cd")
  {
  }

  lemma NetworkWord()
    ensures AllPlain("sandbox_workspace_write.network_access=true")
  {
  }

  lemma ExecWords()
    ensures AllPlain("exec") && AllPlain("--skip-git-repo-check") && AllPlain("--color") && AllPlain("always") && AllPlain("sh")
  {
  }

  lemma PublishWords()
    ensures AllPlain("status=$?") && AllPlain("tmp=") && AllPlain(".tmp.$$") && AllPlain("printf")
    ensures AllPlain("$status") && AllPlain("$tmp") && AllPlain("mv") && AllPlain("exit") && AllPlain("125")
  {
  }

  lemma SetupOk(home: string, cache: string, context: string)
    ensures ScriptOk(SetupItems(home, cache, context))
  {
    SetupWords();
  }

  lemma RunOk(workspace: string, prompt: string)
    ensures ScriptOk(RunItems(workspace, prompt))
  {
    CodexWords();
    NetworkWord();
    ExecWords();
  }

  lemma PublishOk(marker: string)
    ensures ScriptOk(PublishItems(marker))
  {
    PublishWords();
  }

  lemma LaunchOk(script: string)
    ensures ScriptOk(LaunchCommand(script))
  {
    ExecWords();
    CodexWords();
  }

  lemma SessionOk(home: string, cache: string, context: string, workspace: string, prompt: string, marker: string)
    ensures ScriptOk(SessionScript(home, cache, context, workspace, prompt, marker))
  {
    SetupOk(home, cache, context);
    RunOk(workspace, prompt);
    PublishOk(marker);
  }

  /** The word made of one quoted value, or of a plain name and one. */
  ghost predicate IsWord(t: Token, name: string, value: string) {
    t == Word(Styled(name, Bare) + Styled(value, Literal))
  }

  lemma OneValue(value: string)
    ensures IsWord(Meaning(W([Value(value)])), "", value)
  {
    assert PartsMeaning([Value(value)]) == Styled(value, Literal) + PartsMeaning([]);
    assert Styled("", Bare) + Styled(value, Literal) == Styled(value, Literal) + [];
  }

  lemma NamedValue(name: string, value: string)
    ensures IsWord(Meaning(W([Text(name), Value(value)])), name, value)
  {
    assert [Text(name), Value(value)][1..] == [Value(value)];
    OneValue(value);
    assert PartsMeaning([Value(value)]) == Styled("", Bare) + Styled(value, Literal) == Styled(value, Literal);
  }

  /** The login shell hands the script to `sh` unchanged as one word, and `sh`
      reads each path, the context and the prompt back unchanged, each in the
      word where it was written. */
  lemma LaunchUnquotesInTwoPasses(home: string, cache: string, context: string, workspace: string, prompt: string, marker: string)
    ensures var script := ScriptText(SessionScript(home, cache, context, workspace, prompt, marker));
            var outer, inner := Tokens(ScriptText(LaunchCommand(script))), Tokens(script);
            && outer.Some? && |outer.value| == 4 && IsWord(outer.value[3], "", script)
            && inner.Some? && |inner.value| == 49
            && IsWord(inner.value[8], "ARENA0_HOME=", home)
            && IsWord(inner.value[9], "ARENA0_CACHE_DIR=", cache)
            && IsWord(inner.value[10], "ARENA0_CONTEXT=", context)
            && IsWord(inner.value[13], "", workspace) && IsWord(inner.value[23], "", workspace)
            && IsWord(inner.value[28], "", prompt)
            && IsWord(inner.value[42], "", marker)
  {
    var items := SessionScript(home, cache, context, workspace, prompt, marker);
    var script := ScriptText(items);
    SessionOk(home, cache, context, workspace, prompt, marker);
    ScriptReads(items);
    LaunchOk(script);
    ScriptReads(LaunchCommand(script));
    OneValue(script);
    SessionWords(home, cache, context, workspace, prompt, marker);
  }

  lemma SessionWords(home: string, cache: string, context: string, workspace: string, prompt: string, marker: string)
    ensures var words := ScriptMeaning(SessionScript(home, cache, context, workspace, prompt, marker));
            && |words| == 49
            && IsWord(words[8], "ARENA0_HOME=", home)
            && IsWord(words[9], "ARENA0_CACHE_DIR=", cache)
            && IsWord(words[10], "ARENA0_CONTEXT=", context)
            && IsWord(words[13], "", workspace) && IsWord(words[23], "", workspace)
            && IsWord(words[28], "", prompt)
            && IsWord(words[42], "", marker)
  {
    var items := SessionScript(home, cache, context, workspace, prompt, marker);
    assert items[13] == items[23] == RunItems(workspace, prompt)[1];
    assert items[28] == RunItems(workspace, prompt)[16];
    assert items[42] == PublishItems(marker)[12];
    NamedValue("ARENA0_HOME=", home);
    NamedValue("ARENA0_CACHE_DIR=", cache);
    NamedValue("ARENA0_CONTEXT=", context);
    OneValue(workspace);
    OneValue(prompt);
    OneValue(marker);
  }
}
