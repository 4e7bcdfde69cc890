/** What the lexer guarantees about every token stream it sends. */
module LexerProperties {
  import opened GoInts
  import opened Lexer

  // ---------------------------------------------------------------------
  // Plain text

  /** Text the lexer treats as plain message text: no braces, no `#`, and
      no apostrophe that is followed by another apostrophe (an apostrophe
      followed by a brace is ruled out with the braces). */
  predicate Plain(s: string) {
    forall i :: 0 <= i < |s| ==>
      s[i] != '{' && s[i] != '}' && s[i] != '#' && (s[i] == '\'' && i + 1 < |s| ==> s[i + 1] != '\'')
  }

  function PlainTokens(s: string): seq<Token> {
    (if |s| > 0 then [Token(Text, s)] else []) + [Token(EOF, "")]
  }

  lemma {:induction false} PlainRun(s: string, p: nat)
    requires Plain(s) && p <= |s|
    ensures Run(s, Lexer(Message, p, 0, 0), []) == Done(PlainTokens(s))
    decreases |s| - p
  {
    var l := Lexer(Message, p, 0, 0);
    if p == |s| {
      assert s[0..p] == s;
    } else {
      assert s[p] == '\'' && p + 1 < |s| ==> s[p + 1] != '\'';
      assert Step(s, l) == Next(l.(pos := p + 1), []);
      assert Run(s, l, []) == Run(s, l.(pos := p + 1), []) by {
        RunOnce(s, l, []);
        var none: seq<Token> := [];
        assert none + none == none;
      }
      PlainRun(s, p + 1);
    }
  }

  /** Plain text is one Text token followed by EOF (just EOF when empty):
      an apostrophe that does not open a quoted span stays in the text. */
  lemma PlainTextLexes(s: string)
    requires Plain(s)
    ensures Lex(s) == Done(PlainTokens(s))
  {
    PlainRun(s, 0);
  }

  // ---------------------------------------------------------------------
  // Only apostrophes are dropped

  function Concat(ts: seq<Token>): string {
    if |ts| == 0 then "" else ts[0].val + Concat(ts[1..])
  }

  /** `t` is `s` with some of its apostrophes deleted (perhaps none): every
      other rune of `s` is kept, in order, and nothing is added. */
  predicate DropsQuotes(t: string, s: string)
    decreases |s|
  {
    if |s| == 0 then |t| == 0
    else
      || (|t| > 0 && t[0] == s[0] && DropsQuotes(t[1..], s[1..]))
      || (s[0] == '\'' && DropsQuotes(t, s[1..]))
  }

  lemma {:induction false} DropsNothing(s: string)
    ensures DropsQuotes(s, s)
    decreases |s|
  {
    if |s| > 0 {
      DropsNothing(s[1..]);
    }
  }

  /** A common prefix may be put in front of both sides. */
  lemma {:induction false} DropsBehind(a: string, t: string, s: string)
    requires DropsQuotes(t, s)
    ensures DropsQuotes(a + t, a + s)
    decreases |a|
  {
    if |a| > 0 {
      assert (a + t)[1..] == a[1..] + t;
      assert (a + s)[1..] == a[1..] + s;
      DropsBehind(a[1..], t, s);
    } else {
      assert a + t == t && a + s == s;
    }
  }

  /** Deleting apostrophes twice is deleting apostrophes. */
  lemma {:induction false} DropsTrans(u: string, t: string, s: string)
    requires DropsQuotes(u, t) && DropsQuotes(t, s)
    ensures DropsQuotes(u, s)
    decreases |s|
  {
    if |s| > 0 {
      if |t| > 0 && t[0] == s[0] && DropsQuotes(t[1..], s[1..]) {
        if |u| > 0 && u[0] == t[0] && DropsQuotes(u[1..], t[1..]) {
          DropsTrans(u[1..], t[1..], s[1..]);
        } else {
          DropsTrans(u, t[1..], s[1..]);
        }
      } else {
        DropsTrans(u, t, s[1..]);
      }
    }
  }

  /** Without apostrophes there is nothing to delete. */
  lemma {:induction false} DropsFromQuoteless(t: string, s: string)
    requires DropsQuotes(t, s) && forall i :: 0 <= i < |s| ==> s[i] != '\''
    ensures t == s
    decreases |s|
  {
    if |s| > 0 {
      DropsFromQuoteless(t[1..], s[1..]);
      assert t == [t[0]] + t[1..] && s == [s[0]] + s[1..];
    }
  }

  lemma {:induction false} ConcatAppend(a: seq<Token>, b: seq<Token>)
    ensures Concat(a + b) == Concat(a) + Concat(b)
  {
    if |a| > 0 {
      assert (a + b)[1..] == a[1..] + b;
      ConcatAppend(a[1..], b);
    } else {
      assert a + b == b;
    }
  }

  lemma ConcatFlush(input: string, l: Lexer)
    requires l.start <= l.pos <= |input|
    ensures Concat(FlushText(input, l)) == input[l.start..l.pos]
  {
    if l.pos > l.start {
      assert Concat([Token(Text, input[l.start..l.pos])]) == input[l.start..l.pos] + Concat([]);
    }
  }

  lemma ConcatOne(t: Token)
    ensures Concat([t]) == t.val
  {
    assert Concat([t]) == t.val + Concat([]);
  }

  /** A step that emits the slice `input[l.start..e]` and moves `start` to `e`. */
  lemma EmitsSlice(input: string, l: Lexer, e: nat, out: seq<Token>, start': nat)
    requires l.start <= e <= |input| && start' == e
    requires Concat(out) == input[l.start..e]
    ensures Concat(out) + input[start'..] == input[l.start..]
    ensures DropsQuotes(Concat(out) + input[start'..], input[l.start..])
  {
    assert input[l.start..] == input[l.start..e] + input[e..];
    DropsNothing(input[l.start..]);
  }

  /** A step that emits the slice `input[l.start..k]` and moves `start` past
      the apostrophe at `k`. */
  lemma EmitsAndSkipsQuote(input: string, l: Lexer, k: nat, out: seq<Token>, start': nat)
    requires l.start <= k < |input| && input[k] == '\'' && start' == k + 1
    requires Concat(out) == input[l.start..k]
    ensures DropsQuotes(Concat(out) + input[start'..], input[l.start..])
  {
    var rest := input[k + 1..];
    assert input[l.start..] == input[l.start..k] + ("'" + rest);
    DropsNothing(rest);
    assert ("'" + rest)[1..] == rest;
    DropsBehind(input[l.start..k], rest, "'" + rest);
  }

  /** What a step does to the text not yet emitted: the emitted values plus
      the new pending text are the old pending text with at most one
      apostrophe deleted. */
  predicate KeepsText(input: string, l: Lexer, s: Move)
    requires l.start <= |input|
    requires s.Next? ==> s.lexer.start <= |input|
  {
    if s.Next? then DropsQuotes(Concat(s.out) + input[s.lexer.start..], input[l.start..])
    else DropsQuotes(Concat(s.out), input[l.start..])
  }

  lemma StepKeepsTextMessage(input: string, l: Lexer)
    requires Valid(input, l) && l.state == Message
    ensures KeepsText(input, l, Step(input, l))
  {
    var p, st := l.pos, l.start;
    var s := Step(input, l);
    ConcatFlush(input, l);
    if p == |input| {
      ConcatAppend(FlushText(input, l), [Token(EOF, "")]);
      ConcatOne(Token(EOF, ""));
      assert input[st..p] == input[st..];
      DropsNothing(input[st..]);
    } else if input[p] == '#' {
      ConcatAppend(FlushText(input, l), [Token(Hash, input[p..p + 1])]);
      ConcatOne(Token(Hash, input[p..p + 1]));
      assert input[st..p] + input[p..p + 1] == input[st..p + 1];
      EmitsSlice(input, l, p + 1, s.out, s.lexer.start);
    } else if input[p] == '\'' && p + 1 < |input| && input[p + 1] in {'{', '}', '\''} {
      EmitsAndSkipsQuote(input, l, p, s.out, s.lexer.start);
    } else if input[p] == '{' || input[p] == '}' {
      EmitsSlice(input, l, p, s.out, s.lexer.start);
    } else {
      assert s == Next(l.(pos := p + 1), []);
      assert Concat(s.out) + input[st..] == input[st..];
      DropsNothing(input[st..]);
    }
  }

  lemma StepKeepsTextQuote(input: string, l: Lexer)
    requires Valid(input, l) && l.state == Quote && l.pos < |input|
    ensures KeepsText(input, l, Step(input, l))
  {
    var p, st := l.pos, l.start;
    var s := Step(input, l);
    if input[p] == '\'' {
      ConcatOne(Token(QuotedText, input[st..p]));
      EmitsAndSkipsQuote(input, l, p, s.out, s.lexer.start);
    } else {
      assert s == Next(l.(pos := p + 1), []);
      assert Concat(s.out) + input[st..] == input[st..];
      DropsNothing(input[st..]);
    }
  }

  /** The action-mode states emit `input[start..e]` for some `e` and move
      `start` to `e`, or emit nothing and keep `start`. */
  lemma StepKeepsTextAction(input: string, l: Lexer)
    requires Valid(input, l) && l.state !in {Message, Quote}
    ensures KeepsText(input, l, Step(input, l))
  {
    var p, st := l.pos, l.start;
    var s := Step(input, l);
    assert s.Next?;
    if s.out == [] {
      assert s.lexer.start == st;
      assert Concat(s.out) + input[st..] == input[st..];
      DropsNothing(input[st..]);
    } else {
      assert |s.out| == 1;
      ConcatOne(s.out[0]);
      assert s.out == [s.out[0]];
      assert s.out[0].val == input[st..s.lexer.start];
      EmitsSlice(input, l, s.lexer.start, s.out, s.lexer.start);
    }
  }

  lemma StepKeepsText(input: string, l: Lexer)
    requires Valid(input, l) && !Spins(input, l)
    ensures KeepsText(input, l, Step(input, l))
  {
    if l.state == Message {
      StepKeepsTextMessage(input, l);
    } else if l.state == Quote {
      StepKeepsTextQuote(input, l);
    } else {
      StepKeepsTextAction(input, l);
    }
  }

  /** One turn of the run loop: a step that halts ends the run, and one
      that moves on continues it with the step's tokens appended. */
  lemma RunOnce(input: string, l: Lexer, acc: seq<Token>)
    requires Valid(input, l) && !Spins(input, l)
    ensures Step(input, l).Halt? ==> Run(input, l, acc) == Done(acc + Step(input, l).out)
    ensures Step(input, l).Next? ==> Run(input, l, acc) == Run(input, Step(input, l).lexer, acc + Step(input, l).out)
  {
  }

  /** The step a non-spinning lexer takes, with what the text proof needs
      to know about it. */
  lemma TextTurn(input: string, l: Lexer, acc: seq<Token>) returns (s: Move)
    requires Valid(input, l) && !Spins(input, l)
    ensures s.Next? ==> Valid(input, s.lexer)
    ensures s.Next? ==> s.lexer.pos > l.pos || (s.lexer.pos == l.pos && Rank(s.lexer.state) < Rank(l.state))
    ensures s.Halt? ==> Run(input, l, acc) == Done(acc + s.out)
    ensures s.Next? ==> Run(input, l, acc) == Run(input, s.lexer, acc + s.out)
    ensures KeepsText(input, l, s)
  {
    s := Step(input, l);
    StepProgress(input, l);
    StepKeepsText(input, l);
    RunOnce(input, l, acc);
  }

  /** The run's text invariant: what has been sent, followed by what is
      still to be sent, is the template with some apostrophes deleted. */
  predicate TextSoFar(input: string, l: Lexer, acc: seq<Token>)
    requires l.start <= |input|
  {
    DropsQuotes(Concat(acc) + input[l.start..], input)
  }

  /** What the run of a lexer keeping `TextSoFar` promises. */
  ghost predicate TextAtEnd(input: string, r: Lexed) {
    && (r.Done? ==> DropsQuotes(Concat(r.tokens), input))
    && (r.Stuck? ==> exists rest :: DropsQuotes(Concat(r.tokens) + rest, input))
  }

  lemma SpinKeepsText(input: string, l: Lexer, acc: seq<Token>)
    requires Valid(input, l) && Spins(input, l) && TextSoFar(input, l, acc)
    ensures TextAtEnd(input, Run(input, l, acc))
  {
    assert Run(input, l, acc) == Stuck(acc);
    assert DropsQuotes(Concat(acc) + input[l.start..], input);
  }

  lemma HaltKeepsText(input: string, l: Lexer, acc: seq<Token>, out: seq<Token>)
    requires l.start <= |input| && TextSoFar(input, l, acc)
    requires DropsQuotes(Concat(out), input[l.start..])
    ensures TextAtEnd(input, Done(acc + out))
  {
    var a := Concat(acc);
    ConcatAppend(acc, out);
    DropsBehind(a, Concat(out), input[l.start..]);
    DropsTrans(a + Concat(out), a + input[l.start..], input);
  }

  lemma NextKeepsText(input: string, l: Lexer, acc: seq<Token>, l': Lexer, out: seq<Token>)
    requires l.start <= |input| && l'.start <= |input| && TextSoFar(input, l, acc)
    requires DropsQuotes(Concat(out) + input[l'.start..], input[l.start..])
    ensures TextSoFar(input, l', acc + out)
  {
    var a, o, rest := Concat(acc), Concat(out), input[l'.start..];
    ConcatAppend(acc, out);
    assert (a + o) + rest == a + (o + rest);
    DropsBehind(a, o + rest, input[l.start..]);
    DropsTrans(a + (o + rest), a + input[l.start..], input);
  }

  lemma {:induction false} RunKeepsText(input: string, l: Lexer, acc: seq<Token>)
    requires Valid(input, l) && TextSoFar(input, l, acc)
    ensures TextAtEnd(input, Run(input, l, acc))
    decreases |input| - l.pos, Rank(l.state)
  {
    if Spins(input, l) {
      SpinKeepsText(input, l, acc);
    } else {
      var s := TextTurn(input, l, acc);
      if s.Halt? {
        HaltKeepsText(input, l, acc, s.out);
      } else {
        NextKeepsText(input, l, acc, s.lexer, s.out);
        RunKeepsText(input, s.lexer, acc + s.out);
      }
    }
  }

  /** The token values spell out the template minus some apostrophes: every
      other rune appears, in order. A stuck lexer has sent a prefix of it. */
  lemma LexDropsOnlyQuotes(input: string)
    ensures Lex(input).Done? ==> DropsQuotes(Concat(Lex(input).tokens), input)
    ensures Lex(input).Stuck? ==> exists rest :: DropsQuotes(Concat(Lex(input).tokens) + rest, input)
  {
    assert Concat([]) + input[0..] == input;
    DropsNothing(input);
    RunKeepsText(input, Lexer(Message, 0, 0, 0), []);
  }

  /** A template without apostrophes is spelled out exactly by the values
      of the tokens the lexer sends. */
  lemma LexKeepsQuotelessText(input: string)
    requires forall i :: 0 <= i < |input| ==> input[i] != '\''
    ensures Lex(input).Done? ==> Concat(Lex(input).tokens) == input
  {
    LexDropsOnlyQuotes(input);
    if Lex(input).Done? {
      DropsFromQuoteless(Concat(Lex(input).tokens), input);
    }
  }

  // ---------------------------------------------------------------------
  // Brace depth and lexical mode

  function Delta(t: Token): int {
    match t.kind
    case StartAction | StartMessage => 1
    case EndAction | EndMessage => -1
    case _ => 0
  }

  /** Net brace depth after a token sequence: opening minus closing tokens. */
  function Net(ts: seq<Token>): int {
    if |ts| == 0 then 0 else Delta(ts[0]) + Net(ts[1..])
  }

  /** A token is consistent with depth `d` before it: a brace token's kind
      is the one the parity of the new depth selects, message tokens occur
      at even depth and action tokens at odd depth. */
  predicate Agrees(t: Token, d: int) {
    match t.kind
    case StartAction => Odd(d + 1)
    case StartMessage => !Odd(d + 1)
    case EndMessage => Odd(d - 1)
    case EndAction => !Odd(d - 1)
    case Text | QuotedText | Hash | EOF => !Odd(d)
    case Identifier | Space | Delim => Odd(d)
    case Error => false
  }

  /** Walking `ts` from depth `d`, every token agrees with the running depth. */
  predicate ConsistentFrom(ts: seq<Token>, d: int) {
    |ts| == 0 || (Agrees(ts[0], d) && ConsistentFrom(ts[1..], d + Delta(ts[0])))
  }

  /** The mode of each state agrees with the parity of the depth. */
  predicate ModeAgrees(l: Lexer) {
    && (l.state in {Message, Quote} ==> !Odd(l.depth))
    && (l.state in {Action, Spaces, Ident, Comma} ==> Odd(l.depth))
  }

  lemma {:induction false} ConsistentAppend(a: seq<Token>, b: seq<Token>, d: int)
    requires ConsistentFrom(a, d) && ConsistentFrom(b, d + Net(a))
    ensures ConsistentFrom(a + b, d) && Net(a + b) == Net(a) + Net(b)
  {
    if |a| == 0 {
      assert a + b == b;
    } else {
      assert (a + b)[1..] == a[1..] + b;
      ConsistentAppend(a[1..], b, d + Delta(a[0]));
    }
  }

  lemma ConsistentSingle(t: Token, d: int)
    requires Agrees(t, d)
    ensures ConsistentFrom([t], d) && Net([t]) == Delta(t)
  {
    assert [t][1..] == [];
  }

  lemma ConsistentPair(t: Token, u: Token, d: int)
    requires Agrees(t, d) && Agrees(u, d) && Delta(t) == 0 && Delta(u) == 0
    ensures ConsistentFrom([t, u], d) && Net([t, u]) == 0
  {
    assert [t, u][1..] == [u];
    ConsistentSingle(u, d);
  }

  lemma StepKeepsDepth(input: string, l: Lexer)
    requires Valid(input, l) && ModeAgrees(l)
    ensures Step(input, l).Halt? ==> ConsistentFrom(Step(input, l).out, l.depth)
    ensures Step(input, l).Next? ==>
      && ConsistentFrom(Step(input, l).out, l.depth)
      && Step(input, l).lexer.depth == l.depth + Net(Step(input, l).out)
      && ModeAgrees(Step(input, l).lexer)
  {
    if l.state == Message {
      StepKeepsDepthMessage(input, l);
    } else if l.state in {LeftDelim, RightDelim} {
      StepKeepsDepthDelim(input, l);
    } else {
      StepKeepsDepthAction(input, l);
    }
  }

  lemma StepKeepsDepthMessage(input: string, l: Lexer)
    requires Valid(input, l) && ModeAgrees(l) && l.state == Message
    ensures Step(input, l).Halt? ==> ConsistentFrom(Step(input, l).out, l.depth)
    ensures Step(input, l).Next? ==>
      && ConsistentFrom(Step(input, l).out, l.depth)
      && Step(input, l).lexer.depth == l.depth + Net(Step(input, l).out)
      && ModeAgrees(Step(input, l).lexer)
  {
    var p, d := l.pos, l.depth;
    var flush := FlushText(input, l);
    assert ConsistentFrom([], d) && Net([]) == 0;
    if p == |input| {
      if |flush| == 1 {
        ConsistentPair(flush[0], Token(EOF, ""), d);
        assert flush + [Token(EOF, "")] == [flush[0], Token(EOF, "")];
      } else {
        ConsistentSingle(Token(EOF, ""), d);
      }
    } else if input[p] == '#' {
      var h := Token(Hash, input[p..p + 1]);
      if |flush| == 1 {
        ConsistentPair(flush[0], h, d);
        assert flush + [h] == [flush[0], h];
      } else {
        ConsistentSingle(h, d);
      }
    } else if |flush| == 1 {
      ConsistentSingle(flush[0], d);
    }
  }

  lemma StepKeepsDepthDelim(input: string, l: Lexer)
    requires Valid(input, l) && ModeAgrees(l) && l.state in {LeftDelim, RightDelim}
    ensures Step(input, l).Halt? ==> ConsistentFrom(Step(input, l).out, l.depth)
    ensures Step(input, l).Next? ==>
      && ConsistentFrom(Step(input, l).out, l.depth)
      && Step(input, l).lexer.depth == l.depth + Net(Step(input, l).out)
      && ModeAgrees(Step(input, l).lexer)
  {
    var p, st, d := l.pos, l.start, l.depth;
    if l.state == LeftDelim {
      if Odd(d + 1) {
        ConsistentSingle(Token(StartAction, input[st..p + 1]), d);
      } else {
        ConsistentSingle(Token(StartMessage, input[st..p + 1]), d);
      }
    } else {
      if Odd(d - 1) {
        ConsistentSingle(Token(EndMessage, input[st..p + 1]), d);
      } else {
        ConsistentSingle(Token(EndAction, input[st..p + 1]), d);
      }
    }
  }

  lemma StepKeepsDepthAction(input: string, l: Lexer)
    requires Valid(input, l) && ModeAgrees(l) && l.state in {Quote, Comma, Action, Spaces, Ident}
    ensures Step(input, l).Halt? ==> ConsistentFrom(Step(input, l).out, l.depth)
    ensures Step(input, l).Next? ==>
      && ConsistentFrom(Step(input, l).out, l.depth)
      && Step(input, l).lexer.depth == l.depth + Net(Step(input, l).out)
      && ModeAgrees(Step(input, l).lexer)
  {
    var p, st, d := l.pos, l.start, l.depth;
    assert ConsistentFrom([], d) && Net([]) == 0;
    match l.state
    case Quote =>
      if p < |input| && input[p] == '\'' {
        ConsistentSingle(Token(QuotedText, input[st..p]), d);
      }
    case Comma =>
      ConsistentSingle(Token(Delim, input[st..p + 1]), d);
    case Action =>
    case Spaces =>
      var q := SkipSpaces(input, p);
      ConsistentSingle(Token(Space, input[st..q]), d);
    case Ident =>
      if !(p < |input| && IsAlphaNumeric(input[p])) {
        ConsistentSingle(Token(Identifier, input[st..p]), d);
      }
  }

  lemma {:induction false} RunKeepsDepth(input: string, l: Lexer, acc: seq<Token>)
    requires Valid(input, l) && ModeAgrees(l)
    requires ConsistentFrom(acc, 0) && l.depth == Net(acc)
    ensures ConsistentFrom(Run(input, l, acc).tokens, 0)
    decreases |input| - l.pos, Rank(l.state)
  {
    if !Spins(input, l) {
      StepProgress(input, l);
      StepKeepsDepth(input, l);
      match Step(input, l)
      case Halt(out) =>
        ConsistentAppend(acc, out, 0);
      case Next(l', out) =>
        ConsistentAppend(acc, out, 0);
        RunKeepsDepth(input, l', acc + out);
    }
  }

  /** Every token the lexer sends agrees with the running brace depth (the
      net number of opening minus closing brace tokens before it): `{` is
      StartAction exactly when the new depth is odd by Go's truncating `%`,
      `}` is EndMessage exactly when the new depth is odd; Text, QuotedText,
      Hash and EOF occur only at even depth, Identifier, Space and Delimiter
      only at odd depth. A negative depth, after a stray `}`, is even. */
  lemma LexDepthParity(input: string)
    ensures ConsistentFrom(Lex(input).tokens, 0)
  {
    assert Rem(0, 2) == 0;
    RunKeepsDepth(input, Lexer(Message, 0, 0, 0), []);
  }

  // ---------------------------------------------------------------------
  // EOF comes last

  predicate NoEof(ts: seq<Token>) {
    forall i :: 0 <= i < |ts| ==> ts[i].kind != EOF
  }

  lemma {:induction false} RunEndsWithEof(input: string, l: Lexer, acc: seq<Token>)
    requires Valid(input, l) && NoEof(acc)
    ensures Run(input, l, acc).Stuck? ==> NoEof(Run(input, l, acc).tokens)
    ensures Run(input, l, acc).Done? ==>
      var ts := Run(input, l, acc).tokens;
      |ts| > 0 && ts[|ts| - 1] == Token(EOF, "") && NoEof(ts[..|ts| - 1])
    decreases |input| - l.pos, Rank(l.state)
  {
    if !Spins(input, l) {
      StepProgress(input, l);
      match Step(input, l)
      case Halt(out) =>
        var ts := acc + out;
        assert ts[..|ts| - 1] == acc + FlushText(input, l);
      case Next(l', out) =>
        RunEndsWithEof(input, l', acc + out);
    }
  }

  /** A lexer that finishes sends exactly one EOF, as its last token, with an
      empty value; a stuck lexer sends none. */
  lemma LexEndsWithEof(input: string)
    ensures Lex(input).Stuck? ==> NoEof(Lex(input).tokens)
    ensures Lex(input).Done? ==>
      var ts := Lex(input).tokens;
      |ts| > 0 && ts[|ts| - 1] == Token(EOF, "") && NoEof(ts[..|ts| - 1])
  {
    RunEndsWithEof(input, Lexer(Message, 0, 0, 0), []);
  }

  // ---------------------------------------------------------------------
  // Quoted spans

  /** Inside a quoted span the lexer reads up to the next apostrophe and
      sends the runes strictly between as QuotedText. An apostrophe right
      after the closing one reopens quoting and is kept as the first rune of
      the next QuotedText, so `''` inside a span stands for one `'`. */
  lemma {:induction false} QuotedSpan(input: string, k: nat, p: nat, q: nat, d: int, acc: seq<Token>)
    requires p <= k <= q < |input| && input[q] == '\''
    requires forall j :: k <= j < q ==> input[j] != '\''
    ensures Run(input, Lexer(Quote, k, p, d), acc) ==
      if q + 1 < |input| && input[q + 1] == '\'' then
        Run(input, Lexer(Quote, q + 2, q + 1, d), acc + [Token(QuotedText, input[p..q])])
      else
        Run(input, Lexer(Message, q + 1, q + 1, d), acc + [Token(QuotedText, input[p..q])])
    decreases q - k
  {
    var l := Lexer(Quote, k, p, d);
    StepProgress(input, l);
    if k < q {
      assert Step(input, l) == Next(l.(pos := k + 1), []);
      assert acc + [] == acc;
      QuotedSpan(input, k + 1, p, q, d, acc);
    }
  }

  /** In message mode an apostrophe followed by a brace or another
      apostrophe flushes the pending text and opens a quoted span that
      starts after it. */
  lemma QuoteOpens(input: string, p: nat, st: nat, d: int, acc: seq<Token>)
    requires st <= p && p + 1 < |input| && input[p] == '\''
    requires input[p + 1] == '{' || input[p + 1] == '}' || input[p + 1] == '\''
    ensures Run(input, Lexer(Message, p, st, d), acc) ==
      Run(input, Lexer(Quote, p + 1, p + 1, d), acc + TextTokens(input[st..p]))
  {
    StepProgress(input, Lexer(Message, p, st, d));
  }

  /** Any other apostrophe in message mode is read as text. */
  lemma ApostropheStays(input: string, p: nat, st: nat, d: int, acc: seq<Token>)
    requires st <= p < |input| && input[p] == '\''
    requires p + 1 == |input| || (input[p + 1] != '{' && input[p + 1] != '}' && input[p + 1] != '\'')
    ensures Run(input, Lexer(Message, p, st, d), acc) == Run(input, Lexer(Message, p + 1, st, d), acc)
  {
    var l := Lexer(Message, p, st, d);
    StepProgress(input, l);
    assert Step(input, l) == Next(l.(pos := p + 1), []);
    assert acc + [] == acc;
  }

  /** `a'q'b`, with `q` opening with a brace and holding no apostrophe,
      lexes to the text `a`, the quoted text `q` and the text `b`: the two
      apostrophes are dropped and the braces in `q` are kept as text. */
  lemma QuotedLexes(a: string, q: string, b: string)
    requires PlainPiece(a) && Plain(b)
    requires |q| > 0 && (q[0] == '{' || q[0] == '}') && forall j :: 0 <= j < |q| ==> q[j] != '\''
    requires |b| > 0 ==> b[0] != '\''
    ensures Lex(a + "'" + q + "'" + b) ==
      Done(TextTokens(a) + [Token(QuotedText, q)] + TextTokens(b) + [Token(EOF, "")])
  {
    var input := a + "'" + q + "'" + b;
    var n, c := |a|, |a| + 1 + |q|;
    QuotedInput(a, q, b);
    LeadingText(input, a);
    QuoteOpens(input, n, 0, 0, []);
    assert [] + TextTokens(input[0..n]) == TextTokens(a);
    QuotedSpan(input, n + 1, n + 1, c, 0, TextTokens(a));
    var acc := TextTokens(a) + [Token(QuotedText, q)];
    PlainTail(input, b, c + 1, acc);
  }

  lemma QuotedInput(a: string, q: string, b: string)
    ensures var input, n, c := a + "'" + q + "'" + b, |a|, |a| + 1 + |q|;
      && input[0..n] == a && input[n] == '\'' && input[n + 1..c] == q && input[c] == '\''
      && input[c + 1..] == b && (|q| > 0 ==> input[n + 1] == q[0])
      && (|b| > 0 ==> input[c + 1] == b[0])
      && forall j :: n + 1 <= j < c ==> input[j] == q[j - n - 1]
  {
    var input, n := a + "'" + q + "'" + b, |a|;
    assert input == a + ("'" + q + "'" + b);
    assert input[n..] == "'" + q + "'" + b;
    assert input[n + 1..] == q + "'" + b;
  }

  // ---------------------------------------------------------------------
  // Spans that compose into whole templates

  /** Between `p` and `q` message mode reads on without sending anything:
      no brace, no `#`, and no apostrophe that opens a quoted span. */
  predicate TextBetween(input: string, p: int, q: int)
    requires 0 <= p <= q <= |input|
  {
    forall j :: p <= j < q ==>
      input[j] != '{' && input[j] != '}' && input[j] != '#' &&
      (input[j] == '\'' && j + 1 < |input| ==> input[j + 1] != '{' && input[j + 1] != '}' && input[j + 1] != '\'')
  }

  lemma {:induction false} TextSpan(input: string, p: nat, q: nat, st: nat, d: int, acc: seq<Token>)
    requires st <= p <= q <= |input| && TextBetween(input, p, q)
    ensures Run(input, Lexer(Message, p, st, d), acc) == Run(input, Lexer(Message, q, st, d), acc)
    decreases q - p
  {
    if p < q {
      var l := Lexer(Message, p, st, d);
      assert Step(input, l) == Next(l.(pos := p + 1), []);
      assert acc + [] == acc;
      TextSpan(input, p + 1, q, st, d, acc);
    }
  }

  /** At the end of the input, message mode flushes its pending text and
      sends EOF. */
  lemma TextEnd(input: string, st: nat, d: int, acc: seq<Token>)
    requires st <= |input|
    ensures Run(input, Lexer(Message, |input|, st, d), acc) == Done(acc + TextTokens(input[st..]) + [Token(EOF, "")])
  {
    assert input[st..|input|] == input[st..];
  }

  /** The Text token for some pending text, if there is any. */
  function TextTokens(s: string): seq<Token> {
    if |s| > 0 then [Token(Text, s)] else []
  }

  /** A `{` in message mode at even depth flushes the pending text and
      opens an action. */
  lemma OpenActionSpan(input: string, p: nat, st: nat, d: int, acc: seq<Token>)
    requires st <= p < |input| && input[p] == '{' && Odd(d + 1)
    ensures Run(input, Lexer(Message, p, st, d), acc) ==
      Run(input, Lexer(Action, p + 1, p + 1, d + 1), acc + TextTokens(input[st..p]) + [Token(StartAction, "{")])
  {
    var l := Lexer(Message, p, st, d);
    StepProgress(input, l);
    var l1 := Lexer(LeftDelim, p, p, d);
    assert Step(input, l) == Next(l1, TextTokens(input[st..p]));
    StepProgress(input, l1);
    assert input[p..p + 1] == "{";
    assert Step(input, l1) == Next(Lexer(Action, p + 1, p + 1, d + 1), [Token(StartAction, "{")]);
  }

  /** A `}` in action mode that brings the depth back to even closes the
      action; whatever was pending since the last token is part of its value. */
  lemma CloseActionSpan(input: string, p: nat, d: int, acc: seq<Token>)
    requires p < |input| && input[p] == '}' && !Odd(d - 1)
    ensures Run(input, Lexer(Action, p, p, d), acc) ==
      Run(input, Lexer(Message, p + 1, p + 1, d - 1), acc + [Token(EndAction, "}")])
  {
    var l := Lexer(Action, p, p, d);
    StepProgress(input, l);
    var l1 := Lexer(RightDelim, p, p, d);
    assert Step(input, l) == Next(l1, []);
    assert acc + [] == acc;
    StepProgress(input, l1);
    assert input[p..p + 1] == "}";
  }

  /** In action mode a run of identifier runes, ended by any other rune,
      becomes one Identifier token. */
  lemma IdentifierSpan(input: string, p: nat, q: nat, d: int, acc: seq<Token>)
    requires p < q < |input| && !IsAlphaNumeric(input[q])
    requires forall j :: p <= j < q ==> IsAlphaNumeric(input[j])
    ensures Run(input, Lexer(Action, p, p, d), acc) ==
      Run(input, Lexer(Action, q, q, d), acc + [Token(Identifier, input[p..q])])
  {
    var l := Lexer(Action, p, p, d);
    StepProgress(input, l);
    assert input[p] != '{' && input[p] != ',' && input[p] != '}';
    assert Step(input, l) == Next(Lexer(Ident, p + 1, p, d), []);
    assert acc + [] == acc;
    IdentRun(input, p, p + 1, q, d, acc);
  }

  lemma IdentRun(input: string, st: nat, k: nat, q: nat, d: int, acc: seq<Token>)
    requires st < k <= q < |input| && !IsAlphaNumeric(input[q])
    requires forall j :: k <= j < q ==> IsAlphaNumeric(input[j])
    ensures Run(input, Lexer(Ident, k, st, d), acc) ==
      Run(input, Lexer(Action, q, q, d), acc + [Token(Identifier, input[st..q])])
  {
    IdentAdvance(input, st, k, q, d, acc);
    IdentEnd(input, st, q, d, acc);
  }

  lemma {:induction false} IdentAdvance(input: string, st: nat, k: nat, q: nat, d: int, acc: seq<Token>)
    requires st <= k <= q < |input|
    requires forall j :: k <= j < q ==> IsAlphaNumeric(input[j])
    ensures Run(input, Lexer(Ident, k, st, d), acc) == Run(input, Lexer(Ident, q, st, d), acc)
    decreases q - k
  {
    if k < q {
      IdentStep(input, st, k, d, acc);
      IdentAdvance(input, st, k + 1, q, d, acc);
    }
  }

  lemma IdentStep(input: string, st: nat, k: nat, d: int, acc: seq<Token>)
    requires st <= k < |input| && IsAlphaNumeric(input[k])
    ensures Run(input, Lexer(Ident, k, st, d), acc) == Run(input, Lexer(Ident, k + 1, st, d), acc)
  {
    var l := Lexer(Ident, k, st, d);
    StepProgress(input, l);
    assert Step(input, l) == Next(l.(pos := k + 1), []);
    assert acc + [] == acc;
  }

  lemma IdentEnd(input: string, st: nat, q: nat, d: int, acc: seq<Token>)
    requires st < q < |input| && !IsAlphaNumeric(input[q])
    ensures Run(input, Lexer(Ident, q, st, d), acc) ==
      Run(input, Lexer(Action, q, q, d), acc + [Token(Identifier, input[st..q])])
  {
    StepProgress(input, Lexer(Ident, q, st, d));
  }

  /** Runes that may appear in a placeholder's argument name. */
  predicate IsName(k: string) {
    |k| > 0 && forall j :: 0 <= j < |k| ==> IsAlphaNumeric(k[j])
  }

  /** Text that lexes as plain message text wherever it stands: no brace,
      no `#`, no `''`, and no apostrophe at its end (one there would quote
      a following brace). */
  predicate PlainPiece(s: string) {
    Plain(s) && (|s| > 0 ==> s[|s| - 1] != '\'')
  }

  lemma PlainPieceBetween(input: string, s: string, p: nat)
    requires PlainPiece(s) && p + |s| <= |input| && input[p..p + |s|] == s
    ensures TextBetween(input, p, p + |s|)
  {
    forall j | p <= j < p + |s|
      ensures input[j] != '{' && input[j] != '}' && input[j] != '#'
      ensures input[j] == '\'' && j + 1 < |input| ==> input[j + 1] != '{' && input[j + 1] != '}' && input[j + 1] != '\''
    {
      assert input[j] == s[j - p];
      if input[j] == '\'' && j + 1 < |input| {
        assert j + 1 < p + |s|;
        assert input[j + 1] == s[j + 1 - p];
      }
    }
  }

  /** A placeholder `{name}` in message mode at depth 0. */
  lemma PlaceholderSpan(input: string, st: nat, n: nat, q: nat, acc: seq<Token>)
    requires st <= n && n + 1 < q < |input| && input[n] == '{' && input[q] == '}'
    requires forall j :: n + 1 <= j < q ==> IsAlphaNumeric(input[j])
    ensures Run(input, Lexer(Message, n, st, 0), acc) ==
      Run(input, Lexer(Message, q + 1, q + 1, 0),
          acc + TextTokens(input[st..n]) + [Token(StartAction, "{"), Token(Identifier, input[n + 1..q]), Token(EndAction, "}")])
  {
    var sent := acc + TextTokens(input[st..n]) + [Token(StartAction, "{")];
    var acc2 := sent + [Token(Identifier, input[n + 1..q])];
    OpenName(input, st, n, q, acc, sent);
    assert !Odd(0);
    CloseActionSpan(input, q, 1, acc2);
    assert acc2 + [Token(EndAction, "}")] ==
      acc + TextTokens(input[st..n]) + [Token(StartAction, "{"), Token(Identifier, input[n + 1..q]), Token(EndAction, "}")];
  }

  /** The `{` and the name of a placeholder; `sent` is what has been
      sent once the `{` is. */
  lemma OpenName(input: string, st: nat, n: nat, q: nat, acc: seq<Token>, sent: seq<Token>)
    requires st <= n && n + 1 < q < |input| && input[n] == '{' && input[q] == '}'
    requires forall j :: n + 1 <= j < q ==> IsAlphaNumeric(input[j])
    requires sent == acc + TextTokens(input[st..n]) + [Token(StartAction, "{")]
    ensures Run(input, Lexer(Message, n, st, 0), acc) ==
      Run(input, Lexer(Action, q, q, 1), sent + [Token(Identifier, input[n + 1..q])])
  {
    OpenPlaceholder(input, st, n, acc, sent);
    IdentifierSpan(input, n + 1, q, 1, sent);
  }

  lemma OpenPlaceholder(input: string, st: nat, n: nat, acc: seq<Token>, sent: seq<Token>)
    requires st <= n < |input| && input[n] == '{'
    requires sent == acc + TextTokens(input[st..n]) + [Token(StartAction, "{")]
    ensures Run(input, Lexer(Message, n, st, 0), acc) == Run(input, Lexer(Action, n + 1, n + 1, 1), sent)
  {
    assert Odd(1);
    OpenActionSpan(input, n, st, 0, acc);
  }

  lemma PlaceholderInput(a: string, k: string, b: string)
    requires IsName(k)
    ensures var input, n, q := a + "{" + k + "}" + b, |a|, |a| + 1 + |k|;
      && input[0..n] == a && input[n] == '{' && input[n + 1..q] == k && input[q] == '}' && input[q + 1..] == b
      && forall j :: n + 1 <= j < q ==> IsAlphaNumeric(input[j])
  {
    var input, n, q := a + "{" + k + "}" + b, |a|, |a| + 1 + |k|;
    assert input == a + ("{" + k + "}" + b);
    assert input[n..] == "{" + k + "}" + b;
    forall j | n + 1 <= j < q ensures IsAlphaNumeric(input[j]) {
      assert input[j] == k[j - n - 1];
    }
  }

  /** A message with one placeholder between two plain pieces lexes to the
      text before, the `{`, the argument name, the `}`, the text after and
      EOF. */
  lemma PlaceholderLexes(a: string, k: string, b: string)
    requires PlainPiece(a) && IsName(k) && Plain(b)
    ensures Lex(a + "{" + k + "}" + b) ==
      Done(TextTokens(a) + [Token(StartAction, "{"), Token(Identifier, k), Token(EndAction, "}")] + TextTokens(b) + [Token(EOF, "")])
  {
    var input := a + "{" + k + "}" + b;
    var q := |a| + 1 + |k|;
    PlaceholderInput(a, k, b);
    var acc := TextTokens(a) + [Token(StartAction, "{"), Token(Identifier, k), Token(EndAction, "}")];
    PlaceholderHead(input, a, k, q, acc);
    PlainTail(input, b, q + 1, acc);
  }

  lemma PlaceholderHead(input: string, a: string, k: string, q: nat, acc: seq<Token>)
    requires PlainPiece(a) && q == |a| + 1 + |k| && |a| + 1 < q < |input|
    requires input[0..|a|] == a && input[|a|] == '{' && input[|a| + 1..q] == k && input[q] == '}'
    requires forall j :: |a| + 1 <= j < q ==> IsAlphaNumeric(input[j])
    requires acc == TextTokens(a) + [Token(StartAction, "{"), Token(Identifier, k), Token(EndAction, "}")]
    ensures Lex(input) == Run(input, Lexer(Message, q + 1, q + 1, 0), acc)
  {
    LeadingText(input, a);
    FirstPlaceholder(input, a, k, q, acc);
  }

  /** Plain text at the start of the input is pending when its end is reached. */
  lemma LeadingText(input: string, a: string)
    requires PlainPiece(a) && |a| <= |input| && input[0..|a|] == a
    ensures Lex(input) == Run(input, Lexer(Message, |a|, 0, 0), [])
  {
    PlainPieceBetween(input, a, 0);
    TextSpan(input, 0, |a|, 0, 0, []);
  }

  lemma FirstPlaceholder(input: string, a: string, k: string, q: nat, acc: seq<Token>)
    requires q == |a| + 1 + |k| && |a| + 1 < q < |input|
    requires input[0..|a|] == a && input[|a|] == '{' && input[|a| + 1..q] == k && input[q] == '}'
    requires forall j :: |a| + 1 <= j < q ==> IsAlphaNumeric(input[j])
    requires acc == TextTokens(a) + [Token(StartAction, "{"), Token(Identifier, k), Token(EndAction, "}")]
    ensures Run(input, Lexer(Message, |a|, 0, 0), []) == Run(input, Lexer(Message, q + 1, q + 1, 0), acc)
  {
    PlaceholderSpan(input, 0, |a|, q, []);
    assert [] + TextTokens(input[0..|a|]) + [Token(StartAction, "{"), Token(Identifier, input[|a| + 1..q]), Token(EndAction, "}")] == acc;
  }

  lemma PlainTail(input: string, b: string, p: nat, acc: seq<Token>)
    requires Plain(b) && p <= |input| && input[p..] == b
    ensures Run(input, Lexer(Message, p, p, 0), acc) == Done(acc + TextTokens(b) + [Token(EOF, "")])
  {
    PlainBetween(input, b, p);
    TextSpan(input, p, |input|, p, 0, acc);
    TextEnd(input, p, 0, acc);
  }

  lemma PlainBetween(input: string, s: string, p: nat)
    requires Plain(s) && p <= |input| && input[p..] == s
    ensures TextBetween(input, p, |input|)
  {
    forall j | p <= j < |input|
      ensures input[j] != '{' && input[j] != '}' && input[j] != '#'
      ensures input[j] == '\'' && j + 1 < |input| ==> input[j + 1] != '{' && input[j + 1] != '}' && input[j + 1] != '\''
    {
      assert input[j] == s[j - p];
      if input[j] == '\'' && j + 1 < |input| {
        assert input[j + 1] == s[j + 1 - p];
      }
    }
  }
}
