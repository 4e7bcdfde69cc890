/** What the parser does with the token streams the lexer produces. */
module ParserProperties {
  import opened Base
  import opened GoInts
  import L = Lexer
  import LP = LexerProperties
  import opened Ast
  import opened Parser

  // ---------------------------------------------------------------------
  // Plain streams

  /** Tokens that the main loop just pushes as leaf nodes. */
  predicate PlainStream(ts: seq<L.Token>) {
    forall i :: 0 <= i < |ts| ==> ts[i].kind.Text? || ts[i].kind.QuotedText? || ts[i].kind.Hash?
  }

  function NodeOf(t: L.Token): Node
    requires t.kind.Text? || t.kind.QuotedText? || t.kind.Hash?
  {
    if t.kind.Text? then Text(t.val)
    else if t.kind.QuotedText? then QuotedText(t.val)
    else Hash
  }

  function PlainNodes(ts: seq<L.Token>): seq<Node>
    requires PlainStream(ts)
  {
    if |ts| == 0 then [] else [NodeOf(ts[0])] + PlainNodes(ts[1..])
  }

  /** Text, quoted text and `#` tokens up to EOF become the same number of
      nodes, in input order: EOF hands back the stack from the bottom. */
  lemma {:induction false} PlainStreamParses(src: Source, i: nat, k: nat, stack: seq<Node>)
    requires i <= k < |src.tokens| && src.tokens[k].kind.EOF?
    requires PlainStream(src.tokens[i..k])
    ensures Loop(src, i, stack) == Returned(stack + PlainNodes(src.tokens[i..k]))
    decreases k - i
  {
    if i == k {
      assert stack + [] == stack;
    } else {
      var ts := src.tokens[i..k];
      assert ts[0] == src.tokens[i];
      assert ts[1..] == src.tokens[i + 1..k];
      PlainStreamParses(src, i + 1, k, stack + [NodeOf(ts[0])]);
      assert stack + [NodeOf(ts[0])] + PlainNodes(ts[1..]) == stack + PlainNodes(ts);
    }
  }

  /** Plain text parses to a single text node (none when empty). */
  lemma PlainTextParses(s: string)
    requires LP.Plain(s)
    ensures ParseTemplate(s) == Returned(if |s| > 0 then [Text(s)] else [])
  {
    LP.PlainTextLexes(s);
    var ts := LP.PlainTokens(s);
    var k := |ts| - 1;
    assert ts[0..k] == LP.TextTokens(s);
    PlainStreamParses(Source(ts, true), 0, k, []);
    assert ParseTemplate(s) == Loop(Source(ts, true), 0, []);
    if |s| > 0 {
      assert ts[0..k] == [L.Token(L.Text, s)];
      assert ts[0..k][1..] == [];
      assert PlainNodes(ts[0..k]) == [NodeOf(L.Token(L.Text, s))] + PlainNodes([]);
      assert [] + PlainNodes(ts[0..k]) == [Text(s)];
    }
  }

  /** `a'q'b` with a brace-led `q` parses to the text `a`, the quoted
      text `q` and the text `b`. */
  lemma QuotedParses(a: string, q: string, b: string)
    requires LP.PlainPiece(a) && LP.Plain(b)
    requires |q| > 0 && (q[0] == '{' || q[0] == '}') && forall j :: 0 <= j < |q| ==> q[j] != '\''
    requires |b| > 0 ==> b[0] != '\''
    ensures ParseTemplate(a + "'" + q + "'" + b) == Returned(TextNodes(a) + [QuotedText(q)] + TextNodes(b))
  {
    LP.QuotedLexes(a, q, b);
    var body := LP.TextTokens(a) + [L.Token(L.QuotedText, q)] + LP.TextTokens(b);
    var ts := body + [L.Token(L.EOF, "")];
    assert ParseTemplate(a + "'" + q + "'" + b) == Loop(Source(ts, true), 0, []);
    QuotedLoop(ts, body, a, q, b);
  }

  lemma QuotedLoop(ts: seq<L.Token>, body: seq<L.Token>, a: string, q: string, b: string)
    requires body == LP.TextTokens(a) + [L.Token(L.QuotedText, q)] + LP.TextTokens(b)
    requires ts == body + [L.Token(L.EOF, "")]
    ensures Loop(Source(ts, true), 0, []) == Returned(TextNodes(a) + [QuotedText(q)] + TextNodes(b))
  {
    var k := |body|;
    assert ts[0..k] == body;
    QuotedNodes(body, a, q, b);
    PlainStreamParses(Source(ts, true), 0, k, []);
    assert [] + PlainNodes(body) == PlainNodes(body);
  }

  lemma QuotedNodes(body: seq<L.Token>, a: string, q: string, b: string)
    requires body == LP.TextTokens(a) + [L.Token(L.QuotedText, q)] + LP.TextTokens(b)
    ensures PlainStream(body) && PlainNodes(body) == TextNodes(a) + [QuotedText(q)] + TextNodes(b)
  {
    TextTokenNodes(a);
    TextTokenNodes(b);
    assert PlainNodes([L.Token(L.QuotedText, q)]) == [QuotedText(q)] + PlainNodes([]);
    PlainNodesAppend(LP.TextTokens(a), [L.Token(L.QuotedText, q)]);
    PlainNodesAppend(LP.TextTokens(a) + [L.Token(L.QuotedText, q)], LP.TextTokens(b));
  }

  lemma {:induction false} PlainNodesAppend(a: seq<L.Token>, b: seq<L.Token>)
    requires PlainStream(a) && PlainStream(b)
    ensures PlainStream(a + b) && PlainNodes(a + b) == PlainNodes(a) + PlainNodes(b)
  {
    if |a| == 0 {
      assert a + b == b;
    } else {
      assert (a + b)[1..] == a[1..] + b;
      PlainNodesAppend(a[1..], b);
    }
  }

  lemma TextTokenNodes(s: string)
    ensures PlainStream(LP.TextTokens(s)) && PlainNodes(LP.TextTokens(s)) == TextNodes(s)
  {
    if |s| > 0 {
      assert LP.TextTokens(s)[1..] == [];
    }
  }

  // ---------------------------------------------------------------------
  // Identifiers

  /** What an Identifier token does depends on the node on top of the
      stack: after `{` it names a placeholder; after a placeholder it picks
      the formatter; it replaces a simple formatter's style, is appended to a
      custom formatter's arguments, and after a plural-like node `offset`
      reads the next token's value; on any other node it is ignored. */
  lemma {:induction false} IdentifierDispatch(src: Source, i: nat, below: seq<Node>, top: Node)
    requires i < |src.tokens| && src.tokens[i].kind.Identifier?
    ensures var name := src.tokens[i].val;
      top.StartAction? ==> Loop(src, i, below + [top]) == Loop(src, i + 1, below + [top, Placeholder(name)])
    ensures var name := src.tokens[i].val;
      top.Placeholder? ==> Loop(src, i, below + [top]) == Loop(src, i + 1, below + [Formatter(top.key, name)])
    ensures var name := src.tokens[i].val;
      top.Formatted? ==> Loop(src, i, below + [top]) == Loop(src, i + 1, below + [top.(style := name)])
    ensures var name := src.tokens[i].val;
      top.Custom? ==> Loop(src, i, below + [top]) == Loop(src, i + 1, below + [top.(args := top.args + [name])])
    ensures var name := src.tokens[i].val;
      top.Plural? && name == "offset" && i + 1 < |src.tokens| && |src.tokens[i + 1].val| > 0 ==>
        Loop(src, i, below + [top]) == Loop(src, i + 2, below + [top.(offset := OffsetOf(src.tokens[i + 1].val))])
    ensures top.Text? || top.QuotedText? || top.Hash? || top.Message? || top.StartMessage? || top.Selector? ==>
      Loop(src, i, below + [top]) == Loop(src, i + 1, below + [top])
  {
    var stack := below + [top];
    assert stack[..|stack| - 1] == below && stack[|stack| - 1] == top;
    assert stack + [Placeholder(src.tokens[i].val)] == below + [top, Placeholder(src.tokens[i].val)];
  }

  // ---------------------------------------------------------------------
  // Termination

  /** A template the lexer gets stuck on never yields a message: the
      parser needs an EOF, and a stuck lexer never sends one. */
  lemma StuckLexerNeverParses(input: string)
    requires L.Lex(input).Stuck?
    ensures !ParseTemplate(input).Returned?
  {
    LP.LexEndsWithEof(input);
  }

  // ---------------------------------------------------------------------
  // Placeholders

  function TextNodes(s: string): seq<Node> {
    if |s| > 0 then [Text(s)] else []
  }

  /** A message with one placeholder between plain pieces parses to the
      text before, a nested message holding the placeholder, and the text
      after. */
  lemma PlaceholderParses(a: string, k: string, b: string)
    requires LP.PlainPiece(a) && LP.IsName(k) && LP.Plain(b)
    ensures ParseTemplate(a + "{" + k + "}" + b) == Returned(TextNodes(a) + [Message([Placeholder(k)])] + TextNodes(b))
  {
    LP.PlaceholderLexes(a, k, b);
    var ts := LP.TextTokens(a) + [L.Token(L.StartAction, "{"), L.Token(L.Identifier, k), L.Token(L.EndAction, "}")]
      + LP.TextTokens(b) + [L.Token(L.EOF, "")];
    var src := Source(ts, true);
    var n := |LP.TextTokens(a)|;
    PlaceholderLoop(src, a, k, b, n);
  }

  lemma PlaceholderLoop(src: Source, a: string, k: string, b: string, n: nat)
    requires n == |LP.TextTokens(a)|
    requires src.tokens == LP.TextTokens(a) + [L.Token(L.StartAction, "{"), L.Token(L.Identifier, k), L.Token(L.EndAction, "}")]
      + LP.TextTokens(b) + [L.Token(L.EOF, "")]
    ensures Loop(src, 0, []) == Returned(TextNodes(a) + [Message([Placeholder(k)])] + TextNodes(b))
  {
    var ts := src.tokens;
    var m := |LP.TextTokens(b)|;
    Pieces(LP.TextTokens(a), [L.Token(L.StartAction, "{"), L.Token(L.Identifier, k), L.Token(L.EndAction, "}")],
      LP.TextTokens(b), [L.Token(L.EOF, "")]);
    assert ts[n + 3 + m].kind.EOF?;
    PushText(src, 0, a, []);
    PlaceholderStep(src, n, k, TextNodes(a));
    var s1 := TextNodes(a) + [Message([Placeholder(k)])];
    PushText(src, n + 3, b, s1);
    assert Loop(src, n + 3 + m, s1 + TextNodes(b)) == Returned(s1 + TextNodes(b));
    assert [] + TextNodes(a) == TextNodes(a);
  }

  /** Where the pieces of a four-part concatenation sit. */
  lemma Pieces<T>(a: seq<T>, b: seq<T>, c: seq<T>, d: seq<T>)
    ensures var s := a + b + c + d;
      && s[0..|a|] == a && s[|a|..|a| + |b|] == b
      && s[|a| + |b|..|a| + |b| + |c|] == c && s[|a| + |b| + |c|..] == d
  {
    var s := a + b + c + d;
    assert s == a + (b + (c + d));
    assert s[|a|..] == b + (c + d);
    assert s[|a| + |b|..] == c + d;
  }

  /** The Text token of a piece, if any, is pushed as one text node. */
  lemma PushText(src: Source, i: nat, x: string, stack: seq<Node>)
    requires i + |LP.TextTokens(x)| < |src.tokens| && src.tokens[i..i + |LP.TextTokens(x)|] == LP.TextTokens(x)
    ensures Loop(src, i, stack) == Loop(src, i + |LP.TextTokens(x)|, stack + TextNodes(x))
  {
    if |x| == 0 {
      assert stack + [] == stack;
    } else {
      assert LP.TextTokens(x) == [L.Token(L.Text, x)] && TextNodes(x) == [Text(x)];
      assert src.tokens[i] == src.tokens[i..i + 1][0] == L.Token(L.Text, x);
    }
  }

  /** `{`, a name and `}` become one nested message holding a placeholder. */
  lemma PlaceholderStep(src: Source, i: nat, k: string, stack: seq<Node>)
    requires i + 3 < |src.tokens|
    requires src.tokens[i..i + 3] == [L.Token(L.StartAction, "{"), L.Token(L.Identifier, k), L.Token(L.EndAction, "}")]
    ensures Loop(src, i, stack) == Loop(src, i + 3, stack + [Message([Placeholder(k)])])
  {
    assert src.tokens[i] == src.tokens[i..i + 3][0];
    assert src.tokens[i + 1] == src.tokens[i..i + 3][1];
    assert src.tokens[i + 2] == src.tokens[i..i + 3][2];
    var s0 := stack + [StartAction];
    var s1 := s0 + [Placeholder(k)];
    assert Loop(src, i, stack) == Loop(src, i + 1, s0) by {
      LoopStartAction(src, i, stack);
    }
    assert Loop(src, i + 1, s0) == Loop(src, i + 2, s1) by {
      NameAfterStart(src, i + 1, stack);
      LoopIdentifier(src, i + 1, s0, i + 2, s1);
    }
    assert Loop(src, i + 2, s1) == Loop(src, i + 3, stack + [Message([Placeholder(k)])]) by {
      ClosePlaceholder(stack, k);
      LoopEndAction(src, i + 2, s1, stack + [Message([Placeholder(k)])]);
    }
  }

  lemma LoopStartAction(src: Source, i: nat, stack: seq<Node>)
    requires i < |src.tokens| && src.tokens[i].kind.StartAction?
    ensures Loop(src, i, stack) == Loop(src, i + 1, stack + [StartAction])
  {
  }

  lemma LoopIdentifier(src: Source, i: nat, stack: seq<Node>, j: nat, st: seq<Node>)
    requires i < |src.tokens| && src.tokens[i].kind.Identifier?
    requires OnIdentifier(src, i, stack) == Returned((j, st))
    ensures Loop(src, i, stack) == Loop(src, j, st)
  {
  }

  lemma LoopEndAction(src: Source, i: nat, stack: seq<Node>, st: seq<Node>)
    requires i < |src.tokens| && src.tokens[i].kind.EndAction?
    requires CloseAction(stack) == Returned(st)
    ensures Loop(src, i, stack) == Loop(src, i + 1, st)
  {
  }

  lemma NameAfterStart(src: Source, i: nat, stack: seq<Node>)
    requires i < |src.tokens|
    ensures OnIdentifier(src, i, stack + [StartAction]) == Returned((i + 1, stack + [StartAction] + [Placeholder(src.tokens[i].val)]))
  {
  }

  lemma ClosePlaceholder(stack: seq<Node>, k: string)
    ensures CloseAction(stack + [StartAction] + [Placeholder(k)]) == Returned(stack + [Message([Placeholder(k)])])
  {
    var s1 := stack + [StartAction] + [Placeholder(k)];
    assert s1[|s1| - 1] != StartAction;
    assert s1[..|s1| - 1] == stack + [StartAction];
    assert LastIndex(s1, StartAction) == |stack|;
    assert s1[..|stack|] == stack && s1[|stack| + 1..] == [Placeholder(k)];
  }
}
