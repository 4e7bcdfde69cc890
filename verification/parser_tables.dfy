/** How the parser turns the tokens of a plural, selectordinal or select
    argument (the templates `LexerTables` describes) into one node: the
    header turns a placeholder into the formatter, `offset` stores the
    offset, and every case stores its body in the node's case table. */
module ParserTables {
  import opened Base
  import opened GoInts
  import L = Lexer
  import LP = LexerProperties
  import LT = LexerTables
  import opened Ast
  import opened Parser
  import PP = ParserProperties

  // ---------------------------------------------------------------------
  // The node such a template parses to

  /** A case body: a text node per non-empty piece, a `#` node between pieces. */
  function BodyNodes(pieces: seq<string>): seq<Node> {
    if |pieces| == 0 then []
    else if |pieces| == 1 then PP.TextNodes(pieces[0])
    else PP.TextNodes(pieces[0]) + [Hash] + BodyNodes(pieces[1..])
  }

  /** The case table after storing the cases in order, each under its
      selector, as `cases[selector] = body` does. */
  function CaseTable(cases: seq<Case>, cs: seq<LT.CaseText>): seq<Case>
    decreases |cs|
  {
    if |cs| == 0 then cases
    else CaseTable(Put(cases, cs[0].selector, BodyNodes(cs[0].pieces)), cs[1..])
  }

  function OffsetValue(o: LT.OffsetText): Int64 {
    if o.NoOffset? then 0 else Atoi(o.digits)
  }

  /** The node of the argument: `select` gives a select node, `plural` and
      `selectordinal` a plural-like node with the cardinal or ordinal rule. */
  function TableNode(t: LT.TableText): Node {
    var cases := CaseTable([], t.cases);
    if t.kind == "select" then Select(t.key, cases)
    else Plural(if t.kind == "plural" then Cardinal else Ordinal, t.key, OffsetValue(t.offset), cases)
  }

  /** A plural-like or select node with another case table. */
  function WithCases(comp: Node, cases: seq<Case>): (r: Node)
    requires comp.Plural? || comp.Select?
    ensures r.Plural? == comp.Plural? && r.Select? == comp.Select? && r.cases == cases
  {
    comp.(cases := cases)
  }

  /** The arguments read as the syntax means them: a plural-like kind, an
      `offset:` clause only after `plural` or `selectordinal`, and then no
      case named `offset` (after a plural-like node that name reads an
      offset instead of opening a case; after a select node `offset` opens
      a case). */
  predicate Regular(t: LT.TableText) {
    && LT.WellFormedTable(t)
    && t.kind in {"plural", "selectordinal", "select"}
    && (t.kind == "select" ==> t.offset.NoOffset?)
    && (t.kind != "select" ==> forall i :: 0 <= i < |t.cases| ==> t.cases[i].selector != "offset")
  }

  // ---------------------------------------------------------------------
  // Case tables

  /** Storing twice under one selector is storing the second body. */
  lemma PutTwice(cases: seq<Case>, k: string, b1: seq<Node>, b2: seq<Node>)
    ensures Put(Put(cases, k, b1), k, b2) == Put(cases, k, b2)
  {
    var i := Find(cases, k);
    if i == -1 {
      FindAppend(cases, Case(k, b1));
      assert Put(cases, k, b1) == cases + [Case(k, b1)];
      assert (cases + [Case(k, b1)])[|cases| := Case(k, b2)] == cases + [Case(k, b2)];
    } else {
      FindUpdate(cases, i, Case(k, b1));
      assert Put(cases, k, b1) == cases[i := Case(k, b1)];
      assert cases[i := Case(k, b1)][i := Case(k, b2)] == cases[i := Case(k, b2)];
    }
  }

  /** The table holds, for every selector, the body of its last case, and
      what it held before for a selector no case names. */
  lemma CaseTableGet(cases: seq<Case>, cs: seq<LT.CaseText>, k: string)
    ensures (forall i :: 0 <= i < |cs| ==> cs[i].selector != k) ==> Get(CaseTable(cases, cs), k) == Get(cases, k)
    ensures forall i :: 0 <= i < |cs| && cs[i].selector == k && (forall j :: i < j < |cs| ==> cs[j].selector != k) ==>
      Get(CaseTable(cases, cs), k) == Some(BodyNodes(cs[i].pieces))
  {
    if forall i :: 0 <= i < |cs| ==> cs[i].selector != k {
      CaseTableUnnamed(cases, cs, k);
    }
    forall i | 0 <= i < |cs| && cs[i].selector == k && (forall j :: i < j < |cs| ==> cs[j].selector != k)
      ensures Get(CaseTable(cases, cs), k) == Some(BodyNodes(cs[i].pieces))
    {
      CaseTableLast(cases, cs, k, i);
    }
  }

  lemma {:induction false} CaseTableUnnamed(cases: seq<Case>, cs: seq<LT.CaseText>, k: string)
    requires forall i :: 0 <= i < |cs| ==> cs[i].selector != k
    ensures Get(CaseTable(cases, cs), k) == Get(cases, k)
    decreases |cs|
  {
    if |cs| > 0 {
      var next := Put(cases, cs[0].selector, BodyNodes(cs[0].pieces));
      assert forall j :: 0 <= j < |cs| - 1 ==> cs[1..][j] == cs[j + 1];
      CaseTableUnnamed(next, cs[1..], k);
    }
  }

  lemma {:induction false} CaseTableLast(cases: seq<Case>, cs: seq<LT.CaseText>, k: string, i: nat)
    requires i < |cs| && cs[i].selector == k && forall j :: i < j < |cs| ==> cs[j].selector != k
    ensures Get(CaseTable(cases, cs), k) == Some(BodyNodes(cs[i].pieces))
    decreases |cs|
  {
    var next := Put(cases, cs[0].selector, BodyNodes(cs[0].pieces));
    assert forall j :: 0 <= j < |cs| - 1 ==> cs[1..][j] == cs[j + 1];
    if i > 0 {
      CaseTableLast(next, cs[1..], k, i - 1);
    } else {
      CaseTableUnnamed(next, cs[1..], k);
    }
  }

  /** Case bodies hold text and `#` nodes only, so the parser's search for
      the open-body marker never stops inside one. */
  lemma {:induction false} BodyNodesUnmarked(pieces: seq<string>)
    ensures StartMessage !in BodyNodes(pieces)
    decreases |pieces|
  {
    if |pieces| > 1 {
      BodyNodesUnmarked(pieces[1..]);
    }
  }

  // ---------------------------------------------------------------------
  // Tokens at positions

  /** The tokens `ts` stand at index `i` of the source. */
  predicate TokAt(src: Source, i: nat, ts: seq<L.Token>)
    decreases |ts|
  {
    i + |ts| <= |src.tokens| && (|ts| > 0 ==> src.tokens[i] == ts[0] && TokAt(src, i + 1, ts[1..]))
  }

  lemma {:induction false} TokSplit(src: Source, i: nat, x: seq<L.Token>, y: seq<L.Token>, k: nat)
    requires TokAt(src, i, x + y) && k == i + |x|
    ensures TokAt(src, i, x) && TokAt(src, k, y)
    decreases |x|
  {
    if |x| == 0 {
      assert x + y == y;
    } else {
      assert (x + y)[0] == x[0];
      assert (x + y)[1..] == x[1..] + y;
      TokSplit(src, i + 1, x[1..], y, k);
    }
  }

  lemma TokFirst(src: Source, i: nat, ts: seq<L.Token>)
    requires TokAt(src, i, ts) && |ts| > 0
    ensures i < |src.tokens| && src.tokens[i] == ts[0]
  {
  }

  /** The tokens from index `i` on, by the indices of the source. */
  lemma {:induction false} TokIndex(src: Source, i: nat, ts: seq<L.Token>, j: nat)
    requires TokAt(src, i, ts) && j < |ts|
    ensures src.tokens[i + j] == ts[j]
    decreases j
  {
    if j > 0 {
      TokIndex(src, i + 1, ts[1..], j - 1);
    }
  }

  /** The whole source stands at index 0. */
  lemma {:induction false} TokAll(src: Source, i: nat)
    requires i <= |src.tokens|
    ensures TokAt(src, i, src.tokens[i..])
    decreases |src.tokens| - i
  {
    if i < |src.tokens| {
      assert src.tokens[i..][1..] == src.tokens[i + 1..];
      TokAll(src, i + 1);
    }
  }

  /** Where the parts of a four-part concatenation stand. */
  lemma TokParts(src: Source, i: nat, a: seq<L.Token>, b: seq<L.Token>, c: seq<L.Token>, d: seq<L.Token>, p: nat, q: nat, r: nat)
    requires TokAt(src, i, a + b + c + d) && p == i + |a| && q == p + |b| && r == q + |c|
    ensures TokAt(src, i, a) && TokAt(src, p, b) && TokAt(src, q, c) && TokAt(src, r, d)
  {
    TokSplit(src, i, a + b + c, d, r);
    TokSplit(src, i, a + b, c, q);
    TokSplit(src, i, a, b, p);
  }

  // ---------------------------------------------------------------------
  // Single steps of the main loop

  /** The loop from `i` with `stack` ends as the loop from `j` with `stack2`. */
  predicate Goes(src: Source, i: nat, stack: seq<Node>, j: nat, stack2: seq<Node>) {
    Loop(src, i, stack) == Loop(src, j, stack2)
  }

  lemma Trans(src: Source, i: nat, s0: seq<Node>, j: nat, s1: seq<Node>, k: nat, s2: seq<Node>)
    requires Goes(src, i, s0, j, s1) && Goes(src, j, s1, k, s2)
    ensures Goes(src, i, s0, k, s2)
  {
  }

  lemma Rewrite(src: Source, i: nat, s0: seq<Node>, j: nat, s1: seq<Node>, k: nat, s2: seq<Node>)
    requires Goes(src, i, s0, j, s1) && j == k && s1 == s2
    ensures Goes(src, i, s0, k, s2)
  {
  }

  lemma TransTo(src: Source, i: nat, s0: seq<Node>, j: nat, s1: seq<Node>, k: nat, s2: seq<Node>, k': nat, s2': seq<Node>)
    requires Goes(src, i, s0, j, s1) && Goes(src, j, s1, k, s2) && k == k' && s2 == s2'
    ensures Goes(src, i, s0, k', s2')
  {
  }

  /** Space and Delim tokens leave the stack alone. */
  lemma SkipBlank(src: Source, i: nat, s: string, stack: seq<Node>)
    requires TokAt(src, i, LT.SpaceTokens(s))
    ensures Goes(src, i, stack, i + |LT.SpaceTokens(s)|, stack)
  {
    if |s| > 0 {
      TokFirst(src, i, LT.SpaceTokens(s));
    }
  }

  lemma SkipDelim(src: Source, i: nat, stack: seq<Node>)
    requires i < |src.tokens| && src.tokens[i].kind.Delim?
    ensures Goes(src, i, stack, i + 1, stack)
  {
  }

  lemma PushText(src: Source, i: nat, x: string, stack: seq<Node>)
    requires TokAt(src, i, LP.TextTokens(x))
    ensures Goes(src, i, stack, i + |LP.TextTokens(x)|, stack + PP.TextNodes(x))
  {
    if |x| > 0 {
      TokFirst(src, i, LP.TextTokens(x));
    } else {
      assert stack + [] == stack;
    }
  }

  lemma PushHash(src: Source, i: nat, stack: seq<Node>)
    requires i < |src.tokens| && src.tokens[i].kind.Hash?
    ensures Goes(src, i, stack, i + 1, stack + [Hash])
  {
  }

  // ---------------------------------------------------------------------
  // A case

  /** The text pieces and `#` tokens of a body become its nodes. */
  lemma {:induction false} PushBody(src: Source, i: nat, pieces: seq<string>, stack: seq<Node>, e: nat, out: seq<Node>)
    requires |pieces| > 0 && TokAt(src, i, LT.BodyTokens(pieces))
    requires e == i + |LT.BodyTokens(pieces)| && out == stack + BodyNodes(pieces)
    ensures Goes(src, i, stack, e, out)
    decreases |pieces|
  {
    if |pieces| == 1 {
      PushText(src, i, pieces[0], stack);
    } else {
      var m := i + |LP.TextTokens(pieces[0])| + 1;
      var s1 := stack + PP.TextNodes(pieces[0]) + [Hash];
      PushHead(src, i, pieces, stack, m);
      BodyNodesSplit(stack, pieces);
      PushBody(src, m, pieces[1..], s1, e, out);
      Trans(src, i, stack, m, s1, e, out);
    }
  }

  /** The first piece of a body of several and the `#` after it. */
  lemma PushHead(src: Source, i: nat, pieces: seq<string>, stack: seq<Node>, m: nat)
    requires |pieces| > 1 && TokAt(src, i, LT.BodyTokens(pieces))
    requires m == i + |LP.TextTokens(pieces[0])| + 1
    ensures TokAt(src, m, LT.BodyTokens(pieces[1..]))
    ensures m + |LT.BodyTokens(pieces[1..])| == i + |LT.BodyTokens(pieces)|
    ensures Goes(src, i, stack, m, stack + PP.TextNodes(pieces[0]) + [Hash])
  {
    var x := pieces[0];
    var n := i + |LP.TextTokens(x)|;
    var hash := [L.Token(L.Hash, "#")];
    assert LT.BodyTokens(pieces) == LP.TextTokens(x) + hash + LT.BodyTokens(pieces[1..]);
    TokSplit(src, i, LP.TextTokens(x) + hash, LT.BodyTokens(pieces[1..]), m);
    TokSplit(src, i, LP.TextTokens(x), hash, n);
    TokFirst(src, n, hash);
    PushText(src, i, x, stack);
    PushHash(src, n, stack + PP.TextNodes(x));
    Trans(src, i, stack, n, stack + PP.TextNodes(x), m, stack + PP.TextNodes(x) + [Hash]);
  }

  lemma BodyNodesSplit(stack: seq<Node>, pieces: seq<string>)
    requires |pieces| > 1
    ensures stack + PP.TextNodes(pieces[0]) + [Hash] + BodyNodes(pieces[1..]) == stack + BodyNodes(pieces)
  {
  }

  /** The consume loop after a selector stops right after the `{` of the body. */
  lemma SkipToBody(src: Source, k: nat, gap: string)
    requires TokAt(src, k, LT.SpaceTokens(gap) + [L.Token(L.StartMessage, "{")])
    ensures SkipPastStartMessage(src, k) == Returned(k + |LT.SpaceTokens(gap)| + 1)
  {
    var ts := LT.SpaceTokens(gap) + [L.Token(L.StartMessage, "{")];
    TokFirst(src, k, ts);
    if |gap| > 0 {
      TokIndex(src, k, ts, 1);
    }
  }

  /** A selector on top of a plural-like or select node stores an empty
      body, pushes the selector and the open-body marker, and goes on after
      the body's `{`. */
  lemma SelectorOpens(src: Source, i: nat, below: seq<Node>, comp: Node, sel: string, e: nat, started: Node)
    requires i < |src.tokens| && src.tokens[i].val == sel
    requires comp.Plural? || comp.Select?
    requires comp.Plural? ==> sel != "offset"
    requires SkipPastStartMessage(src, i + 1) == Returned(e)
    requires started == WithCases(comp, Put(comp.cases, sel, []))
    ensures OnIdentifier(src, i, below + [comp]) == Returned((e, below + [started, Selector(sel), StartMessage]))
  {
    var stack := below + [comp];
    assert stack[..|stack| - 1] == below && stack[|stack| - 1] == comp;
    assert comp.(cases := Put(comp.cases, sel, [])) == started;
  }

  /** A selector on top of a plural-like or select node opens its case. */
  lemma OpenCaseStep(src: Source, i: nat, sel: string, gap: string, below: seq<Node>, comp: Node, e: nat, started: Node)
    requires comp.Plural? || comp.Select?
    requires comp.Plural? ==> sel != "offset"
    requires TokAt(src, i, [L.Token(L.Identifier, sel)] + LT.SpaceTokens(gap) + [L.Token(L.StartMessage, "{")])
    requires e == i + 2 + |LT.SpaceTokens(gap)|
    requires started == WithCases(comp, Put(comp.cases, sel, []))
    ensures Goes(src, i, below + [comp], e, below + [started, Selector(sel), StartMessage])
  {
    var id := [L.Token(L.Identifier, sel)];
    var rest := LT.SpaceTokens(gap) + [L.Token(L.StartMessage, "{")];
    assert id + LT.SpaceTokens(gap) + [L.Token(L.StartMessage, "{")] == id + rest;
    TokSplit(src, i, id, rest, i + 1);
    TokFirst(src, i, id);
    SkipToBody(src, i + 1, gap);
    SelectorOpens(src, i, below, comp, sel, e, started);
    PP.LoopIdentifier(src, i, below + [comp], e, below + [started, Selector(sel), StartMessage]);
  }

  /** Where a marker stands when it does not occur above that position. */
  lemma LastIndexAt(s: seq<Node>, x: Node, j: nat)
    requires j < |s| && s[j] == x && x !in s[j + 1..]
    ensures LastIndex(s, x) == j
  {
  }

  /** The `}` of a body stores the body in the table under its selector. */
  lemma CloseCaseStep(src: Source, i: nat, below: seq<Node>, comp: Node, sel: string, body: seq<Node>)
    requires i < |src.tokens| && src.tokens[i].kind.EndMessage?
    requires StartMessage !in body
    ensures Goes(src, i, below + [comp, Selector(sel), StartMessage] + body, i + 1, below + Attach(comp, sel, body))
  {
    var s := below + [comp, Selector(sel), StartMessage] + body;
    var j := |below| + 2;
    assert s[j] == StartMessage && s[j + 1..] == body;
    LastIndexAt(s, StartMessage, j);
    assert s[..j - 2] == below && s[j - 2] == comp && s[j - 1] == Selector(sel);
  }

  /** A case: its selector opens it, its body is pushed, and its `}`
      stores the body under the selector. */
  lemma CaseStep(src: Source, i: nat, c: LT.CaseText, below: seq<Node>, comp: Node, m: nat, filled: Node)
    requires LT.WellFormedCase(c)
    requires comp.Plural? || comp.Select?
    requires comp.Plural? ==> c.selector != "offset"
    requires TokAt(src, i, LT.CaseTokens(c)) && m == i + |LT.CaseTokens(c)|
    requires filled == WithCases(comp, Put(comp.cases, c.selector, BodyNodes(c.pieces)))
    ensures Goes(src, i, below + [comp], m, below + [filled])
  {
    var p1 := i + |LT.SpaceTokens(c.lead)|;
    var p2 := p1 + 2 + |LT.SpaceTokens(c.gap)|;
    var p3 := p2 + |LT.BodyTokens(c.pieces)|;
    var started := WithCases(comp, Put(comp.cases, c.selector, []));
    CaseTokAt(src, i, c, p1, p2, p3);
    CaseOpens(src, i, c, below, comp, p1, p2, started);
    CaseCloses(src, c, below, comp, p2, p3, m, started, BodyNodes(c.pieces), filled);
    Trans(src, i, below + [comp], p2, below + [started, Selector(c.selector), StartMessage], m, below + [filled]);
  }

  /** Blanks, the selector, blanks and `{`. */
  lemma CaseOpens(src: Source, i: nat, c: LT.CaseText, below: seq<Node>, comp: Node, p1: nat, p2: nat, started: Node)
    requires comp.Plural? || comp.Select?
    requires comp.Plural? ==> c.selector != "offset"
    requires p1 == i + |LT.SpaceTokens(c.lead)| && p2 == p1 + 2 + |LT.SpaceTokens(c.gap)|
    requires TokAt(src, i, LT.SpaceTokens(c.lead))
    requires TokAt(src, p1, [L.Token(L.Identifier, c.selector)] + LT.SpaceTokens(c.gap) + [L.Token(L.StartMessage, "{")])
    requires started == WithCases(comp, Put(comp.cases, c.selector, []))
    ensures Goes(src, i, below + [comp], p2, below + [started, Selector(c.selector), StartMessage])
  {
    SkipBlank(src, i, c.lead, below + [comp]);
    OpenCaseStep(src, p1, c.selector, c.gap, below, comp, p2, started);
    Trans(src, i, below + [comp], p1, below + [comp], p2, below + [started, Selector(c.selector), StartMessage]);
  }

  /** The body and its `}`. */
  lemma CaseCloses(src: Source, c: LT.CaseText, below: seq<Node>, comp: Node, p2: nat, p3: nat, e: nat,
                   started: Node, body: seq<Node>, filled: Node)
    requires LT.WellFormedCase(c)
    requires comp.Plural? || comp.Select?
    requires p3 == p2 + |LT.BodyTokens(c.pieces)| && e == p3 + 1
    requires TokAt(src, p2, LT.BodyTokens(c.pieces))
    requires p3 < |src.tokens| && src.tokens[p3].kind.EndMessage?
    requires body == BodyNodes(c.pieces)
    requires started == WithCases(comp, Put(comp.cases, c.selector, []))
    requires filled == WithCases(comp, Put(comp.cases, c.selector, body))
    ensures Goes(src, p2, below + [started, Selector(c.selector), StartMessage], e, below + [filled])
  {
    var s1 := below + [started, Selector(c.selector), StartMessage];
    PushBody(src, p2, c.pieces, s1, p3, s1 + body);
    BodyNodesUnmarked(c.pieces);
    CloseCaseStep(src, p3, below, started, c.selector, body);
    CaseAttach(below, comp, c.selector, body, started, filled);
    Trans(src, p2, s1, p3, s1 + body, e, below + [filled]);
  }

  /** Where the parts of a case stand. */
  lemma CaseTokAt(src: Source, i: nat, c: LT.CaseText, p1: nat, p2: nat, p3: nat)
    requires TokAt(src, i, LT.CaseTokens(c))
    requires p1 == i + |LT.SpaceTokens(c.lead)| && p2 == p1 + 2 + |LT.SpaceTokens(c.gap)|
    requires p3 == p2 + |LT.BodyTokens(c.pieces)|
    ensures TokAt(src, i, LT.SpaceTokens(c.lead))
    ensures TokAt(src, p1, [L.Token(L.Identifier, c.selector)] + LT.SpaceTokens(c.gap) + [L.Token(L.StartMessage, "{")])
    ensures TokAt(src, p2, LT.BodyTokens(c.pieces))
    ensures p3 < |src.tokens| && src.tokens[p3].kind.EndMessage?
    ensures p3 + 1 == i + |LT.CaseTokens(c)|
  {
    var head := [L.Token(L.Identifier, c.selector)] + LT.SpaceTokens(c.gap) + [L.Token(L.StartMessage, "{")];
    var em := [L.Token(L.EndMessage, "}")];
    assert LT.CaseTokens(c) == LT.SpaceTokens(c.lead) + head + LT.BodyTokens(c.pieces) + em;
    TokParts(src, i, LT.SpaceTokens(c.lead), head, LT.BodyTokens(c.pieces), em, p1, p2, p3);
    TokFirst(src, p3, em);
  }

  /** Storing the empty body and then the body is storing the body. */
  lemma CaseAttach(below: seq<Node>, comp: Node, sel: string, body: seq<Node>, started: Node, filled: Node)
    requires comp.Plural? || comp.Select?
    requires started == WithCases(comp, Put(comp.cases, sel, []))
    requires filled == WithCases(comp, Put(comp.cases, sel, body))
    ensures below + Attach(started, sel, body) == below + [filled]
  {
    PutTwice(comp.cases, sel, [], body);
  }

  lemma Chain4(src: Source, a: nat, s0: seq<Node>, b: nat, s1: seq<Node>, c: nat, s2: seq<Node>,
               d: nat, s3: seq<Node>, e: nat, s4: seq<Node>)
    requires Goes(src, a, s0, b, s1) && Goes(src, b, s1, c, s2) && Goes(src, c, s2, d, s3) && Goes(src, d, s3, e, s4)
    ensures Goes(src, a, s0, e, s4)
  {
  }

  /** The cases in order fill the table. The end position and the filled
      table are parameters, so the loop states carry no recursive terms. */
  lemma {:induction false} CasesStep(src: Source, i: nat, cs: seq<LT.CaseText>, below: seq<Node>, comp: Node,
                                     e: nat, table: seq<Case>)
    requires forall k :: 0 <= k < |cs| ==> LT.WellFormedCase(cs[k])
    requires comp.Plural? || comp.Select?
    requires comp.Plural? ==> forall k :: 0 <= k < |cs| ==> cs[k].selector != "offset"
    requires TokAt(src, i, LT.CasesTokens(cs))
    requires e == i + |LT.CasesTokens(cs)| && table == CaseTable(comp.cases, cs)
    ensures Goes(src, i, below + [comp], e, below + [WithCases(comp, table)])
    decreases |cs|
  {
    if |cs| == 0 {
      CasesNone(src, i, below, comp, e, table);
    } else {
      var m := i + |LT.CaseTokens(cs[0])|;
      var next := WithCases(comp, Put(comp.cases, cs[0].selector, BodyNodes(cs[0].pieces)));
      CasesFirst(src, i, cs, below, comp, m, next);
      CasesRest(comp, cs, next, table);
      CasesStep(src, m, cs[1..], below, next, e, table);
      CasesJoin(src, i, below, comp, m, next, e, WithCases(next, table), WithCases(comp, table));
    }
  }

  /** The first case, with the facts about its tokens kept inside. */
  lemma {:induction false} CasesFirst(src: Source, i: nat, cs: seq<LT.CaseText>, below: seq<Node>, comp: Node, m: nat, next: Node)
    requires |cs| > 0 && TokAt(src, i, LT.CasesTokens(cs)) && m == i + |LT.CaseTokens(cs[0])|
    requires forall k :: 0 <= k < |cs| ==> LT.WellFormedCase(cs[k])
    requires comp.Plural? || comp.Select?
    requires comp.Plural? ==> forall k :: 0 <= k < |cs| ==> cs[k].selector != "offset"
    requires next == WithCases(comp, Put(comp.cases, cs[0].selector, BodyNodes(cs[0].pieces)))
    ensures Goes(src, i, below + [comp], m, below + [next])
    ensures TokAt(src, m, LT.CasesTokens(cs[1..]))
    ensures m + |LT.CasesTokens(cs[1..])| == i + |LT.CasesTokens(cs)|
    ensures forall k :: 0 <= k < |cs| - 1 ==> LT.WellFormedCase(cs[1..][k])
    ensures comp.Plural? ==> forall k :: 0 <= k < |cs| - 1 ==> cs[1..][k].selector != "offset"
  {
    CasesHead(src, i, cs, m);
    CaseStep(src, i, cs[0], below, comp, m, next);
  }

  /** The table after the first case is filled by the rest. */
  lemma {:induction false} CasesRest(comp: Node, cs: seq<LT.CaseText>, next: Node, table: seq<Case>)
    requires |cs| > 0 && (comp.Plural? || comp.Select?)
    requires next == WithCases(comp, Put(comp.cases, cs[0].selector, BodyNodes(cs[0].pieces)))
    requires table == CaseTable(comp.cases, cs)
    ensures next.Plural? || next.Select?
    ensures table == CaseTable(next.cases, cs[1..])
    ensures WithCases(next, table) == WithCases(comp, table)
  {
  }

  lemma CasesJoin(src: Source, i: nat, below: seq<Node>, comp: Node, m: nat, next: Node, e: nat, r1: Node, r2: Node)
    requires Goes(src, i, below + [comp], m, below + [next]) && Goes(src, m, below + [next], e, below + [r1]) && r1 == r2
    ensures Goes(src, i, below + [comp], e, below + [r2])
  {
  }

  lemma CasesNone(src: Source, i: nat, below: seq<Node>, comp: Node, e: nat, table: seq<Case>)
    requires comp.Plural? || comp.Select?
    requires e == i + |LT.CasesTokens([])| && table == CaseTable(comp.cases, [])
    ensures Goes(src, i, below + [comp], e, below + [WithCases(comp, table)])
  {
    assert below + [WithCases(comp, table)] == below + [comp];
  }

  lemma CasesHead(src: Source, i: nat, cs: seq<LT.CaseText>, m: nat)
    requires |cs| > 0 && TokAt(src, i, LT.CasesTokens(cs)) && m == i + |LT.CaseTokens(cs[0])|
    requires forall k :: 0 <= k < |cs| ==> LT.WellFormedCase(cs[k])
    ensures TokAt(src, i, LT.CaseTokens(cs[0])) && TokAt(src, m, LT.CasesTokens(cs[1..]))
    ensures m + |LT.CasesTokens(cs[1..])| == i + |LT.CasesTokens(cs)|
    ensures LT.WellFormedCase(cs[0]) && forall k :: 0 <= k < |cs| - 1 ==> LT.WellFormedCase(cs[1..][k])
    ensures forall k :: 0 <= k < |cs| - 1 ==> cs[1..][k].selector == cs[k + 1].selector
  {
    TokSplit(src, i, LT.CaseTokens(cs[0]), LT.CasesTokens(cs[1..]), m);
    assert forall k :: 0 <= k < |cs| - 1 ==> cs[1..][k] == cs[k + 1];
  }

  // ---------------------------------------------------------------------
  // The header, the offset and the closing brace

  /** `{key, kind,`: a placeholder for the key, which the kind turns into
      its formatter. */
  lemma HeaderStep(src: Source, i: nat, t: LT.TableText, below: seq<Node>)
    requires TokAt(src, i, LT.HeaderTokens(t))
    ensures Goes(src, i, below, i + |LT.HeaderTokens(t)|, below + [StartAction, Formatter(t.key, t.kind)])
  {
    var k := i + 3 + |LT.SpaceTokens(t.blank)|;
    var s1 := below + [StartAction];
    var s2 := below + [StartAction, Placeholder(t.key)];
    var s3 := below + [StartAction, Formatter(t.key, t.kind)];
    HeaderTokAt(src, i, t, k);
    HeaderOpen(src, i, t.key, below);
    SkipDelim(src, i + 2, s2);
    SkipBlank(src, i + 3, t.blank, s2);
    KindStep(src, k, s1, t.key);
    assert s1 + [Placeholder(t.key)] == s2 && s1 + [Formatter(t.key, t.kind)] == s3;
    SkipDelim(src, k + 1, s3);
    Chain4(src, i, below, i + 2, s2, i + 3, s2, k, s2, k + 1, s3);
    Trans(src, i, below, k + 1, s3, k + 2, s3);
  }

  lemma HeaderTokAt(src: Source, i: nat, t: LT.TableText, k: nat)
    requires TokAt(src, i, LT.HeaderTokens(t)) && k == i + 3 + |LT.SpaceTokens(t.blank)|
    ensures TokAt(src, i + 3, LT.SpaceTokens(t.blank))
    ensures i + 2 < |src.tokens| && src.tokens[i] == L.Token(L.StartAction, "{")
    ensures src.tokens[i + 1].kind.Identifier? && src.tokens[i + 1].val == t.key && src.tokens[i + 2].kind.Delim?
    ensures k + 1 < |src.tokens| && src.tokens[k].kind.Identifier? && src.tokens[k].val == t.kind && src.tokens[k + 1].kind.Delim?
    ensures k + 2 == i + |LT.HeaderTokens(t)|
  {
    var sb := LT.SpaceTokens(t.blank);
    var open := [L.Token(L.StartAction, "{"), L.Token(L.Identifier, t.key), L.Token(L.Delim, ",")];
    var close := [L.Token(L.Identifier, t.kind), L.Token(L.Delim, ",")];
    assert LT.HeaderTokens(t) == open + sb + close + [];
    TokParts(src, i, open, sb, close, [], i + 3, k, k + 2);
    TokIndex(src, i, open, 0);
    TokIndex(src, i, open, 1);
    TokIndex(src, i, open, 2);
    TokIndex(src, k, close, 0);
    TokIndex(src, k, close, 1);
  }

  /** `{` and the key: a placeholder on top of the action marker. */
  lemma HeaderOpen(src: Source, i: nat, key: string, below: seq<Node>)
    requires i + 1 < |src.tokens| && src.tokens[i].kind.StartAction?
    requires src.tokens[i + 1].kind.Identifier? && src.tokens[i + 1].val == key
    ensures Goes(src, i, below, i + 2, below + [StartAction, Placeholder(key)])
  {
    var s1 := below + [StartAction];
    PP.LoopStartAction(src, i, below);
    PP.NameAfterStart(src, i + 1, below);
    assert s1 + [Placeholder(key)] == below + [StartAction, Placeholder(key)];
    PP.LoopIdentifier(src, i + 1, s1, i + 2, below + [StartAction, Placeholder(key)]);
  }

  /** The name after the key's comma picks the formatter. */
  lemma KindStep(src: Source, k: nat, below: seq<Node>, key: string)
    requires k < |src.tokens| && src.tokens[k].kind.Identifier?
    ensures Goes(src, k, below + [Placeholder(key)], k + 1, below + [Formatter(key, src.tokens[k].val)])
  {
    var stack := below + [Placeholder(key)];
    assert stack[..|stack| - 1] == below && stack[|stack| - 1] == Placeholder(key);
  }

  /** `offset` and the token after it store the offset in the plural-like
      node: the token is `:` with the digits, and its first rune is cut. */
  lemma OffsetStep(src: Source, i: nat, o: LT.OffsetText, below: seq<Node>, comp: Node)
    requires comp.Plural? && o.OffsetText?
    requires TokAt(src, i, LT.OffsetTokens(o))
    ensures Goes(src, i, below + [comp], i + |LT.OffsetTokens(o)|, below + [comp.(offset := OffsetValue(o))])
  {
    var k := i + |LT.SpaceTokens(o.blank)|;
    OffsetTokAt(src, i, o, k);
    SkipBlank(src, i, o.blank, below + [comp]);
    OffsetRead(src, k, below, comp, o.digits);
    OffsetDigits(o.digits);
    Trans(src, i, below + [comp], k, below + [comp], k + 2, below + [comp.(offset := OffsetValue(o))]);
  }

  lemma OffsetTokAt(src: Source, i: nat, o: LT.OffsetText, k: nat)
    requires o.OffsetText? && TokAt(src, i, LT.OffsetTokens(o)) && k == i + |LT.SpaceTokens(o.blank)|
    ensures TokAt(src, i, LT.SpaceTokens(o.blank))
    ensures k + 1 < |src.tokens| && src.tokens[k] == L.Token(L.Identifier, "offset")
    ensures src.tokens[k + 1] == L.Token(L.Identifier, ":" + o.digits)
    ensures k + 2 == i + |LT.OffsetTokens(o)|
  {
    var rest := [L.Token(L.Identifier, "offset"), L.Token(L.Identifier, ":" + o.digits)];
    assert LT.OffsetTokens(o) == LT.SpaceTokens(o.blank) + rest;
    TokSplit(src, i, LT.SpaceTokens(o.blank), rest, k);
    TokIndex(src, k, rest, 0);
    TokIndex(src, k, rest, 1);
  }

  /** `offset` on top of a plural-like node reads the next token's value. */
  lemma OffsetRead(src: Source, k: nat, below: seq<Node>, comp: Node, digits: string)
    requires comp.Plural?
    requires k + 1 < |src.tokens| && src.tokens[k] == L.Token(L.Identifier, "offset")
    requires src.tokens[k + 1] == L.Token(L.Identifier, ":" + digits)
    ensures Goes(src, k, below + [comp], k + 2, below + [comp.(offset := OffsetOf(":" + digits))])
  {
    var stack := below + [comp];
    assert stack[..|stack| - 1] == below && stack[|stack| - 1] == comp;
  }

  lemma OffsetDigits(digits: string)
    ensures OffsetOf(":" + digits) == Atoi(digits)
  {
    assert (":" + digits)[1..] == digits;
  }

  /** The `}` that closes the argument wraps the node in a message node. */
  lemma CloseTableStep(src: Source, i: nat, before: string, top: seq<Node>, comp: Node, done: seq<Node>)
    requires i < |src.tokens| && src.tokens[i].kind.EndAction?
    requires comp.Plural? || comp.Select?
    requires top == PP.TextNodes(before) + [StartAction] && done == PP.TextNodes(before) + [Message([comp])]
    ensures Goes(src, i, top + [comp], i + 1, done)
  {
    var s := top + [comp];
    var j := |PP.TextNodes(before)|;
    assert s[j] == StartAction && s[j + 1..] == [comp] && s[..j] == PP.TextNodes(before);
    assert StartAction !in s[..j];
    LastIndexAt(s, StartAction, j);
  }

  // ---------------------------------------------------------------------
  // The whole template

  /** Where the parts of the template's tokens stand. */
  lemma TablePositions(src: Source, t: LT.TableText, a: nat, h: nat, o: nat, c: nat, z: nat)
    requires src.tokens == LT.TableTokens(t)
    requires a == |LP.TextTokens(t.before)| && h == a + |LT.HeaderTokens(t)| && o == h + |LT.OffsetTokens(t.offset)|
    requires c == o + |LT.CasesTokens(t.cases)| && z == c + 1 + |LP.TextTokens(t.after)|
    ensures TokAt(src, 0, LP.TextTokens(t.before)) && TokAt(src, a, LT.HeaderTokens(t))
    ensures TokAt(src, h, LT.OffsetTokens(t.offset)) && TokAt(src, o, LT.CasesTokens(t.cases))
    ensures c < |src.tokens| && src.tokens[c].kind.EndAction?
    ensures TokAt(src, c + 1, LP.TextTokens(t.after))
    ensures z < |src.tokens| && src.tokens[z].kind.EOF?
  {
    var ea, eof := [L.Token(L.EndAction, "}")], [L.Token(L.EOF, "")];
    var tail := LT.CasesTokens(t.cases) + ea + LP.TextTokens(t.after) + eof;
    TableTokensSplit(t, tail);
    TokAll(src, 0);
    assert src.tokens[0..] == src.tokens;
    TokParts(src, 0, LP.TextTokens(t.before), LT.HeaderTokens(t), LT.OffsetTokens(t.offset), tail, a, h, o);
    TokParts(src, o, LT.CasesTokens(t.cases), ea, LP.TextTokens(t.after), eof, c, c + 1, z);
    TokFirst(src, c, ea);
    TokFirst(src, z, eof);
  }

  lemma TableTokensSplit(t: LT.TableText, tail: seq<L.Token>)
    requires tail == LT.CasesTokens(t.cases) + [L.Token(L.EndAction, "}")] + LP.TextTokens(t.after) + [L.Token(L.EOF, "")]
    ensures LT.TableTokens(t) == LP.TextTokens(t.before) + LT.HeaderTokens(t) + LT.OffsetTokens(t.offset) + tail
  {
  }

  /** The node the header and the offset leave on top of the action marker. */
  function Headed(t: LT.TableText): Node {
    var f := Formatter(t.key, t.kind);
    if t.offset.OffsetText? && f.Plural? then f.(offset := OffsetValue(t.offset)) else f
  }

  /** Filling the headed node's empty table with the cases gives the node of
      the argument. */
  lemma HeadedFilled(t: LT.TableText)
    requires Regular(t)
    ensures Headed(t).Plural? || Headed(t).Select?
    ensures Headed(t).cases == [] && (Headed(t).Plural? ==> t.kind != "select")
    ensures WithCases(Headed(t), CaseTable([], t.cases)) == TableNode(t)
  {
    if t.kind == "select" {
      assert Formatter(t.key, t.kind) == Select(t.key, []);
    } else if t.kind == "plural" {
      assert Formatter(t.key, t.kind) == Plural(Cardinal, t.key, 0, []);
    } else {
      assert Formatter(t.key, t.kind) == Plural(Ordinal, t.key, 0, []);
    }
  }

  /** The text before, the header and the offset. */
  lemma TableFront(src: Source, t: LT.TableText, a: nat, h: nat, o: nat, top: seq<Node>, hd: Node)
    requires Regular(t)
    requires a == |LP.TextTokens(t.before)| && h == a + |LT.HeaderTokens(t)| && o == h + |LT.OffsetTokens(t.offset)|
    requires TokAt(src, 0, LP.TextTokens(t.before)) && TokAt(src, a, LT.HeaderTokens(t))
    requires TokAt(src, h, LT.OffsetTokens(t.offset))
    requires top == PP.TextNodes(t.before) + [StartAction] && hd == Headed(t)
    ensures Goes(src, 0, [], o, top + [hd])
  {
    var f := Formatter(t.key, t.kind);
    TableHeader(src, t, a, h, top, f);
    TableOffset(src, t, h, o, top, f, hd);
    Trans(src, 0, [], h, top + [f], o, top + [hd]);
  }

  lemma TableHeader(src: Source, t: LT.TableText, a: nat, h: nat, top: seq<Node>, f: Node)
    requires a == |LP.TextTokens(t.before)| && h == a + |LT.HeaderTokens(t)|
    requires TokAt(src, 0, LP.TextTokens(t.before)) && TokAt(src, a, LT.HeaderTokens(t))
    requires top == PP.TextNodes(t.before) + [StartAction] && f == Formatter(t.key, t.kind)
    ensures Goes(src, 0, [], h, top + [f])
  {
    var b := PP.TextNodes(t.before);
    PushText(src, 0, t.before, []);
    Rewrite(src, 0, [], a, [] + b, a, b);
    HeaderStep(src, a, t, b);
    Rewrite(src, a, b, h, b + [StartAction, Formatter(t.key, t.kind)], h, top + [f]);
    Trans(src, 0, [], a, b, h, top + [f]);
  }

  lemma TableOffset(src: Source, t: LT.TableText, h: nat, o: nat, top: seq<Node>, f: Node, hd: Node)
    requires Regular(t)
    requires o == h + |LT.OffsetTokens(t.offset)| && TokAt(src, h, LT.OffsetTokens(t.offset))
    requires f == Formatter(t.key, t.kind) && hd == Headed(t)
    ensures Goes(src, h, top + [f], o, top + [hd])
  {
    if t.offset.OffsetText? {
      OffsetStep(src, h, t.offset, top, f);
    }
  }

  /** The cases, the closing brace, the text after and the end. */
  lemma TableBack(src: Source, t: LT.TableText, o: nat, c: nat, z: nat, top: seq<Node>, hd: Node, n: Node, done: seq<Node>)
    requires Regular(t)
    requires c == o + |LT.CasesTokens(t.cases)| && z == c + 1 + |LP.TextTokens(t.after)|
    requires TokAt(src, o, LT.CasesTokens(t.cases))
    requires c < |src.tokens| && src.tokens[c].kind.EndAction?
    requires TokAt(src, c + 1, LP.TextTokens(t.after))
    requires z < |src.tokens| && src.tokens[z].kind.EOF?
    requires top == PP.TextNodes(t.before) + [StartAction] && hd == Headed(t) && n == TableNode(t)
    requires done == PP.TextNodes(t.before) + [Message([n])]
    ensures Goes(src, o, top + [hd], z, done + PP.TextNodes(t.after))
  {
    TableCases(src, t, o, c, top, hd, n);
    TableClose(src, t, c, z, top, n, done);
    Trans(src, o, top + [hd], c, top + [n], z, done + PP.TextNodes(t.after));
  }

  lemma TableCases(src: Source, t: LT.TableText, o: nat, c: nat, top: seq<Node>, hd: Node, n: Node)
    requires Regular(t)
    requires c == o + |LT.CasesTokens(t.cases)| && TokAt(src, o, LT.CasesTokens(t.cases))
    requires hd == Headed(t) && n == TableNode(t)
    ensures Goes(src, o, top + [hd], c, top + [n])
  {
    var table := CaseTable([], t.cases);
    HeadedFilled(t);
    CasesStep(src, o, t.cases, top, hd, c, table);
    Rewrite(src, o, top + [hd], c, top + [WithCases(hd, table)], c, top + [n]);
  }

  lemma TableClose(src: Source, t: LT.TableText, c: nat, z: nat, top: seq<Node>, n: Node, done: seq<Node>)
    requires z == c + 1 + |LP.TextTokens(t.after)|
    requires c < |src.tokens| && src.tokens[c].kind.EndAction?
    requires TokAt(src, c + 1, LP.TextTokens(t.after))
    requires n.Plural? || n.Select?
    requires top == PP.TextNodes(t.before) + [StartAction] && done == PP.TextNodes(t.before) + [Message([n])]
    ensures Goes(src, c, top + [n], z, done + PP.TextNodes(t.after))
  {
    CloseTableStep(src, c, t.before, top, n, done);
    PushText(src, c + 1, t.after, done);
    Trans(src, c, top + [n], c + 1, done, z, done + PP.TextNodes(t.after));
  }

  /** At EOF the loop returns the stack. */
  lemma LoopEnd(src: Source, z: nat, stack: seq<Node>)
    requires z < |src.tokens| && src.tokens[z].kind.EOF?
    ensures Loop(src, z, stack) == Returned(stack)
  {
  }

  lemma Chain3(src: Source, a: nat, s0: seq<Node>, b: nat, s1: seq<Node>, c: nat, s2: seq<Node>, d: nat, s3: seq<Node>)
    requires Goes(src, a, s0, b, s1) && Goes(src, b, s1, c, s2) && Goes(src, c, s2, d, s3)
    ensures Goes(src, a, s0, d, s3)
  {
  }

  /** The parser's main loop over the tokens of such a template returns the
      text before, one message node holding the argument's node, and the
      text after. */
  lemma TableLoop(src: Source, t: LT.TableText)
    requires Regular(t) && src.tokens == LT.TableTokens(t)
    ensures Loop(src, 0, []) == Returned(PP.TextNodes(t.before) + [Message([TableNode(t)])] + PP.TextNodes(t.after))
  {
    var a := |LP.TextTokens(t.before)|;
    var h := a + |LT.HeaderTokens(t)|;
    var o := h + |LT.OffsetTokens(t.offset)|;
    var c := o + |LT.CasesTokens(t.cases)|;
    var z := c + 1 + |LP.TextTokens(t.after)|;
    var top := PP.TextNodes(t.before) + [StartAction];
    var hd, n := Headed(t), TableNode(t);
    var done := PP.TextNodes(t.before) + [Message([n])];
    TablePositions(src, t, a, h, o, c, z);
    TableFront(src, t, a, h, o, top, hd);
    TableBack(src, t, o, c, z, top, hd, n, done);
    LoopEnd(src, z, done + PP.TextNodes(t.after));
    Trans(src, 0, [], o, top + [hd], z, done + PP.TextNodes(t.after));
  }

  /** Parsing such a template, lexer included, gives the text before, one
      message node holding the argument's node, and the text after. */
  lemma TableParses(t: LT.TableText)
    requires Regular(t)
    ensures ParseTemplate(LT.TableSource(t)) == Returned(PP.TextNodes(t.before) + [Message([TableNode(t)])] + PP.TextNodes(t.after))
  {
    LT.TableLexes(t);
    TableLoop(SourceOf(L.Lex(LT.TableSource(t))), t);
  }
}
