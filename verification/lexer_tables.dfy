/** How the lexer splits a plural, selectordinal or select argument whose
    case bodies hold only plain text and `#`: the header `{key, kind,`, an
    optional `offset:n`, the cases `selector {body}`, and the closing `}`. */
module LexerTables {
  import GoStrings
  import opened Lexer
  import opened LexerProperties

  // ---------------------------------------------------------------------
  // The shape of such a template

  /** Runs of spaces and tabs between the parts of an argument. */
  predicate Blank(s: string) {
    forall j :: 0 <= j < |s| ==> IsSpace(s[j])
  }

  /** The Space token of a run of blanks, if the run is not empty. */
  function SpaceTokens(s: string): seq<Token> {
    if |s| > 0 then [Token(Space, s)] else []
  }

  predicate PlainPieces(pieces: seq<string>) {
    forall i :: 0 <= i < |pieces| ==> PlainPiece(pieces[i])
  }

  /** A case body: plain pieces separated by `#`, then the closing `}`. */
  function BodyTokens(pieces: seq<string>): seq<Token> {
    if |pieces| == 0 then []
    else if |pieces| == 1 then TextTokens(pieces[0])
    else TextTokens(pieces[0]) + [Token(Hash, "#")] + BodyTokens(pieces[1..])
  }

  /** One case as written: blanks, the selector, blanks, and the body in
      braces, its pieces joined by `#`. */
  datatype CaseText = CaseText(lead: string, selector: string, gap: string, pieces: seq<string>)

  predicate WellFormedCase(c: CaseText) {
    Blank(c.lead) && IsName(c.selector) && Blank(c.gap) && |c.pieces| > 0 && PlainPieces(c.pieces)
  }

  function CaseSource(c: CaseText): string {
    c.lead + c.selector + c.gap + "{" + GoStrings.Join(c.pieces, "#") + "}"
  }

  function CaseTokens(c: CaseText): seq<Token> {
    SpaceTokens(c.lead) + [Token(Identifier, c.selector)] + SpaceTokens(c.gap)
      + [Token(StartMessage, "{")] + BodyTokens(c.pieces) + [Token(EndMessage, "}")]
  }

  /** The tokens of a case up to the `{` of its body. */
  function CaseHeadTokens(c: CaseText): seq<Token> {
    SpaceTokens(c.lead) + [Token(Identifier, c.selector)] + SpaceTokens(c.gap)
  }

  function CasesSource(cs: seq<CaseText>): string {
    if |cs| == 0 then "" else CaseSource(cs[0]) + CasesSource(cs[1..])
  }

  function CasesTokens(cs: seq<CaseText>): seq<Token> {
    if |cs| == 0 then [] else CaseTokens(cs[0]) + CasesTokens(cs[1..])
  }

  /** The optional `offset:n` clause of a plural-like argument, after blanks. */
  datatype OffsetText = NoOffset | OffsetText(blank: string, digits: string)

  predicate WellFormedOffset(o: OffsetText) {
    o.OffsetText? ==> Blank(o.blank) && IsName(o.digits)
  }

  function OffsetSource(o: OffsetText): string {
    if o.NoOffset? then "" else o.blank + "offset:" + o.digits
  }

  /** The lexer sends the `:` together with the digits: in action mode a
      rune that is neither a name rune, a blank nor a delimiter is skipped
      without starting a new token. */
  function OffsetTokens(o: OffsetText): seq<Token> {
    if o.NoOffset? then [] else SpaceTokens(o.blank) + [Token(Identifier, "offset")] + [Token(Identifier, ":" + o.digits)]
  }

  /** A template made of plain text, one such argument, and plain text. */
  datatype TableText = TableText(
    before: string, key: string, blank: string, kind: string,
    offset: OffsetText, cases: seq<CaseText>, after: string)

  predicate WellFormedTable(t: TableText) {
    && PlainPiece(t.before) && IsName(t.key) && Blank(t.blank) && IsName(t.kind)
    && WellFormedOffset(t.offset)
    && (t.offset.OffsetText? && |t.cases| > 0 ==> |t.cases[0].lead| > 0)
    && (forall i :: 0 <= i < |t.cases| ==> WellFormedCase(t.cases[i]))
    && Plain(t.after)
  }

  function HeaderSource(t: TableText): string {
    "{" + t.key + "," + t.blank + t.kind + ","
  }

  function HeaderTokens(t: TableText): seq<Token> {
    [Token(StartAction, "{")] + [Token(Identifier, t.key)] + [Token(Delim, ",")] + SpaceTokens(t.blank)
      + [Token(Identifier, t.kind)] + [Token(Delim, ",")]
  }

  function TableSource(t: TableText): string {
    t.before + HeaderSource(t) + OffsetSource(t.offset) + CasesSource(t.cases) + "}" + t.after
  }

  function TableTokens(t: TableText): seq<Token> {
    TextTokens(t.before) + HeaderTokens(t) + OffsetTokens(t.offset) + CasesTokens(t.cases)
      + [Token(EndAction, "}")] + TextTokens(t.after) + [Token(EOF, "")]
  }

  // ---------------------------------------------------------------------
  // Positions

  /** Running from `l` having sent `acc` ends as running from `l2` having
      sent `acc2` does. */
  predicate Reaches(input: string, l: Lexer, acc: seq<Token>, l2: Lexer, acc2: seq<Token>)
    requires Valid(input, l) && Valid(input, l2)
  {
    Run(input, l, acc) == Run(input, l2, acc2)
  }

  lemma Trans(input: string, l0: Lexer, a0: seq<Token>, l1: Lexer, a1: seq<Token>, l2: Lexer, a2: seq<Token>)
    requires Valid(input, l0) && Valid(input, l1) && Valid(input, l2)
    requires Reaches(input, l0, a0, l1, a1) && Reaches(input, l1, a1, l2, a2)
    ensures Reaches(input, l0, a0, l2, a2)
  {
  }

  lemma Rewrite(input: string, l0: Lexer, a0: seq<Token>, l1: Lexer, a1: seq<Token>, l2: Lexer, a2: seq<Token>)
    requires Valid(input, l0) && Valid(input, l1) && l1 == l2 && a1 == a2
    requires Reaches(input, l0, a0, l1, a1)
    ensures Reaches(input, l0, a0, l2, a2)
  {
  }

  /** Two runs one after the other. */
  lemma Then(input: string, l0: Lexer, l1: Lexer, l2: Lexer, acc: seq<Token>, t0: seq<Token>, t1: seq<Token>, t: seq<Token>)
    requires Valid(input, l0) && Valid(input, l1) && Valid(input, l2)
    requires Reaches(input, l0, acc, l1, acc + t0) && Reaches(input, l1, acc + t0, l2, acc + t0 + t1)
    requires t == t0 + t1
    ensures Reaches(input, l0, acc, l2, acc + t)
  {
    Assoc(acc, t0, t1);
  }

  /** Three runs one after the other. */
  lemma Chain3(input: string, l0: Lexer, l1: Lexer, l2: Lexer, l3: Lexer, acc: seq<Token>,
               a: seq<Token>, b: seq<Token>, c: seq<Token>, t: seq<Token>)
    requires Valid(input, l0) && Valid(input, l1) && Valid(input, l2) && Valid(input, l3)
    requires Reaches(input, l0, acc, l1, acc + a) && Reaches(input, l1, acc + a, l2, acc + a + b)
    requires Reaches(input, l2, acc + a + b, l3, acc + a + b + c)
    requires t == a + b + c
    ensures Reaches(input, l0, acc, l3, acc + t)
  {
    Then(input, l0, l1, l2, acc, a, b, a + b);
    Assoc(acc, a, b);
    Then(input, l0, l2, l3, acc, a + b, c, t);
  }

  /** `s` stands at `p` in `input`. */
  predicate At(input: string, p: nat, s: string) {
    p + |s| <= |input| && forall j :: 0 <= j < |s| ==> input[p + j] == s[j]
  }

  lemma AtSlice(input: string, p: nat, s: string)
    requires At(input, p, s)
    ensures input[p..p + |s|] == s
  {
  }

  lemma AtSplit(input: string, p: nat, x: string, y: string)
    requires At(input, p, x + y)
    ensures At(input, p, x) && At(input, p + |x|, y)
  {
    forall j | 0 <= j < |x| ensures input[p + j] == x[j] {
      assert (x + y)[j] == x[j];
    }
    forall j | 0 <= j < |y| ensures input[p + |x| + j] == y[j] {
      assert (x + y)[|x| + j] == y[j];
    }
  }

  lemma AtFirst(input: string, p: nat, s: string)
    requires At(input, p, s) && |s| > 0
    ensures p < |input| && input[p] == s[0]
  {
    assert input[p + 0] == s[0];
  }

  lemma AtName(input: string, p: nat, k: string)
    requires At(input, p, k) && IsName(k)
    ensures forall j :: p <= j < p + |k| ==> IsAlphaNumeric(input[j])
  {
    forall j | p <= j < p + |k| ensures IsAlphaNumeric(input[j]) {
      assert input[p + (j - p)] == k[j - p];
    }
  }

  // ---------------------------------------------------------------------
  // Action mode

  /** A run of blanks, ended by any other rune, is one Space token. */
  lemma BlankSpan(input: string, p: nat, s: string, d: int, acc: seq<Token>)
    requires At(input, p, s) && Blank(s) && p + |s| < |input| && !IsSpace(input[p + |s|])
    ensures Reaches(input, Lexer(Action, p, p, d), acc,
      Lexer(Action, p + |s|, p + |s|, d), acc + SpaceTokens(s))
  {
    if |s| == 0 {
      assert acc + [] == acc;
    } else {
      var q := p + |s|;
      var l := Lexer(Action, p, p, d);
      AtFirst(input, p, s);
      StepProgress(input, l);
      var l1 := Lexer(Spaces, p + 1, p, d);
      assert Step(input, l) == Next(l1, []);
      assert acc + [] == acc;
      forall j | p + 1 <= j < q ensures IsSpace(input[j]) {
        assert input[p + (j - p)] == s[j - p];
      }
      assert SkipSpaces(input, p + 1) == q;
      AtSlice(input, p, s);
      StepProgress(input, l1);
      assert Step(input, l1) == Next(Lexer(Action, q, q, d), [Token(Space, s)]);
    }
  }

  /** A comma is one Delim token. */
  lemma CommaSpan(input: string, p: nat, d: int, acc: seq<Token>)
    requires p < |input| && input[p] == ','
    ensures Reaches(input, Lexer(Action, p, p, d), acc,
      Lexer(Action, p + 1, p + 1, d), acc + [Token(Delim, ",")])
  {
    var l := Lexer(Action, p, p, d);
    StepProgress(input, l);
    assert Step(input, l) == Next(Lexer(Comma, p, p, d), []);
    assert acc + [] == acc;
    StepProgress(input, Lexer(Comma, p, p, d));
    assert input[p..p + 1] == ",";
  }

  /** A name, ended by a rune that is not a name rune, is one Identifier. */
  lemma NameSpan(input: string, p: nat, k: string, d: int, acc: seq<Token>)
    requires At(input, p, k) && IsName(k) && p + |k| < |input| && !IsAlphaNumeric(input[p + |k|])
    ensures Reaches(input, Lexer(Action, p, p, d), acc,
      Lexer(Action, p + |k|, p + |k|, d), acc + [Token(Identifier, k)])
  {
    AtName(input, p, k);
    AtSlice(input, p, k);
    IdentifierSpan(input, p, p + |k|, d, acc);
  }

  /** A `:` followed by a name: the `:` is skipped but stays in the value. */
  lemma ColonSpan(input: string, p: nat, k: string, d: int, acc: seq<Token>)
    requires p < |input| && input[p] == ':'
    requires At(input, p + 1, k) && IsName(k) && p + 1 + |k| < |input| && !IsAlphaNumeric(input[p + 1 + |k|])
    ensures Reaches(input, Lexer(Action, p, p, d), acc,
      Lexer(Action, p + 1 + |k|, p + 1 + |k|, d), acc + [Token(Identifier, ":" + k)])
  {
    var e := p + 1 + |k|;
    AtName(input, p + 1, k);
    AtSlice(input, p + 1, k);
    assert input[p..e] == ":" + k;
    assert p < p + 2 <= e < |input| && !IsAlphaNumeric(input[e]);
    assert forall j :: p + 2 <= j < e ==> IsAlphaNumeric(input[j]);
    ColonSkip(input, p, d, acc);
    IdentRun(input, p, p + 2, e, d, acc);
  }

  /** A `:` in action mode is skipped; the name rune after it starts an
      identifier whose value begins at the `:`. */
  lemma ColonSkip(input: string, p: nat, d: int, acc: seq<Token>)
    requires p + 1 < |input| && input[p] == ':' && IsAlphaNumeric(input[p + 1])
    ensures Run(input, Lexer(Action, p, p, d), acc) == Run(input, Lexer(Ident, p + 2, p, d), acc)
  {
    var l := Lexer(Action, p, p, d);
    StepProgress(input, l);
    assert Step(input, l) == Next(Lexer(Action, p + 1, p, d), []);
    var l1 := Lexer(Action, p + 1, p, d);
    StepProgress(input, l1);
    assert Step(input, l1) == Next(Lexer(Ident, p + 2, p, d), []);
    assert acc + [] + [] == acc;
  }

  // ---------------------------------------------------------------------
  // Case bodies

  /** A `{` in action mode at depth 1 opens a case body in message mode. */
  lemma OpenBodySpan(input: string, p: nat, acc: seq<Token>)
    requires p < |input| && input[p] == '{'
    ensures Reaches(input, Lexer(Action, p, p, 1), acc,
      Lexer(Message, p + 1, p + 1, 2), acc + [Token(StartMessage, "{")])
  {
    var l := Lexer(Action, p, p, 1);
    StepProgress(input, l);
    assert Step(input, l) == Next(Lexer(LeftDelim, p, p, 1), []);
    assert acc + [] == acc;
    StepProgress(input, Lexer(LeftDelim, p, p, 1));
    assert !Odd(2);
    assert input[p..p + 1] == "{";
  }

  /** The `}` that ends a case body flushes the pending text and returns to
      action mode. */
  lemma CloseBodySpan(input: string, q: nat, st: nat, acc: seq<Token>)
    requires st <= q < |input| && input[q] == '}'
    ensures Reaches(input, Lexer(Message, q, st, 2), acc,
      Lexer(Action, q + 1, q + 1, 1), acc + TextTokens(input[st..q]) + [Token(EndMessage, "}")])
  {
    var l := Lexer(Message, q, st, 2);
    StepProgress(input, l);
    var l1 := Lexer(RightDelim, q, q, 2);
    assert Step(input, l) == Next(l1, TextTokens(input[st..q]));
    StepProgress(input, l1);
    assert Odd(1);
    assert input[q..q + 1] == "}";
  }

  /** A `#` in a case body flushes the pending text and is one Hash token. */
  lemma HashSpan(input: string, q: nat, st: nat, acc: seq<Token>)
    requires st <= q < |input| && input[q] == '#'
    ensures Reaches(input, Lexer(Message, q, st, 2), acc,
      Lexer(Message, q + 1, q + 1, 2), acc + TextTokens(input[st..q]) + [Token(Hash, "#")])
  {
    var l := Lexer(Message, q, st, 2);
    StepProgress(input, l);
    assert input[q..q + 1] == "#";
    assert FlushText(input, l) == TextTokens(input[st..q]);
    var out := TextTokens(input[st..q]) + [Token(Hash, "#")];
    assert Step(input, l) == Next(Lexer(Message, q + 1, q + 1, 2), out);
    assert acc + out == acc + TextTokens(input[st..q]) + [Token(Hash, "#")];
  }

  /** A plain piece at the start of a body is read on without a token. */
  lemma PieceSpan(input: string, p: nat, x: string, acc: seq<Token>)
    requires At(input, p, x) && PlainPiece(x)
    ensures Reaches(input, Lexer(Message, p, p, 2), acc, Lexer(Message, p + |x|, p, 2), acc)
    ensures input[p..p + |x|] == x
  {
    AtSlice(input, p, x);
    PlainPieceBetween(input, x, p);
    TextSpan(input, p, p + |x|, p, 2, acc);
  }

  /** The pieces of a body stand one after the other from `p`, separated by
      `#` and followed by the closing `}`. */
  predicate BodyFit(input: string, p: nat, pieces: seq<string>)
    decreases |pieces|
  {
    && |pieces| > 0 && PlainPiece(pieces[0])
    && p + |GoStrings.Join(pieces, "#")| < |input|
    && (if |pieces| == 1 then At(input, p, pieces[0] + "}")
        else
          && At(input, p, pieces[0]) && input[p + |pieces[0]|] == '#'
          && BodyFit(input, p + |pieces[0]| + 1, pieces[1..]))
  }

  /** Where a body that starts at `p` ends, after its `}`. */
  function BodyEnd(p: nat, pieces: seq<string>): nat {
    p + |GoStrings.Join(pieces, "#")| + 1
  }

  /** Lexing a body from `p` in message mode ends in action mode after its
      `}`, having sent its tokens. */
  predicate BodyReach(input: string, p: nat, pieces: seq<string>, acc: seq<Token>)
    requires BodyEnd(p, pieces) <= |input|
  {
    var e := BodyEnd(p, pieces);
    Reaches(input, Lexer(Message, p, p, 2), acc, Lexer(Action, e, e, 1), acc + (BodyTokens(pieces) + [Token(EndMessage, "}")]))
  }

  /** A body: its pieces and `#`s, then the closing `}`. */
  lemma {:induction false} BodySpan(input: string, p: nat, pieces: seq<string>, acc: seq<Token>)
    requires BodyFit(input, p, pieces)
    ensures BodyReach(input, p, pieces, acc)
    decreases |pieces|
  {
    if |pieces| == 1 {
      BodyOne(input, p, pieces, acc);
    } else {
      var x := pieces[0];
      var acc1 := acc + (TextTokens(x) + [Token(Hash, "#")]);
      BodyFirst(input, p, pieces, acc);
      BodySpan(input, p + |x| + 1, pieces[1..], acc1);
      BodyJoin(input, p, pieces, acc);
    }
  }

  /** A body of one piece. */
  lemma BodyOne(input: string, p: nat, pieces: seq<string>, acc: seq<Token>)
    requires |pieces| == 1 && BodyFit(input, p, pieces)
    ensures BodyReach(input, p, pieces, acc)
  {
    BodySingle(pieces);
    BodyLast(input, p, pieces[0], acc);
    Assoc(acc, TextTokens(pieces[0]), [Token(EndMessage, "}")]);
  }

  /** The first of several pieces and its `#`. */
  lemma BodyFirst(input: string, p: nat, pieces: seq<string>, acc: seq<Token>)
    requires |pieces| > 1 && BodyFit(input, p, pieces)
    ensures var m := p + |pieces[0]| + 1;
      && BodyEnd(m, pieces[1..]) <= |input|
      && BodyFit(input, m, pieces[1..])
      && Reaches(input, Lexer(Message, p, p, 2), acc, Lexer(Message, m, m, 2), acc + (TextTokens(pieces[0]) + [Token(Hash, "#")]))
  {
    var x := pieces[0];
    BodySplit(pieces);
    BodyHead(input, p, x, acc);
    Assoc(acc, TextTokens(x), [Token(Hash, "#")]);
  }

  /** A body of several pieces: the first piece and its `#`, then the rest. */
  lemma BodyJoin(input: string, p: nat, pieces: seq<string>, acc: seq<Token>)
    requires |pieces| > 1 && BodyEnd(p, pieces) <= |input|
    requires var m := p + |pieces[0]| + 1; var t0 := TextTokens(pieces[0]) + [Token(Hash, "#")];
      && BodyEnd(m, pieces[1..]) <= |input|
      && Reaches(input, Lexer(Message, p, p, 2), acc, Lexer(Message, m, m, 2), acc + t0)
      && BodyReach(input, m, pieces[1..], acc + t0)
    ensures BodyReach(input, p, pieces, acc)
  {
    var x, rest := pieces[0], pieces[1..];
    var m := p + |x| + 1;
    var e, e1 := BodyEnd(p, pieces), BodyEnd(m, rest);
    var t0, t1 := TextTokens(x) + [Token(Hash, "#")], BodyTokens(rest) + [Token(EndMessage, "}")];
    var t := BodyTokens(pieces) + [Token(EndMessage, "}")];
    BodySplit(pieces);
    assert e == e1;
    Then(input, Lexer(Message, p, p, 2), Lexer(Message, m, m, 2), Lexer(Action, e1, e1, 1), acc, t0, t1, t);
    Rewrite(input, Lexer(Message, p, p, 2), acc, Lexer(Action, e1, e1, 1), acc + t, Lexer(Action, e, e, 1), acc + t);
  }

  /** A body written out in a row fits where it stands. */
  lemma {:induction false} BodyFitAt(input: string, p: nat, pieces: seq<string>)
    requires |pieces| > 0 && PlainPieces(pieces)
    requires At(input, p, GoStrings.Join(pieces, "#") + "}")
    ensures BodyFit(input, p, pieces)
    decreases |pieces|
  {
    if |pieces| == 1 {
      BodySingle(pieces);
    } else {
      BodyAt(input, p, pieces);
      BodyFitAt(input, p + |pieces[0]| + 1, pieces[1..]);
    }
  }

  /** Where the first piece, its `#` and the rest of a body stand. */
  lemma BodyAt(input: string, p: nat, pieces: seq<string>)
    requires |pieces| > 1 && PlainPieces(pieces)
    requires At(input, p, GoStrings.Join(pieces, "#") + "}")
    ensures var x, rest := pieces[0], pieces[1..];
      && PlainPiece(x) && At(input, p, x) && p + |x| < |input| && input[p + |x|] == '#'
      && |rest| > 0 && PlainPieces(rest) && At(input, p + |x| + 1, GoStrings.Join(rest, "#") + "}")
      && |GoStrings.Join(pieces, "#")| == |x| + 1 + |GoStrings.Join(rest, "#")|
  {
    var x, rest := pieces[0], pieces[1..];
    var tail := GoStrings.Join(rest, "#") + "}";
    BodyParts(pieces);
    AtSplit(input, p, x, "#" + tail);
    AtSplit(input, p + |x|, "#", tail);
    AtFirst(input, p + |x|, "#");
  }

  /** The length and the tokens of a body of several pieces, split after the
      first piece and its `#`. */
  lemma BodySplit(pieces: seq<string>)
    requires |pieces| > 1
    ensures |GoStrings.Join(pieces, "#")| == |pieces[0]| + 1 + |GoStrings.Join(pieces[1..], "#")|
    ensures BodyTokens(pieces) + [Token(EndMessage, "}")] ==
      TextTokens(pieces[0]) + [Token(Hash, "#")] + (BodyTokens(pieces[1..]) + [Token(EndMessage, "}")])
  {
    var t, h, b := TextTokens(pieces[0]), [Token(Hash, "#")], BodyTokens(pieces[1..]);
    assert BodyTokens(pieces) == t + h + b;
    Assoc(t + h, b, [Token(EndMessage, "}")]);
  }

  lemma BodySingle(pieces: seq<string>)
    requires |pieces| == 1 && PlainPieces(pieces)
    ensures PlainPiece(pieces[0]) && GoStrings.Join(pieces, "#") == pieces[0] && BodyTokens(pieces) == TextTokens(pieces[0])
  {
  }

  lemma BodyLast(input: string, p: nat, x: string, acc: seq<Token>)
    requires PlainPiece(x) && At(input, p, x + "}")
    ensures Reaches(input, Lexer(Message, p, p, 2), acc,
      Lexer(Action, p + |x| + 1, p + |x| + 1, 1), acc + TextTokens(x) + [Token(EndMessage, "}")])
  {
    AtSplit(input, p, x, "}");
    AtFirst(input, p + |x|, "}");
    PieceSpan(input, p, x, acc);
    CloseBodySpan(input, p + |x|, p, acc);
  }

  /** A piece followed by `#`. */
  lemma BodyHead(input: string, p: nat, x: string, acc: seq<Token>)
    requires PlainPiece(x) && At(input, p, x) && p + |x| < |input| && input[p + |x|] == '#'
    ensures Reaches(input, Lexer(Message, p, p, 2), acc,
      Lexer(Message, p + |x| + 1, p + |x| + 1, 2), acc + TextTokens(x) + [Token(Hash, "#")])
  {
    PieceSpan(input, p, x, acc);
    HashSpan(input, p + |x|, p, acc);
  }

  lemma BodyParts(pieces: seq<string>)
    requires |pieces| > 1 && PlainPieces(pieces)
    ensures var x, rest := pieces[0], pieces[1..];
      && PlainPiece(x) && |rest| > 0 && PlainPieces(rest)
      && GoStrings.Join(pieces, "#") + "}" == x + ("#" + (GoStrings.Join(rest, "#") + "}"))
      && |GoStrings.Join(pieces, "#")| == |x| + 1 + |GoStrings.Join(rest, "#")|
  {
    var x, rest := pieces[0], pieces[1..];
    forall i | 0 <= i < |rest| ensures PlainPiece(rest[i]) {
      assert rest[i] == pieces[i + 1];
    }
    var j := GoStrings.Join(rest, "#");
    assert GoStrings.Join(pieces, "#") == x + "#" + j;
    Assoc(x + "#", j, "}");
    Assoc(x, "#", j + "}");
  }

  lemma Assoc<T>(a: seq<T>, b: seq<T>, c: seq<T>)
    ensures a + b + c == a + (b + c)
  {
  }

  // ---------------------------------------------------------------------
  // Cases

  /** Where the parts of a case stand. */
  lemma CaseAt(input: string, p: nat, c: CaseText)
    requires At(input, p, CaseSource(c))
    ensures var p1 := p + |c.lead|; var p2 := p1 + |c.selector|; var q := p2 + |c.gap|;
      && At(input, p, c.lead) && At(input, p1, c.selector) && At(input, p2, c.gap)
      && q < |input| && input[q] == '{' && At(input, q + 1, GoStrings.Join(c.pieces, "#") + "}")
      && |CaseSource(c)| == q + 1 + |GoStrings.Join(c.pieces, "#")| + 1 - p
  {
    var p1 := p + |c.lead|;
    var p2 := p1 + |c.selector|;
    var q := p2 + |c.gap|;
    var body := GoStrings.Join(c.pieces, "#") + "}";
    var x := c.lead + c.selector + c.gap + "{";
    assert CaseSource(c) == x + body;
    AtSplit(input, p, x, body);
    AtSplit(input, p, c.lead + c.selector + c.gap, "{");
    AtSplit(input, p, c.lead + c.selector, c.gap);
    AtSplit(input, p, c.lead, c.selector);
    AtFirst(input, q, "{");
  }

  /** Blanks, the selector and blanks, up to the body's `{`. */
  lemma CaseHead(input: string, p: nat, c: CaseText, acc: seq<Token>)
    requires WellFormedCase(c)
    requires var p1 := p + |c.lead|; var p2 := p1 + |c.selector|; var q := p2 + |c.gap|;
      && At(input, p, c.lead) && At(input, p1, c.selector) && At(input, p2, c.gap)
      && q < |input| && input[q] == '{'
    ensures var q := p + |c.lead| + |c.selector| + |c.gap|;
      Reaches(input, Lexer(Action, p, p, 1), acc,
      Lexer(Action, q, q, 1), acc + SpaceTokens(c.lead) + [Token(Identifier, c.selector)] + SpaceTokens(c.gap))
  {
    var p1 := p + |c.lead|;
    var p2 := p1 + |c.selector|;
    var q := p2 + |c.gap|;
    NameStarts(input, p1, c.selector);
    GapEnds(input, p2, c.gap);
    assert At(input, p, c.lead) && Blank(c.lead) && p1 < |input| && !IsSpace(input[p1]);
    assert At(input, p1, c.selector) && IsName(c.selector) && p2 < |input| && !IsAlphaNumeric(input[p2]);
    assert At(input, p2, c.gap) && Blank(c.gap) && q < |input| && !IsSpace(input[q]);
    BlankSpan(input, p, c.lead, 1, acc);
    var acc1 := acc + SpaceTokens(c.lead);
    NameSpan(input, p1, c.selector, 1, acc1);
    BlankSpan(input, p2, c.gap, 1, acc1 + [Token(Identifier, c.selector)]);
  }

  /** A name starts with a name rune, which is no blank. */
  lemma NameStarts(input: string, p: nat, k: string)
    requires At(input, p, k) && IsName(k)
    ensures p < |input| && IsAlphaNumeric(input[p]) && !IsSpace(input[p])
  {
    AtFirst(input, p, k);
  }

  /** Blanks before a `{`: the rune where they start is no name rune. */
  lemma GapEnds(input: string, p: nat, s: string)
    requires At(input, p, s) && Blank(s) && p + |s| < |input| && input[p + |s|] == '{'
    ensures !IsAlphaNumeric(input[p]) && !IsSpace(input[p + |s|])
  {
    if |s| > 0 {
      AtFirst(input, p, s);
    }
  }

  /** One case, from its leading blanks to the `}` of its body. */
  lemma CaseSpan(input: string, p: nat, c: CaseText, acc: seq<Token>)
    requires WellFormedCase(c) && At(input, p, CaseSource(c))
    ensures CaseEnd(p, c) <= |input|
    ensures Reaches(input, Lexer(Action, p, p, 1), acc, Lexer(Action, CaseEnd(p, c), CaseEnd(p, c), 1), acc + CaseTokens(c))
  {
    CaseParts(input, p, c, acc);
    CaseCompose(input, p, c, acc);
  }

  /** The head of a case, its `{` and its body, each on its own. */
  lemma CaseParts(input: string, p: nat, c: CaseText, acc: seq<Token>)
    requires WellFormedCase(c) && At(input, p, CaseSource(c))
    ensures var q := p + |c.lead| + |c.selector| + |c.gap|;
      var acc1 := acc + CaseHeadTokens(c);
      var e1 := q + 1 + |GoStrings.Join(c.pieces, "#")| + 1;
      && e1 <= |input| && |CaseSource(c)| == e1 - p
      && Reaches(input, Lexer(Action, p, p, 1), acc, Lexer(Action, q, q, 1), acc1)
      && Reaches(input, Lexer(Action, q, q, 1), acc1, Lexer(Message, q + 1, q + 1, 2), acc1 + [Token(StartMessage, "{")])
      && BodyReach(input, q + 1, c.pieces, acc1 + [Token(StartMessage, "{")])
  {
    CaseAt(input, p, c);
    var q := p + |c.lead| + |c.selector| + |c.gap|;
    CaseHead(input, p, c, acc);
    Regroup3(acc, SpaceTokens(c.lead), [Token(Identifier, c.selector)], SpaceTokens(c.gap));
    CaseBody(input, q, c.pieces, acc + CaseHeadTokens(c));
  }

  /** The `{` of a case body and the body. */
  lemma CaseBody(input: string, q: nat, pieces: seq<string>, acc: seq<Token>)
    requires |pieces| > 0 && PlainPieces(pieces)
    requires q < |input| && input[q] == '{' && At(input, q + 1, GoStrings.Join(pieces, "#") + "}")
    ensures q + 1 + |GoStrings.Join(pieces, "#")| < |input|
    ensures Reaches(input, Lexer(Action, q, q, 1), acc, Lexer(Message, q + 1, q + 1, 2), acc + [Token(StartMessage, "{")])
    ensures BodyReach(input, q + 1, pieces, acc + [Token(StartMessage, "{")])
  {
    OpenBodySpan(input, q, acc);
    BodyFitAt(input, q + 1, pieces);
    BodySpan(input, q + 1, pieces, acc + [Token(StartMessage, "{")]);
  }

  /** The head of a case, its `{` and its body, one after the other. */
  lemma CaseCompose(input: string, p: nat, c: CaseText, acc: seq<Token>)
    requires var q := p + |c.lead| + |c.selector| + |c.gap|;
      var acc1 := acc + CaseHeadTokens(c);
      var e1 := q + 1 + |GoStrings.Join(c.pieces, "#")| + 1;
      && e1 <= |input| && |CaseSource(c)| == e1 - p
      && Reaches(input, Lexer(Action, p, p, 1), acc, Lexer(Action, q, q, 1), acc1)
      && Reaches(input, Lexer(Action, q, q, 1), acc1, Lexer(Message, q + 1, q + 1, 2), acc1 + [Token(StartMessage, "{")])
      && BodyReach(input, q + 1, c.pieces, acc1 + [Token(StartMessage, "{")])
    ensures CaseEnd(p, c) <= |input|
    ensures Reaches(input, Lexer(Action, p, p, 1), acc, Lexer(Action, CaseEnd(p, c), CaseEnd(p, c), 1), acc + CaseTokens(c))
  {
    var q := p + |c.lead| + |c.selector| + |c.gap|;
    var h, o, b := CaseHeadTokens(c), [Token(StartMessage, "{")], BodyTokens(c.pieces) + [Token(EndMessage, "}")];
    var e := CaseEnd(p, c);
    var e1 := BodyEnd(q + 1, c.pieces);
    assert e == e1;
    Rewrite(input, Lexer(Message, q + 1, q + 1, 2), acc + h + o, Lexer(Action, e1, e1, 1), acc + h + o + b,
      Lexer(Action, e, e, 1), acc + h + o + b);
    CaseTokensSplit(c);
    Chain3(input, Lexer(Action, p, p, 1), Lexer(Action, q, q, 1), Lexer(Message, q + 1, q + 1, 2), Lexer(Action, e, e, 1),
      acc, h, o, b, CaseTokens(c));
  }

  lemma CaseTokensSplit(c: CaseText)
    ensures CaseTokens(c) == CaseHeadTokens(c) + [Token(StartMessage, "{")] + (BodyTokens(c.pieces) + [Token(EndMessage, "}")])
  {
    var h, o := CaseHeadTokens(c), [Token(StartMessage, "{")];
    Assoc(h + o, BodyTokens(c.pieces), [Token(EndMessage, "}")]);
  }

  /** Where a case that starts at `p` ends. */
  function CaseEnd(p: nat, c: CaseText): nat {
    p + |CaseSource(c)|
  }

  /** Where cases that start at `p` end. */
  function CasesEnd(p: nat, cs: seq<CaseText>): nat {
    p + |CasesSource(cs)|
  }

  /** The cases `cs` stand one after the other from `p` in `input`. */
  predicate CasesFit(input: string, p: nat, cs: seq<CaseText>)
    decreases |cs|
  {
    && CasesEnd(p, cs) <= |input|
    && (|cs| > 0 ==>
          && WellFormedCase(cs[0]) && At(input, p, CaseSource(cs[0]))
          && CasesFit(input, CaseEnd(p, cs[0]), cs[1..]))
  }

  /** Lexing the cases `cs` from `p` in action mode ends after them, having
      sent their tokens. */
  predicate CasesReach(input: string, p: nat, cs: seq<CaseText>, acc: seq<Token>)
    requires CasesEnd(p, cs) <= |input|
  {
    var e := CasesEnd(p, cs);
    Reaches(input, Lexer(Action, p, p, 1), acc, Lexer(Action, e, e, 1), acc + CasesTokens(cs))
  }

  /** The cases of an argument, one after the other. */
  lemma {:induction false} CasesSpan(input: string, p: nat, cs: seq<CaseText>, acc: seq<Token>)
    requires CasesFit(input, p, cs)
    ensures CasesReach(input, p, cs, acc)
    decreases |cs|
  {
    if |cs| == 0 {
      assert acc + [] == acc;
    } else {
      var m := CaseEnd(p, cs[0]);
      var e, e1 := CasesEnd(p, cs), CasesEnd(m, cs[1..]);
      var t0, t1 := CaseTokens(cs[0]), CasesTokens(cs[1..]);
      CasesSplit(cs);
      assert e == e1;
      CaseSpan(input, p, cs[0], acc);
      CasesSpan(input, m, cs[1..], acc + t0);
      assert CasesReach(input, m, cs[1..], acc + t0);
      Then(input, Lexer(Action, p, p, 1), Lexer(Action, m, m, 1), Lexer(Action, e1, e1, 1),
        acc, t0, t1, CasesTokens(cs));
      Rewrite(input, Lexer(Action, p, p, 1), acc, Lexer(Action, e1, e1, 1), acc + CasesTokens(cs),
        Lexer(Action, e, e, 1), acc + CasesTokens(cs));
    }
  }

  /** Cases written out in a row fit where they stand. */
  lemma {:induction false} CasesFitAt(input: string, p: nat, cs: seq<CaseText>)
    requires forall i :: 0 <= i < |cs| ==> WellFormedCase(cs[i])
    requires At(input, p, CasesSource(cs))
    ensures CasesFit(input, p, cs)
    decreases |cs|
  {
    if |cs| > 0 {
      CasesAt(input, p, cs);
      CasesFitAt(input, p + |CaseSource(cs[0])|, cs[1..]);
    }
  }

  /** Where the first case and the rest stand. */
  lemma CasesAt(input: string, p: nat, cs: seq<CaseText>)
    requires |cs| > 0 && forall i :: 0 <= i < |cs| ==> WellFormedCase(cs[i])
    requires At(input, p, CasesSource(cs))
    ensures WellFormedCase(cs[0]) && At(input, p, CaseSource(cs[0]))
    ensures forall i :: 0 <= i < |cs[1..]| ==> WellFormedCase(cs[1..][i])
    ensures At(input, p + |CaseSource(cs[0])|, CasesSource(cs[1..]))
  {
    AtSplit(input, p, CaseSource(cs[0]), CasesSource(cs[1..]));
    forall i | 0 <= i < |cs[1..]| ensures WellFormedCase(cs[1..][i]) {
      assert cs[1..][i] == cs[i + 1];
    }
  }

  /** The source and the tokens of several cases, split after the first. */
  lemma CasesSplit(cs: seq<CaseText>)
    requires |cs| > 0
    ensures |CasesSource(cs)| == |CaseSource(cs[0])| + |CasesSource(cs[1..])|
    ensures CasesTokens(cs) == CaseTokens(cs[0]) + CasesTokens(cs[1..])
  {
  }

  // ---------------------------------------------------------------------
  // Header, offset, whole template

  /** Where the header that follows the leading text ends. */
  function HeaderEnd(t: TableText): nat {
    |t.before| + |HeaderSource(t)|
  }

  /** Where an offset clause that starts at `p` ends. */
  function OffsetEnd(p: nat, o: OffsetText): nat {
    p + |OffsetSource(o)|
  }

  /** `offset:n` after blanks, ended by a blank or the closing `}`. */
  lemma OffsetSpan(input: string, p: nat, o: OffsetText, acc: seq<Token>)
    requires WellFormedOffset(o) && At(input, p, OffsetSource(o))
    requires o.OffsetText? ==> OffsetEnd(p, o) < |input| && !IsAlphaNumeric(input[OffsetEnd(p, o)])
    ensures OffsetEnd(p, o) <= |input|
    ensures Reaches(input, Lexer(Action, p, p, 1), acc, Lexer(Action, OffsetEnd(p, o), OffsetEnd(p, o), 1), acc + OffsetTokens(o))
  {
    if o.NoOffset? {
      assert acc + [] == acc;
    } else {
      OffsetAt(input, p, o);
      OffsetClauseSpan(input, p, o.blank, o.digits, acc);
      assert acc + OffsetTokens(o) == acc + SpaceTokens(o.blank) + [Token(Identifier, "offset")] + [Token(Identifier, ":" + o.digits)] by {
        Regroup3(acc, SpaceTokens(o.blank), [Token(Identifier, "offset")], [Token(Identifier, ":" + o.digits)]);
      }
    }
  }

  /** Blanks, `offset`, `:` and a name: three tokens, the last keeping the colon. */
  lemma OffsetClauseSpan(input: string, p: nat, blank: string, digits: string, acc: seq<Token>)
    requires Blank(blank) && IsName(digits) && At(input, p, blank)
    requires var p1 := p + |blank|;
      && At(input, p1, "offset") && p1 + 6 < |input| && input[p1 + 6] == ':' && input[p1] == 'o'
      && At(input, p1 + 7, digits) && p1 + 7 + |digits| < |input| && !IsAlphaNumeric(input[p1 + 7 + |digits|])
    ensures var e := p + |blank| + 7 + |digits|;
      Reaches(input, Lexer(Action, p, p, 1), acc,
      Lexer(Action, e, e, 1), acc + SpaceTokens(blank) + [Token(Identifier, "offset")] + [Token(Identifier, ":" + digits)])
  {
    var p1 := p + |blank|;
    var c := p1 + 6;
    var e := c + 1 + |digits|;
    var acc1 := acc + SpaceTokens(blank);
    assert e == p1 + 7 + |digits| && c + 1 == p1 + 7;
    assert p1 + 6 < |input| && !IsSpace(input[p1]) && IsName("offset") && |"offset"| == 6;
    assert p1 + |"offset"| < |input| && !IsAlphaNumeric(input[p1 + |"offset"|]);
    assert c < |input| && input[c] == ':';
    assert At(input, c + 1, digits) && c + 1 + |digits| < |input| && !IsAlphaNumeric(input[c + 1 + |digits|]);
    BlankSpan(input, p, blank, 1, acc);
    NameSpan(input, p1, "offset", 1, acc1);
    ColonSpan(input, c, digits, 1, acc1 + [Token(Identifier, "offset")]);
  }

  lemma OffsetAt(input: string, p: nat, o: OffsetText)
    requires o.OffsetText? && At(input, p, OffsetSource(o))
    ensures var p1 := p + |o.blank|;
      && At(input, p, o.blank) && At(input, p1, "offset") && p1 + 6 < |input| && input[p1 + 6] == ':'
      && At(input, p1 + 7, o.digits) && input[p1] == 'o'
      && |OffsetSource(o)| == |o.blank| + 7 + |o.digits|
  {
    var p1 := p + |o.blank|;
    assert OffsetSource(o) == o.blank + "offset" + ":" + o.digits by {
      assert "offset:" == "offset" + ":";
      Assoc(o.blank, "offset", ":");
    }
    AtSplit(input, p, o.blank + "offset" + ":", o.digits);
    AtSplit(input, p, o.blank + "offset", ":");
    AtSplit(input, p, o.blank, "offset");
    AtFirst(input, p1, "offset");
    AtFirst(input, p1 + 6, ":");
  }

  /** Where the parts of the header stand. */
  lemma HeaderAt(input: string, t: TableText)
    requires At(input, 0, t.before + HeaderSource(t))
    ensures var a := |t.before|; var k := a + 1; var b := k + |t.key| + 1; var n := b + |t.blank|;
      && At(input, 0, t.before) && a < |input| && input[a] == '{'
      && At(input, k, t.key) && k + |t.key| < |input| && input[k + |t.key|] == ','
      && At(input, b, t.blank) && At(input, n, t.kind) && n + |t.kind| < |input| && input[n + |t.kind|] == ','
      && |HeaderSource(t)| == n + |t.kind| + 1 - a
  {
    var a := |t.before|;
    var k := a + 1;
    var b := k + |t.key| + 1;
    var n := b + |t.blank|;
    var x := t.before + "{" + t.key + "," + t.blank + t.kind;
    assert t.before + HeaderSource(t) == x + ",";
    AtSplit(input, 0, x, ",");
    AtSplit(input, 0, t.before + "{" + t.key + "," + t.blank, t.kind);
    AtSplit(input, 0, t.before + "{" + t.key + ",", t.blank);
    AtSplit(input, 0, t.before + "{" + t.key, ",");
    AtSplit(input, 0, t.before + "{", t.key);
    AtSplit(input, 0, t.before, "{");
    AtFirst(input, a, "{");
    AtFirst(input, k + |t.key|, ",");
    AtFirst(input, n + |t.kind|, ",");
  }

  /** `{key,` blanks `kind,` after the leading text, from the start of the
      input to action mode after the second comma. */
  lemma HeaderSpan(input: string, t: TableText)
    requires PlainPiece(t.before) && IsName(t.key) && Blank(t.blank) && IsName(t.kind)
    requires At(input, 0, t.before + HeaderSource(t))
    ensures HeaderEnd(t) <= |input|
    ensures Reaches(input, Lexer(Message, 0, 0, 0), [], Lexer(Action, HeaderEnd(t), HeaderEnd(t), 1), TextTokens(t.before) + HeaderTokens(t))
  {
    var k := |t.before| + 1;
    var e := HeaderEnd(t);
    HeaderAt(input, t);
    HeaderOpen(input, t.before);
    HeaderRest(input, t, TextTokens(t.before));
    Trans(input, Lexer(Message, 0, 0, 0), [], Lexer(Action, k, k, 1), TextTokens(t.before) + [Token(StartAction, "{")],
      Lexer(Action, e, e, 1), TextTokens(t.before) + HeaderTokens(t));
  }

  /** The leading text and the `{` that opens the argument. */
  lemma HeaderOpen(input: string, a: string)
    requires PlainPiece(a) && At(input, 0, a) && |a| < |input| && input[|a|] == '{'
    ensures Reaches(input, Lexer(Message, 0, 0, 0), [], Lexer(Action, |a| + 1, |a| + 1, 1), TextTokens(a) + [Token(StartAction, "{")])
  {
    var k := |a| + 1;
    var m := Lexer(Message, |a|, 0, 0);
    LeadReach(input, a);
    OpenReach(input, |a|);
    assert input[0..|a|] == a by { AtSlice(input, 0, a); }
    Rewrite(input, m, [], Lexer(Action, k, k, 1), TextTokens(input[0..|a|]) + [Token(StartAction, "{")],
      Lexer(Action, k, k, 1), TextTokens(a) + [Token(StartAction, "{")]);
    Trans(input, Lexer(Message, 0, 0, 0), [], m, [], Lexer(Action, k, k, 1), TextTokens(a) + [Token(StartAction, "{")]);
  }

  lemma LeadReach(input: string, a: string)
    requires PlainPiece(a) && At(input, 0, a)
    ensures Reaches(input, Lexer(Message, 0, 0, 0), [], Lexer(Message, |a|, 0, 0), [])
  {
    AtSlice(input, 0, a);
    LeadingText(input, a);
  }

  lemma OpenReach(input: string, p: nat)
    requires p < |input| && input[p] == '{'
    ensures Reaches(input, Lexer(Message, p, 0, 0), [], Lexer(Action, p + 1, p + 1, 1), TextTokens(input[0..p]) + [Token(StartAction, "{")])
  {
    assert Odd(1);
    OpenActionSpan(input, p, 0, 0, []);
    assert [] + TextTokens(input[0..p]) + [Token(StartAction, "{")] == TextTokens(input[0..p]) + [Token(StartAction, "{")];
  }

  lemma HeaderRest(input: string, t: TableText, acc: seq<Token>)
    requires IsName(t.key) && Blank(t.blank) && IsName(t.kind)
    requires var a := |t.before|; var k := a + 1; var b := k + |t.key| + 1; var n := b + |t.blank|;
      && At(input, k, t.key) && k + |t.key| < |input| && input[k + |t.key|] == ','
      && At(input, b, t.blank) && At(input, n, t.kind) && n + |t.kind| < |input| && input[n + |t.kind|] == ','
      && |HeaderSource(t)| == n + |t.kind| + 1 - a
    ensures var k, e := |t.before| + 1, HeaderEnd(t);
      e <= |input| && Reaches(input, Lexer(Action, k, k, 1), acc + [Token(StartAction, "{")], Lexer(Action, e, e, 1), acc + HeaderTokens(t))
  {
    var k := |t.before| + 1;
    var acc0 := acc + [Token(StartAction, "{")];
    assert At(input, k, t.key) && k + |t.key| < |input| && input[k + |t.key|] == ',';
    assert At(input, k + |t.key| + 1, t.blank) && At(input, k + |t.key| + 1 + |t.blank|, t.kind);
    assert k + |t.key| + 1 + |t.blank| + |t.kind| < |input| && input[k + |t.key| + 1 + |t.blank| + |t.kind|] == ',';
    assert |t.before| + |HeaderSource(t)| == k + |t.key| + 1 + |t.blank| + |t.kind| + 1;
    HeaderRegroup(acc, t);
    HeaderChain(input, k, t.key, t.blank, t.kind, acc0);
  }

  lemma HeaderRegroup(acc: seq<Token>, t: TableText)
    ensures acc + HeaderTokens(t) ==
      acc + [Token(StartAction, "{")] + [Token(Identifier, t.key)] + [Token(Delim, ",")] + SpaceTokens(t.blank)
        + [Token(Identifier, t.kind)] + [Token(Delim, ",")]
  {
    Regroup6(acc, [Token(StartAction, "{")], [Token(Identifier, t.key)], [Token(Delim, ",")], SpaceTokens(t.blank),
      [Token(Identifier, t.kind)], [Token(Delim, ",")]);
  }

  /** `key,` blanks `kind,` in action mode: five tokens at most. */
  lemma HeaderChain(input: string, k: nat, key: string, blank: string, kind: string, acc: seq<Token>)
    requires IsName(key) && Blank(blank) && IsName(kind)
    requires At(input, k, key) && k + |key| < |input| && input[k + |key|] == ','
    requires At(input, k + |key| + 1, blank) && At(input, k + |key| + 1 + |blank|, kind)
    requires k + |key| + 1 + |blank| + |kind| < |input| && input[k + |key| + 1 + |blank| + |kind|] == ','
    ensures var e := k + |key| + 1 + |blank| + |kind| + 1;
      Reaches(input, Lexer(Action, k, k, 1), acc, Lexer(Action, e, e, 1),
        acc + [Token(Identifier, key)] + [Token(Delim, ",")] + SpaceTokens(blank) + [Token(Identifier, kind)] + [Token(Delim, ",")])
  {
    var c1 := k + |key|;
    var b := c1 + 1;
    var n := b + |blank|;
    var c2 := n + |kind|;
    NameStarts(input, n, kind);
    assert !IsAlphaNumeric(input[c1]) && c1 < |input| && input[c1] == ',';
    assert b + |blank| < |input| && !IsSpace(input[b + |blank|]);
    assert n + |kind| < |input| && !IsAlphaNumeric(input[n + |kind|]) && input[c2] == ',';
    var acc1 := acc + [Token(Identifier, key)];
    var acc2 := acc1 + [Token(Delim, ",")];
    var acc3 := acc2 + SpaceTokens(blank);
    NameSpan(input, k, key, 1, acc);
    CommaSpan(input, c1, 1, acc1);
    BlankSpan(input, b, blank, 1, acc2);
    NameSpan(input, n, kind, 1, acc3);
    CommaSpan(input, c2, 1, acc3 + [Token(Identifier, kind)]);
  }

  /** Where the parts of the whole template stand. */
  lemma TableAt(t: TableText)
    requires WellFormedTable(t)
    ensures var input := TableSource(t);
      var h := HeaderEnd(t); var o := OffsetEnd(h, t.offset); var c := CasesEnd(o, t.cases);
      && At(input, 0, t.before + HeaderSource(t)) && At(input, h, OffsetSource(t.offset))
      && At(input, o, CasesSource(t.cases))
      && c < |input| && input[c] == '}' && input[c + 1..] == t.after
      && (t.offset.OffsetText? ==> o < |input| && !IsAlphaNumeric(input[o]))
  {
    var x0 := t.before + HeaderSource(t);
    TableParts(x0, OffsetSource(t.offset), CasesSource(t.cases), t.after);
    if t.offset.OffsetText? {
      FirstAfterOffset(TableSource(t), |x0| + |OffsetSource(t.offset)|, t.cases);
    }
  }

  /** Where the four parts of `a + b + c + "}" + d` stand. */
  lemma TableParts(a: string, b: string, c: string, d: string)
    ensures var input := a + b + c + "}" + d; var o := |a| + |b|; var e := o + |c|;
      && At(input, 0, a) && At(input, |a|, b) && At(input, o, c)
      && e < |input| && input[e] == '}' && input[e + 1..] == d
  {
    PartAt(a, b, c + "}" + d);
    assert a + b + c + "}" + d == a + b + (c + "}" + d);
    PartAt(a + b, c, "}" + d);
    assert a + b + c + "}" + d == a + b + c + ("}" + d);
  }

  /** The three parts of `x + y + z` stand where they were written. */
  lemma PartAt(x: string, y: string, z: string)
    ensures At(x + y + z, 0, x) && At(x + y + z, |x|, y)
  {
    var input := x + y + z;
    forall j | 0 <= j < |x| ensures input[j] == x[j] {
      assert (x + y)[j] == x[j];
    }
    forall j | 0 <= j < |y| ensures input[|x| + j] == y[j] {
      assert (x + y)[|x| + j] == y[j];
    }
  }

  /** What follows an offset clause: the blanks before the first case, or the
      closing `}` when there is no case. */
  lemma FirstAfterOffset(input: string, o: nat, cs: seq<CaseText>)
    requires forall i :: 0 <= i < |cs| ==> WellFormedCase(cs[i])
    requires |cs| > 0 ==> |cs[0].lead| > 0
    requires At(input, o, CasesSource(cs))
    requires |cs| == 0 ==> o < |input| && input[o] == '}'
    ensures o < |input| && !IsAlphaNumeric(input[o])
  {
    if |cs| > 0 {
      CasesAt(input, o, cs);
      CaseAt(input, o, cs[0]);
      AtFirst(input, o, cs[0].lead);
    }
  }

  /** From the end of the header to the closing `}`: the offset clause and
      the cases. */
  lemma TableMiddle(input: string, h: nat, o: OffsetText, cs: seq<CaseText>, acc: seq<Token>)
    requires WellFormedOffset(o) && forall i :: 0 <= i < |cs| ==> WellFormedCase(cs[i])
    requires var m := OffsetEnd(h, o);
      && At(input, h, OffsetSource(o)) && At(input, m, CasesSource(cs))
      && (o.OffsetText? ==> m < |input| && !IsAlphaNumeric(input[m]))
    ensures var c := CasesEnd(OffsetEnd(h, o), cs);
      c <= |input| && Reaches(input, Lexer(Action, h, h, 1), acc, Lexer(Action, c, c, 1), acc + OffsetTokens(o) + CasesTokens(cs))
  {
    var m := OffsetEnd(h, o);
    CasesFrom(input, m, cs, acc + OffsetTokens(o));
    OffsetSpan(input, h, o, acc);
    TableCompose(input, h, m, CasesEnd(m, cs), acc, OffsetTokens(o), CasesTokens(cs));
  }

  /** Two spans in action mode, one after the other. */
  lemma TableCompose(input: string, h: nat, m: nat, c: nat, acc: seq<Token>, t0: seq<Token>, t1: seq<Token>)
    requires h <= m <= c <= |input|
    requires Reaches(input, Lexer(Action, h, h, 1), acc, Lexer(Action, m, m, 1), acc + t0)
    requires Reaches(input, Lexer(Action, m, m, 1), acc + t0, Lexer(Action, c, c, 1), acc + t0 + t1)
    ensures Reaches(input, Lexer(Action, h, h, 1), acc, Lexer(Action, c, c, 1), acc + t0 + t1)
  {
    Trans(input, Lexer(Action, h, h, 1), acc, Lexer(Action, m, m, 1), acc + t0, Lexer(Action, c, c, 1), acc + t0 + t1);
  }

  /** The cases as written, from the first blank to the closing `}`. */
  lemma CasesFrom(input: string, m: nat, cs: seq<CaseText>, acc: seq<Token>)
    requires forall i :: 0 <= i < |cs| ==> WellFormedCase(cs[i])
    requires At(input, m, CasesSource(cs))
    ensures CasesReach(input, m, cs, acc)
  {
    CasesFitAt(input, m, cs);
    CasesSpan(input, m, cs, acc);
  }

  /** Lexing from `l` having sent `acc` finishes with the tokens `r`. */
  predicate Finishes(input: string, l: Lexer, acc: seq<Token>, r: seq<Token>)
    requires Valid(input, l)
  {
    Run(input, l, acc) == Done(r)
  }

  /** The closing `}` of the argument and the trailing text. */
  lemma TableTail(input: string, c: nat, after: string, acc: seq<Token>)
    requires c < |input| && input[c] == '}' && Plain(after) && input[c + 1..] == after
    ensures Finishes(input, Lexer(Action, c, c, 1), acc, acc + [Token(EndAction, "}")] + TextTokens(after) + [Token(EOF, "")])
  {
    assert !Odd(1 - 1);
    CloseActionSpan(input, c, 1, acc);
    PlainTail(input, after, c + 1, acc + [Token(EndAction, "}")]);
  }

  /** The whole template: leading text, the argument, trailing text. */
  lemma TableLexes(t: TableText)
    requires WellFormedTable(t)
    ensures Lex(TableSource(t)) == Done(TableTokens(t))
  {
    TableAt(t);
    TableRuns(TableSource(t), t);
    assert Finishes(TableSource(t), Lexer(Message, 0, 0, 0), [], TableTokens(t));
  }

  lemma TableRuns(input: string, t: TableText)
    requires WellFormedTable(t)
    requires var h := HeaderEnd(t); var o := OffsetEnd(h, t.offset); var c := CasesEnd(o, t.cases);
      && At(input, 0, t.before + HeaderSource(t)) && At(input, h, OffsetSource(t.offset))
      && At(input, o, CasesSource(t.cases))
      && c < |input| && input[c] == '}' && input[c + 1..] == t.after
      && (t.offset.OffsetText? ==> o < |input| && !IsAlphaNumeric(input[o]))
    ensures Finishes(input, Lexer(Message, 0, 0, 0), [], TableTokens(t))
  {
    var h := HeaderEnd(t);
    var c := CasesEnd(OffsetEnd(h, t.offset), t.cases);
    var t1 := TextTokens(t.before) + HeaderTokens(t);
    var mid := t1 + OffsetTokens(t.offset) + CasesTokens(t.cases);
    TableTail(input, c, t.after, mid);
    TableArgument(input, h, t.offset, t.cases, t1, TableTokens(t));
    HeaderSpan(input, t);
    ThenFinishes(input, Lexer(Message, 0, 0, 0), [], Lexer(Action, h, h, 1), t1, TableTokens(t));
  }

  /** After the header, in action mode: the rest of the argument, given that
      lexing finishes from the closing `}`. */
  lemma TableArgument(input: string, h: nat, o: OffsetText, cs: seq<CaseText>, acc: seq<Token>, r: seq<Token>)
    requires WellFormedOffset(o) && (forall i :: 0 <= i < |cs| ==> WellFormedCase(cs[i]))
    requires var m := OffsetEnd(h, o); var c := CasesEnd(m, cs);
      && At(input, h, OffsetSource(o)) && At(input, m, CasesSource(cs))
      && (o.OffsetText? ==> m < |input| && !IsAlphaNumeric(input[m]))
      && c <= |input| && Finishes(input, Lexer(Action, c, c, 1), acc + OffsetTokens(o) + CasesTokens(cs), r)
    ensures h <= |input| && Finishes(input, Lexer(Action, h, h, 1), acc, r)
  {
    var c := CasesEnd(OffsetEnd(h, o), cs);
    TableMiddle(input, h, o, cs, acc);
    ThenFinishes(input, Lexer(Action, h, h, 1), acc, Lexer(Action, c, c, 1), acc + OffsetTokens(o) + CasesTokens(cs), r);
  }

  /** A run that reaches a configuration from which lexing finishes, finishes. */
  lemma ThenFinishes(input: string, l: Lexer, acc: seq<Token>, l2: Lexer, acc2: seq<Token>, r: seq<Token>)
    requires Valid(input, l) && Valid(input, l2)
    requires Reaches(input, l, acc, l2, acc2) && Finishes(input, l2, acc2, r)
    ensures Finishes(input, l, acc, r)
  {
  }

  // ---------------------------------------------------------------------
  // Regrouping concatenations

  lemma Regroup3<T>(acc: seq<T>, a: seq<T>, b: seq<T>, c: seq<T>)
    ensures acc + a + b + c == acc + (a + b + c)
  {
    Assoc(acc, a, b);
    Assoc(acc, a + b, c);
  }

  lemma Regroup6<T>(acc: seq<T>, a: seq<T>, b: seq<T>, c: seq<T>, d: seq<T>, e: seq<T>, f: seq<T>)
    ensures acc + a + b + c + d + e + f == acc + (a + b + c + d + e + f)
  {
    Regroup3(acc, a, b, c);
    Regroup3(acc, a + b + c, d, e);
    Assoc(acc, a + b + c + d + e, f);
  }
}
