/** The template lexer: a state machine over the runes of the template that
    emits tokens and keeps a brace-nesting depth. Odd depth is action mode
    (argument names, formatter names, styles, case selectors), even depth is
    message mode (text, quoted text, `#`).

    The Go lexer runs its state functions in a goroutine and sends tokens on
    a channel; here each state function is one `Step` and the run collects the
    tokens in a list. Two configurations make the Go lexer spin forever
    without sending anything (action mode or an open quote at end of input);
    the run reports them as `Stuck` with the tokens sent before. */
module Lexer {
  import opened GoInts

  datatype Kind =
    | Error        // zero value of the category; read from a closed channel
    | EOF
    | Text
    | Identifier
    | Space
    | Delim
    | QuotedText
    | StartAction
    | EndAction
    | StartMessage
    | EndMessage
    | Hash

  datatype Token = Token(kind: Kind, val: string)

  /** The state function the lexer will run next. */
  datatype State =
    | Message      // lexMessage
    | Quote        // lexQuote
    | Action       // lexAction
    | Spaces       // lexSpace
    | Ident        // lexIdentifier
    | LeftDelim    // lexLeftDelim
    | RightDelim   // lexRightDelim
    | Comma        // lexDelim

  /** The lexer's cursor: `start` is where the pending token value begins,
      `pos` the next rune to read. */
  datatype Lexer = Lexer(state: State, pos: nat, start: nat, depth: int)

  datatype Move = Next(lexer: Lexer, out: seq<Token>) | Halt(out: seq<Token>)

  /** Result of running the lexer: it finished with EOF and closed its
      channel, or it spins forever after sending `tokens`. */
  datatype Lexed = Done(tokens: seq<Token>) | Stuck(tokens: seq<Token>)

  predicate IsSpace(c: char) {
    c == ' ' || c == '\t'
  }

  /** Letters as `unicode.IsLetter` classifies them, restricted to the Latin
      blocks (ASCII, Latin-1 Supplement, Latin Extended-A and -B). */
  predicate IsLetter(c: char) {
    || ('a' <= c <= 'z') || ('A' <= c <= 'Z')
    || c == '\U{00AA}' || c == '\U{00B5}' || c == '\U{00BA}'
    || ('\U{00C0}' <= c <= '\U{00D6}') || ('\U{00D8}' <= c <= '\U{00F6}')
    || ('\U{00F8}' <= c <= '\U{024F}')
  }

  predicate IsAlphaNumeric(c: char) {
    c == '_' || c == '=' || c == '-' || IsLetter(c) || IsDigitChar(c)
  }

  /** `=`, `-` and `_` continue a name, so `=0`, `given-name` and
      `num_guests` are single identifiers; the delimiters, blanks, `#`,
      the apostrophe and `:` end one. */
  lemma NameRunes()
    ensures IsAlphaNumeric('=') && IsAlphaNumeric('-') && IsAlphaNumeric('_')
    ensures forall c :: c in "{},#' \t:%." ==> !IsAlphaNumeric(c)
  {
  }

  /** Action-mode depth: Go's `depth%2 == 1`, which is false for every negative depth. */
  predicate Odd(depth: int) {
    Rem(depth, 2) == 1
  }

  /** Cursor invariant: the pending value is a slice of the input, and the
      delimiter states sit on the rune they consume unconditionally. */
  predicate Valid(input: string, l: Lexer) {
    && l.start <= l.pos <= |input|
    && (l.state == LeftDelim ==> l.pos < |input| && input[l.pos] == '{')
    && (l.state == RightDelim ==> l.pos < |input| && input[l.pos] == '}')
    && (l.state == Comma ==> l.pos < |input| && input[l.pos] == ',')
  }

  /** The two configurations in which the Go lexer loops forever: `next()`
      returns eof, which neither lexAction nor lexQuote handles. */
  predicate Spins(input: string, l: Lexer) {
    (l.state == Action || l.state == Quote) && l.pos == |input|
  }

  function Rank(s: State): nat {
    match s
    case LeftDelim | RightDelim | Comma => 0
    case Message | Quote | Action => 1
    case Spaces | Ident => 2
  }

  /** `if l.pos > l.start { l.emit(tokenText) }`. */
  function FlushText(input: string, l: Lexer): (out: seq<Token>)
    requires l.start <= l.pos <= |input|
    ensures |out| <= 1
  {
    if l.pos > l.start then [Token(Text, input[l.start..l.pos])] else []
  }

  /** Index of the first rune at or after `p` that is not a space. */
  function SkipSpaces(input: string, p: nat): (q: nat)
    requires p <= |input|
    ensures p <= q <= |input|
    ensures forall i :: p <= i < q ==> IsSpace(input[i])
    ensures q == |input| || !IsSpace(input[q])
    decreases |input| - p
  {
    if p < |input| && IsSpace(input[p]) then SkipSpaces(input, p + 1) else p
  }

  /** One call of the current state function. */
  function Step(input: string, l: Lexer): (s: Move)
    requires Valid(input, l)
    ensures s.Next? ==> Valid(input, s.lexer)
    ensures s.Halt? ==> l.state == Message && l.pos == |input|
  {
    var p, st, d := l.pos, l.start, l.depth;
    match l.state
    case Message =>
      if p == |input| then
        Halt(FlushText(input, l) + [Token(EOF, "")])
      else if input[p] == '#' then
        Next(Lexer(Message, p + 1, p + 1, d), FlushText(input, l) + [Token(Hash, input[p..p + 1])])
      else if input[p] == '\'' && p + 1 < |input| && input[p + 1] in {'{', '}', '\''} then
        Next(Lexer(Quote, p + 1, p + 1, d), FlushText(input, l))
      else if input[p] == '{' then
        Next(Lexer(LeftDelim, p, p, d), FlushText(input, l))
      else if input[p] == '}' then
        Next(Lexer(RightDelim, p, p, d), FlushText(input, l))
      else
        Next(l.(pos := p + 1), [])
    case Quote =>
      if p == |input| then
        Next(l, [])
      else if input[p] == '\'' then
        var out := [Token(QuotedText, input[st..p])];
        if p + 1 < |input| && input[p + 1] == '\'' then
          Next(Lexer(Quote, p + 2, p + 1, d), out)
        else
          Next(Lexer(Message, p + 1, p + 1, d), out)
      else
        Next(l.(pos := p + 1), [])
    case LeftDelim =>
      if Odd(d + 1) then
        Next(Lexer(Action, p + 1, p + 1, d + 1), [Token(StartAction, input[st..p + 1])])
      else
        Next(Lexer(Message, p + 1, p + 1, d + 1), [Token(StartMessage, input[st..p + 1])])
    case RightDelim =>
      if Odd(d - 1) then
        Next(Lexer(Action, p + 1, p + 1, d - 1), [Token(EndMessage, input[st..p + 1])])
      else
        Next(Lexer(Message, p + 1, p + 1, d - 1), [Token(EndAction, input[st..p + 1])])
    case Comma =>
      Next(Lexer(Action, p + 1, p + 1, d), [Token(Delim, input[st..p + 1])])
    case Action =>
      if p == |input| then
        Next(l, [])
      else if input[p] == '{' then
        Next(l.(state := LeftDelim), [])
      else if IsSpace(input[p]) then
        Next(l.(state := Spaces, pos := p + 1), [])
      else if IsAlphaNumeric(input[p]) then
        Next(l.(state := Ident, pos := p + 1), [])
      else if input[p] == ',' then
        Next(l.(state := Comma), [])
      else if input[p] == '}' then
        Next(l.(state := RightDelim), [])
      else
        Next(l.(pos := p + 1), [])
    case Spaces =>
      var q := SkipSpaces(input, p);
      Next(Lexer(Action, q, q, d), [Token(Space, input[st..q])])
    case Ident =>
      if p < |input| && IsAlphaNumeric(input[p]) then
        Next(l.(pos := p + 1), [])
      else
        Next(Lexer(Action, p, p, d), [Token(Identifier, input[st..p])])
  }

  /** Every state either finishes, reads a rune, or hands over to a state of
      lower rank at the same position, except the two spinning
      configurations, which step to themselves without emitting anything. */
  lemma StepProgress(input: string, l: Lexer)
    requires Valid(input, l)
    ensures Spins(input, l) <==> Step(input, l) == Next(l, [])
    ensures !Spins(input, l) && Step(input, l).Next? ==>
              var l' := Step(input, l).lexer;
              l'.pos > l.pos || (l'.pos == l.pos && Rank(l'.state) < Rank(l.state))
  {
  }

  /** Runs the state machine from `l`, having already sent `acc`. */
  function Run(input: string, l: Lexer, acc: seq<Token>): (r: Lexed)
    requires Valid(input, l)
    decreases |input| - l.pos, Rank(l.state)
  {
    if Spins(input, l) then Stuck(acc)
    else
      StepProgress(input, l);
      match Step(input, l)
      case Halt(out) => Done(acc + out)
      case Next(l', out) => Run(input, l', acc + out)
  }

  /** A run only ever adds tokens to what was already sent, and a run that
      gets stuck adds no EOF. */
  lemma {:induction false} RunExtends(input: string, l: Lexer, acc: seq<Token>)
    requires Valid(input, l)
    ensures acc <= Run(input, l, acc).tokens
    ensures Run(input, l, acc).Stuck? ==>
      forall j :: |acc| <= j < |Run(input, l, acc).tokens| ==> !Run(input, l, acc).tokens[j].kind.EOF?
    decreases |input| - l.pos, Rank(l.state)
  {
    if !Spins(input, l) {
      StepProgress(input, l);
      match Step(input, l)
      case Halt(out) =>
      case Next(l', out) =>
        RunExtends(input, l', acc + out);
        assert forall j :: |acc| <= j < |acc + out| ==> !(acc + out)[j].kind.EOF?;
    }
  }

  /** The token stream of a template, as `newLexer(input)` sends it. */
  function Lex(input: string): Lexed {
    Run(input, Lexer(Message, 0, 0, 0), [])
  }
}
