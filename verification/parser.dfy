/** The parser: a stack machine that reads the lexer's tokens one at a time.
    Opening tokens push markers, an identifier's meaning depends on the
    node on top of the stack, and closing tokens pop back to their marker.

    The Go parser returns `(msg, nil)` or does not return at all: it
    panics (a pop from an empty stack, a failed `.(nodeSelector)`
    assertion, slicing an empty offset token) or it waits forever for a
    token that never comes. `Outcome` names these three endings; there is
    no error result because `parse` never produces one. */
module Parser {
  import opened Base
  import opened GoInts
  import L = Lexer
  import opened Ast

  /** The token channel as the parser sees it: the tokens the lexer sends,
      and whether it then closes the channel (it finished) or keeps it open
      while spinning. A read from a closed channel yields the zero token, of
      kind Error with an empty value; a read from an open, silent channel
      blocks forever. */
  datatype Source = Source(tokens: seq<L.Token>, closed: bool)

  function SourceOf(lexed: L.Lexed): Source {
    match lexed
    case Done(ts) => Source(ts, true)
    case Stuck(ts) => Source(ts, false)
  }

  // ---------------------------------------------------------------------
  // Lookahead

  /** `strconv.Atoi(val[1:])` with the error dropped. `val[1:]` cuts one
      byte: after a first rune outside ASCII it starts inside a UTF-8
      sequence and never parses, so the offset is 0. */
  function OffsetOf(val: string): (offset: Int64)
    requires |val| > 0
    ensures val[0] as int >= 0x80 ==> offset == 0
    ensures val[0] as int < 0x80 && |val| > 1 && AllDigits(val[1..]) ==> offset == Clamp(DigitsValue(val[1..]))
    ensures offset != 0 ==> |val| > 1 && val[0] as int < 0x80
    ensures val[0] as int < 0x80 ==> offset == Atoi(val[1..])
  {
    if val[0] as int >= 0x80 then 0 else Atoi(val[1..])
  }

  /** The offset read after `offset`: the value of the next token without
      its first rune. An empty value (EOF, a read from the closed channel,
      or an empty quoted text) makes the slice panic. */
  function ReadOffset(src: Source, i: nat): (r: Outcome<Int64>)
    ensures r.Panicked? <==> (i < |src.tokens| && |src.tokens[i].val| == 0) || (i >= |src.tokens| && src.closed)
    ensures r.Diverges? <==> i >= |src.tokens| && !src.closed
    ensures r.Returned? ==> r.value == OffsetOf(src.tokens[i].val)
  {
    if i < |src.tokens| then
      var val := src.tokens[i].val;
      if |val| == 0 then Panicked else Returned(OffsetOf(val))
    else if src.closed then Panicked
    else Diverges
  }

  /** The `consume` loops: read tokens up to and including the next
      StartMessage. Without one the loop never ends, reading zero tokens
      from a closed channel or blocking on an open one. */
  function SkipPastStartMessage(src: Source, i: nat): (r: Outcome<nat>)
    ensures !r.Panicked?
    ensures r.Diverges? <==> forall m :: i <= m < |src.tokens| ==> !src.tokens[m].kind.StartMessage?
    ensures r.Returned? ==>
      && i < r.value <= |src.tokens|
      && src.tokens[r.value - 1].kind.StartMessage?
      && forall m :: i <= m < r.value - 1 ==> !src.tokens[m].kind.StartMessage?
    decreases |src.tokens| - i
  {
    if i >= |src.tokens| then Diverges
    else if src.tokens[i].kind.StartMessage? then Returned(i + 1)
    else SkipPastStartMessage(src, i + 1)
  }

  // ---------------------------------------------------------------------
  // The stack (top is the last element)

  /** Index of the last occurrence of `x` in `s`, or -1. */
  function LastIndex(s: seq<Node>, x: Node): (j: int)
    ensures -1 <= j < |s|
    ensures j == -1 <==> x !in s
    ensures j >= 0 ==> s[j] == x && x !in s[j + 1..]
  {
    if |s| == 0 then -1
    else if s[|s| - 1] == x then |s| - 1
    else
      var j := LastIndex(s[..|s| - 1], x);
      assert s == s[..|s| - 1] + [s[|s| - 1]];
      j
  }

  /** The pop loops of EndMessage and EndAction: pop nodes, prepending them
      to the body, until `marker` is popped; popping an empty stack panics.
      Returns the stack below the marker and the body. */
  function Unwind(stack: seq<Node>, marker: Node): (r: Outcome<(seq<Node>, seq<Node>)>)
    ensures !r.Diverges?
    ensures r.Panicked? <==> marker !in stack
    ensures r.Returned? ==>
      var j := LastIndex(stack, marker);
      r.value.0 == stack[..j] && r.value.1 == stack[j + 1..]
  {
    if |stack| == 0 then Panicked
    else
      var front, top := stack[..|stack| - 1], stack[|stack| - 1];
      if top == marker then Returned((front, []))
      else
        assert stack == front + [top];
        match Unwind(front, marker)
        case Returned((below, body)) => Returned((below, body + [top]))
        case Panicked => Panicked
        case Diverges => Diverges
  }

  /** Stores a closed case body into the plural, selectordinal or select
      node it belongs to; any other node under the selector is dropped. */
  function Attach(comp: Node, sel: string, body: seq<Node>): seq<Node>
  {
    match comp
    case Plural(rule, key, offset, cases) => [Plural(rule, key, offset, Put(cases, sel, body))]
    case Select(key, cases) => [Select(key, Put(cases, sel, body))]
    case _ => []
  }

  /** `case tokenEndMessage`: everything above the last StartMessage marker
      becomes the body of the case named by the selector under it. The
      stack must hold `comp, Selector(sel), StartMessage` there; otherwise
      a pop of the empty stack or the selector assertion panics. */
  function CloseMessage(stack: seq<Node>): (r: Outcome<seq<Node>>)
    ensures !r.Diverges?
    ensures var j := LastIndex(stack, StartMessage);
      r.Returned? <==> j >= 2 && stack[j - 1].Selector?
    ensures var j := LastIndex(stack, StartMessage);
      r.Returned? ==> r.value == stack[..j - 2] + Attach(stack[j - 2], stack[j - 1].name, stack[j + 1..])
  {
    match Unwind(stack, StartMessage)
    case Panicked => Panicked
    case Diverges => Diverges
    case Returned((below, body)) =>
      if |below| == 0 then Panicked
      else
        var sel := below[|below| - 1];
        if !sel.Selector? then Panicked
        else
          var under := below[..|below| - 1];
          if |under| == 0 then Panicked
          else Returned(under[..|under| - 1] + Attach(under[|under| - 1], sel.name, body))
  }

  /** `case tokenEndAction`: everything above the last StartAction marker
      becomes one nested message node in its place. */
  function CloseAction(stack: seq<Node>): (r: Outcome<seq<Node>>)
    ensures !r.Diverges?
    ensures r.Panicked? <==> StartAction !in stack
    ensures r.Returned? ==>
      var j := LastIndex(stack, StartAction);
      r.value == stack[..j] + [Message(stack[j + 1..])]
  {
    match Unwind(stack, StartAction)
    case Panicked => Panicked
    case Diverges => Diverges
    case Returned((below, body)) => Returned(below + [Message(body)])
  }

  // ---------------------------------------------------------------------
  // Identifiers

  /** The formatter a name selects after `{key,`: the known names give
      their formatter with an empty style, offset 0 and no cases; any other
      name gives a custom formatter without arguments. */
  function Formatter(key: string, name: string): (n: Node)
    ensures Keyed(n) && !n.Placeholder? && n.key == key
    ensures n.Custom? <==> name !in {"number", "date", "time", "ordinal", "duration", "spellout", "plural", "selectordinal", "select"}
    ensures n.Custom? ==> n == Custom(key, name, [])
    ensures n.Plural? ==> n.offset == 0 && n.cases == [] && (n.rule == Cardinal <==> name == "plural")
    ensures n.Select? ==> n.cases == []
    ensures n.Formatted? ==> n.style == ""
  {
    match name
    case "number" => Formatted(Number, key, "")
    case "date" => Formatted(Date, key, "")
    case "time" => Formatted(Time, key, "")
    case "ordinal" => Formatted(OrdinalFormat, key, "")
    case "duration" => Formatted(Duration, key, "")
    case "spellout" => Formatted(Spellout, key, "")
    case "plural" => Plural(Cardinal, key, 0, [])
    case "selectordinal" => Plural(Ordinal, key, 0, [])
    case "select" => Select(key, [])
    case _ => Custom(key, name, [])
  }

  /** A case selector: store an empty body for it now, push the selector
      and an open-body marker, and skip the tokens up to the case's `{`. */
  function OpenCase(src: Source, i: nat, below: seq<Node>, comp: Node, name: string): (r: Outcome<(nat, seq<Node>)>)
    requires i < |src.tokens|
    requires comp.Plural? || comp.Select?
    ensures !r.Panicked?
    ensures r.Returned? ==> i + 1 < r.value.0 <= |src.tokens| && src.tokens[r.value.0 - 1].kind.StartMessage?
    ensures r.Returned? ==> forall m :: i < m < r.value.0 - 1 ==> !src.tokens[m].kind.StartMessage?
    ensures r.Diverges? <==> forall m :: i < m < |src.tokens| ==> !src.tokens[m].kind.StartMessage?
    ensures r.Returned? ==> r.value.1 == below + [comp.(cases := Put(comp.cases, name, [])), Selector(name), StartMessage]
  {
    match SkipPastStartMessage(src, i + 1)
    case Returned(j) => Returned((j, below + [comp.(cases := Put(comp.cases, name, [])), Selector(name), StartMessage]))
    case Panicked => Panicked
    case Diverges => Diverges
  }

  /** `case tokenIdentifier` with the identifier at index `i`: returns the
      index of the next token to read and the new stack. Only the node on
      top is replaced, and only by one that keeps its key; a case selector
      also pushes its markers. */
  function OnIdentifier(src: Source, i: nat, stack: seq<Node>): (r: Outcome<(nat, seq<Node>)>)
    requires i < |src.tokens|
    ensures r.Returned? ==> i < r.value.0 <= |src.tokens|
    ensures r.Returned? && |stack| > 0 ==>
      var st := r.value.1;
      |st| >= |stack| && st[..|stack| - 1] == stack[..|stack| - 1]
    ensures r.Returned? && |stack| > 0 && stack[|stack| - 1].StartAction? ==>
      r.value.1 == stack + [Placeholder(src.tokens[i].val)]
    ensures r.Returned? && |stack| > 0 && !stack[|stack| - 1].StartAction? && Keyed(stack[|stack| - 1]) ==>
      var st := r.value.1;
      Keyed(st[|stack| - 1]) && st[|stack| - 1].key == stack[|stack| - 1].key
    ensures r.Panicked? ==> |stack| > 0 && stack[|stack| - 1].Plural? && src.tokens[i].val == "offset"
  {
    var name := src.tokens[i].val;
    if |stack| == 0 then Returned((i + 1, stack))
    else
      var below, top := stack[..|stack| - 1], stack[|stack| - 1];
      assert stack == below + [top];
      match top
      case StartAction => Returned((i + 1, stack + [Placeholder(name)]))
      case Placeholder(key) => Returned((i + 1, below + [Formatter(key, name)]))
      case Formatted(f, key, _) => Returned((i + 1, below + [Formatted(f, key, name)]))
      case Custom(key, c, args) => Returned((i + 1, below + [Custom(key, c, args + [name])]))
      case Plural(rule, key, offset, cases) =>
        if name == "offset" then
          match ReadOffset(src, i + 1)
          case Returned(o) => Returned((i + 2, below + [Plural(rule, key, o, cases)]))
          case Panicked => Panicked
          case Diverges => Diverges
        else OpenCase(src, i, below, top, name)
      case Select(_, _) => OpenCase(src, i, below, top, name)
      case _ => Returned((i + 1, stack))
  }

  // ---------------------------------------------------------------------
  // The main loop

  /** The parser's `for` loop from token `i` with the given stack. At EOF
      the stack, read bottom to top, is the parsed message. */
  function Loop(src: Source, i: nat, stack: seq<Node>): (r: Outcome<seq<Node>>)
    ensures r.Returned? ==> exists k :: i <= k < |src.tokens| && src.tokens[k].kind.EOF?
    decreases |src.tokens| - i
  {
    if i >= |src.tokens| then Diverges
    else
      var t := src.tokens[i];
      if t.kind.EOF? then Returned(stack)
      else if t.kind.StartAction? then Loop(src, i + 1, stack + [StartAction])
      else if t.kind.StartMessage? then Loop(src, i + 1, stack + [StartMessage])
      else if t.kind.Text? then Loop(src, i + 1, stack + [Text(t.val)])
      else if t.kind.QuotedText? then Loop(src, i + 1, stack + [QuotedText(t.val)])
      else if t.kind.Hash? then Loop(src, i + 1, stack + [Hash])
      else if t.kind.Identifier? then
        match OnIdentifier(src, i, stack)
        case Returned((j, st)) => Loop(src, j, st)
        case Panicked => Panicked
        case Diverges => Diverges
      else if t.kind.EndMessage? then
        match CloseMessage(stack)
        case Returned(st) => Loop(src, i + 1, st)
        case Panicked => Panicked
        case Diverges => Diverges
      else if t.kind.EndAction? then
        match CloseAction(stack)
        case Returned(st) => Loop(src, i + 1, st)
        case Panicked => Panicked
        case Diverges => Diverges
      else Loop(src, i + 1, stack)
  }

  /** `parse` over a token source. */
  function Parse(src: Source): Outcome<seq<Node>> {
    Loop(src, 0, [])
  }

  /** `parse(input)`: the lexer feeding the parser. */
  function ParseTemplate(input: string): Outcome<seq<Node>> {
    Parse(SourceOf(L.Lex(input)))
  }
}
