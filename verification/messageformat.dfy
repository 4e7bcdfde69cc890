/** The package's entry points: translating a message template against a
    language tag and parameters, and building parameters from a map. */
module Messages {
  import opened Base
  import opened Values
  import opened Ast
  import Parser
  import LP = LexerProperties
  import PP = ParserProperties
  import Eval

  /** A message template, `type MessageFormat string`. */
  datatype MessageFormat = MessageFormat(text: string)

  /** `Translate(tag, msg, ps...)`: parse the template, then render the tree
      in a fresh context. The parser never reports an error, so the only
      ways not to return a text are its panics and its endless loops. */
  function Translate(tag: string, msg: MessageFormat, ps: seq<Parameter>, f: Eval.Formatters): (r: Outcome<string>)
    ensures r.Panicked? <==> Parser.ParseTemplate(msg.text).Panicked?
    ensures r.Diverges? <==> Parser.ParseTemplate(msg.text).Diverges?
  {
    match Parser.ParseTemplate(msg.text)
    case Returned(nodes) => Returned(Eval.RenderAll(nodes, NewContext(tag, ps), f).0)
    case Panicked => Panicked
    case Diverges => Diverges
  }

  /** The text of a template that parses is its tree rendered in a fresh
      context. */
  lemma TranslateParsed(tag: string, msg: MessageFormat, ps: seq<Parameter>, f: Eval.Formatters, nodes: seq<Node>)
    requires Parser.ParseTemplate(msg.text) == Returned(nodes)
    ensures Translate(tag, msg, ps, f) == Returned(Eval.RenderAll(nodes, NewContext(tag, ps), f).0)
  {
  }

  /** `MessageFormat.String()`. */
  function String(m: MessageFormat): (s: string)
    ensures MessageFormat(s) == m
  {
    m.text
  }

  /** `MessageFormat.Translate(tag, ps...)`, the method form. */
  function TranslateMessage(m: MessageFormat, tag: string, ps: seq<Parameter>, f: Eval.Formatters): Outcome<string> {
    Translate(tag, m, ps, f)
  }

  /** The method form agrees with the function form on every template. */
  lemma TranslateForms(m: MessageFormat, tag: string, ps: seq<Parameter>, f: Eval.Formatters)
    ensures TranslateMessage(m, tag, ps, f) == Translate(tag, MessageFormat(String(m)), ps, f)
  {
  }

  // ---------------------------------------------------------------------
  // Templates end to end

  /** A template without braces, `#` or `''` translates to itself, whatever
      the tag and parameters. */
  lemma TranslatePlainText(tag: string, s: string, ps: seq<Parameter>, f: Eval.Formatters)
    requires LP.Plain(s)
    ensures Translate(tag, MessageFormat(s), ps, f) == Returned(s)
  {
    PP.PlainTextParses(s);
    var nodes := PP.TextNodes(s);
    TranslateParsed(tag, MessageFormat(s), ps, f, nodes);
    TextsOf(s);
    Eval.VerbatimRenders(nodes, NewContext(tag, ps), f);
  }

  /** The value a placeholder for `k` shows: the last parameter named `k`,
      or nothing when there is none. */
  function Shown(ps: seq<Parameter>, k: string): (s: string)
    ensures forall i :: 0 <= i < |ps| && ps[i].name == k && LastOfName(ps, i) ==> s == Show(ps[i].value)
    ensures k !in Names(ps) ==> s == ""
  {
    var ctx := NewContext("", ps);
    if k in ctx.values then Show(ctx.values[k]) else ""
  }

  /** `a{k}b` translates to `a`, the shown value of `k`, and `b`. */
  lemma TranslatePlaceholder(tag: string, a: string, k: string, b: string, ps: seq<Parameter>, f: Eval.Formatters)
    requires LP.PlainPiece(a) && LP.IsName(k) && LP.Plain(b)
    ensures Translate(tag, MessageFormat(a + "{" + k + "}" + b), ps, f) == Returned(a + Shown(ps, k) + b)
  {
    PP.PlaceholderParses(a, k, b);
    var nodes := PP.TextNodes(a) + [Message([Placeholder(k)])] + PP.TextNodes(b);
    TranslateParsed(tag, MessageFormat(a + "{" + k + "}" + b), ps, f, nodes);
    RenderPlaceholder(a, k, b, NewContext(tag, ps), f);
  }

  /** The tree of `a{k}b` renders the value bound to `k` between the texts. */
  lemma RenderPlaceholder(a: string, k: string, b: string, ctx: Context, f: Eval.Formatters)
    ensures Eval.RenderAll(PP.TextNodes(a) + [Message([Placeholder(k)])] + PP.TextNodes(b), ctx, f).0
      == a + (if k in ctx.values then Show(ctx.values[k]) else "") + b
  {
    var ta, tb := PP.TextNodes(a), PP.TextNodes(b);
    var mid: seq<Node> := [Message([Placeholder(k)])];
    Eval.RenderAllAppend(ta + mid, tb, ctx, f);
    Eval.RenderAllAppend(ta, mid, ctx, f);
    TextsOf(a);
    TextsOf(b);
    Eval.VerbatimRenders(ta, ctx, f);
    Eval.VerbatimRenders(tb, ctx, f);
    RenderPlaceholderNode(k, ctx, f);
  }

  lemma RenderPlaceholderNode(k: string, ctx: Context, f: Eval.Formatters)
    ensures Eval.RenderAll([Message([Placeholder(k)])], ctx, f) == (if k in ctx.values then Show(ctx.values[k]) else "", ctx)
  {
    var shown := if k in ctx.values then Show(ctx.values[k]) else "";
    assert Eval.Render(Placeholder(k), ctx, f) == (shown, ctx);
    assert Eval.RenderAll([Placeholder(k)], ctx, f) == (shown + "", ctx);
    assert shown + "" == shown;
    assert Eval.RenderAll([Message([Placeholder(k)])], ctx, f) == (shown + "", ctx);
  }

  lemma TextsOf(s: string)
    ensures Eval.Verbatim(PP.TextNodes(s)) && Eval.Texts(PP.TextNodes(s)) == s
  {
    if |s| > 0 {
      assert PP.TextNodes(s)[1..] == [];
      assert s + "" == s;
    }
  }

  /** `a'q'b` with a brace-led `q` without apostrophes translates to `a`,
      `q` and `b`: the quoted braces are text and the apostrophes vanish. */
  lemma TranslateQuoted(tag: string, a: string, q: string, b: string, ps: seq<Parameter>, f: Eval.Formatters)
    requires LP.PlainPiece(a) && LP.Plain(b)
    requires |q| > 0 && (q[0] == '{' || q[0] == '}') && forall j :: 0 <= j < |q| ==> q[j] != '\''
    requires |b| > 0 ==> b[0] != '\''
    ensures Translate(tag, MessageFormat(a + "'" + q + "'" + b), ps, f) == Returned(a + q + b)
  {
    PP.QuotedParses(a, q, b);
    var nodes := PP.TextNodes(a) + [QuotedText(q)] + PP.TextNodes(b);
    TranslateParsed(tag, MessageFormat(a + "'" + q + "'" + b), ps, f, nodes);
    QuotedTexts(a, q, b);
    Eval.VerbatimRenders(nodes, NewContext(tag, ps), f);
  }

  lemma QuotedTexts(a: string, q: string, b: string)
    ensures var nodes := PP.TextNodes(a) + [QuotedText(q)] + PP.TextNodes(b);
      Eval.Verbatim(nodes) && Eval.Texts(nodes) == a + q + b
  {
    var mid: seq<Node> := [QuotedText(q)];
    TextsOf(a);
    TextsOf(b);
    assert Eval.Texts(mid) == q + Eval.Texts([]);
    Eval.TextsAppend(PP.TextNodes(a), mid);
    Eval.TextsAppend(PP.TextNodes(a) + mid, PP.TextNodes(b));
  }

  /** A quoted placeholder is text (the `Use '{foo}' as a variable.` row of
      the translation table). */
  lemma TranslateQuotedExample(msg: string, f: Eval.Formatters)
    requires msg == "Use '{foo}' as a variable."
    ensures Translate("en", MessageFormat(msg), [], f) == Returned("Use {foo} as a variable.")
  {
    var a, q, b := QuotedExamplePieces();
    QuotedExampleJoins(a, q, b);
    TranslateQuoted("en", a, q, b, [], f);
  }

  lemma QuotedExamplePieces() returns (a: string, q: string, b: string)
    ensures a == "Use " && q == "{foo}" && b == " as a variable."
    ensures LP.PlainPiece(a) && LP.Plain(b) && b[0] != '\''
    ensures q[0] == '{' && forall j :: 0 <= j < |q| ==> q[j] != '\''
  {
    a, q, b := "Use ", "{foo}", " as a variable.";
  }

  lemma QuotedExampleJoins(a: string, q: string, b: string)
    requires a == "Use " && q == "{foo}" && b == " as a variable."
    ensures a + "'" + q + "'" + b == "Use '{foo}' as a variable."
    ensures a + q + b == "Use {foo} as a variable."
  {
  }

  /** Plain text ignores the parameters (first rows of the translation table). */
  lemma TranslateTextExample(f: Eval.Formatters)
    ensures Translate("en", MessageFormat("Hello!"), [P("foo", Str("Bar"))], f) == Returned("Hello!")
  {
    TranslatePlainText("en", "Hello!", [P("foo", Str("Bar"))], f);
  }

  /** A placeholder shows its parameter (the `Hello {name}!` row of the
      translation table with `name` bound). */
  lemma TranslatePlaceholderExample(msg: string, f: Eval.Formatters)
    requires msg == "Hello {name}!"
    ensures Translate("en", MessageFormat(msg), [P("name", Str("Bob"))], f) == Returned("Hello Bob!")
  {
    var ps := [P("name", Str("Bob"))];
    assert msg == "Hello " + "{" + "name" + "}" + "!";
    assert Translate("en", MessageFormat(msg), ps, f) == Returned("Hello " + Shown(ps, "name") + "!") by {
      TranslatePlaceholder("en", "Hello ", "name", "!", ps, f);
    }
    assert Shown(ps, "name") == "Bob" by {
      assert LastOfName(ps, 0);
    }
    assert "Hello " + "Bob" + "!" == "Hello Bob!";
  }

  /** A placeholder without a parameter shows nothing (the `Hello {name}!`
      row of the translation table with no parameters). */
  lemma TranslateMissingExample(msg: string, f: Eval.Formatters)
    requires msg == "Hello {name}!"
    ensures Translate("en", MessageFormat(msg), [], f) == Returned("Hello !")
  {
    assert msg == "Hello " + "{" + "name" + "}" + "!";
    assert Translate("en", MessageFormat(msg), [], f) == Returned("Hello " + Shown([], "name") + "!") by {
      TranslatePlaceholder("en", "Hello ", "name", "!", [], f);
    }
    assert "name" !in Names([]);
    assert "Hello " + "" + "!" == "Hello !";
  }

  // ---------------------------------------------------------------------
  // Parameters from a map

  /** The dynamic argument of `ParametersFrom`: a string map, an interface
      map, or anything else (including nil). */
  datatype Dynamic =
    | StringMap(strings: map<string, string>)
    | ValueMap(values: map<string, Value>)
    | Unsupported

  function Domain(d: Dynamic): set<string> {
    match d
    case StringMap(m) => m.Keys
    case ValueMap(m) => m.Keys
    case Unsupported => {}
  }

  /** `order` lists each key of the map exactly once: the order Go's map
      iteration happens to take. */
  predicate Enumerates(order: seq<string>, keys: set<string>) {
    && (forall i, j :: 0 <= i < j < |order| ==> order[i] != order[j])
    && (forall i :: 0 <= i < |order| ==> order[i] in keys)
    && (forall k :: k in keys ==> k in order)
  }

  /** The parameter an entry becomes: a string as it is, any other value
      as `fmt.Sprint` prints it. */
  function Entry(d: Dynamic, k: string): Parameter
    requires k in Domain(d)
  {
    match d
    case StringMap(m) => P(k, Str(m[k]))
    case ValueMap(m) => P(k, Str(Show(m[k])))
  }

  /** `ParametersFrom(v)`, with the map visited in `order`. */
  function ParametersFrom(d: Dynamic, order: seq<string>): (ps: seq<Parameter>)
    requires Enumerates(order, Domain(d))
    ensures d.Unsupported? ==> ps == []
    ensures |ps| == |order|
    ensures forall i :: 0 <= i < |ps| ==> ps[i] == Entry(d, order[i])
    ensures forall p :: p in ps <==> exists k :: k in Domain(d) && p == Entry(d, k)
    ensures forall i :: 0 <= i < |ps| ==> ps[i].value.Str? && ps[i].name in Domain(d)
    ensures forall i, j :: 0 <= i < j < |ps| ==> ps[i].name != ps[j].name
  {
    ParametersFromKeys(d, order, Domain(d))
  }

  /** The loop over the keys in `order`, collecting one parameter each. */
  function ParametersFromKeys(d: Dynamic, order: seq<string>, keys: set<string>): (ps: seq<Parameter>)
    requires keys <= Domain(d) && Enumerates(order, keys)
    ensures |ps| == |order|
    ensures forall i :: 0 <= i < |ps| ==> ps[i] == Entry(d, order[i])
    ensures forall p :: p in ps <==> exists k :: k in keys && p == Entry(d, k)
  {
    if |order| == 0 then []
    else
      var k := order[|order| - 1];
      var front := order[..|order| - 1];
      assert Enumerates(front, keys - {k}) by {
        forall k' | k' in keys - {k} ensures k' in front {
          var i :| 0 <= i < |order| && order[i] == k';
        }
      }
      var rest := ParametersFromKeys(d, front, keys - {k});
      var ps := rest + [Entry(d, k)];
      assert forall p :: p in ps <==> p in rest || p == Entry(d, k);
      ps
  }

  /** Binding the parameters built from a map gives back that map, with
      every value as text: no name is lost and none is bound twice. */
  lemma ParametersFromBindsMap(tag: string, d: Dynamic, order: seq<string>)
    requires Enumerates(order, Domain(d))
    ensures NewContext(tag, ParametersFrom(d, order)).values == map k | k in Domain(d) :: Entry(d, k).value
  {
    var m := NewContext(tag, ParametersFrom(d, order)).values;
    var want := map k | k in Domain(d) :: Entry(d, k).value;
    assert m.Keys == want.Keys by {
      NamesOfParameters(d, order);
    }
    assert forall k :: k in want ==> m[k] == want[k] by {
      forall k | k in want ensures m[k] == want[k] {
        BoundEntry(tag, d, order, k);
      }
    }
    SameMap(m, want);
  }

  lemma SameMap<K, V>(m: map<K, V>, want: map<K, V>)
    requires m.Keys == want.Keys
    requires forall k :: k in want ==> m[k] == want[k]
    ensures m == want
  {
  }

  /** Every key of the map names a parameter, and nothing else does. */
  lemma NamesOfParameters(d: Dynamic, order: seq<string>)
    requires Enumerates(order, Domain(d))
    ensures Names(ParametersFrom(d, order)) == Domain(d)
  {
    var ps := ParametersFrom(d, order);
    forall k | k in Domain(d) ensures k in Names(ps) {
      var i :| 0 <= i < |order| && order[i] == k;
      assert ps[i].name == k;
    }
  }

  /** Each key is bound to its entry's value: its parameter is the only
      one with that name. */
  lemma BoundEntry(tag: string, d: Dynamic, order: seq<string>, k: string)
    requires Enumerates(order, Domain(d)) && k in Domain(d)
    ensures k in NewContext(tag, ParametersFrom(d, order)).values
    ensures NewContext(tag, ParametersFrom(d, order)).values[k] == Entry(d, k).value
  {
    var ps := ParametersFrom(d, order);
    var i :| 0 <= i < |order| && order[i] == k;
    assert ps[i] == Entry(d, k);
    assert LastOfName(ps, i);
  }
}
