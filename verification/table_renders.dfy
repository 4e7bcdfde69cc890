/** Translating a template made of plain text and one plural,
    selectordinal or select argument whose case bodies hold plain text and
    `#`: the argument renders the body of the case its value picks, with
    every `#` replaced by the value it shows. */
module TableRenders {
  import opened Base
  import opened GoInts
  import GoStrings
  import opened Values
  import opened Ast
  import PluralRules
  import Eval
  import PP = ParserProperties
  import LT = LexerTables
  import PT = ParserTables
  import Messages

  // ---------------------------------------------------------------------
  // Case bodies

  /** Text nodes of a piece render the piece. */
  lemma TextNodesRender(s: string, ctx: Context, f: Eval.Formatters)
    ensures Eval.RenderAll(PP.TextNodes(s), ctx, f) == (s, ctx)
  {
    if |s| > 0 {
      assert PP.TextNodes(s)[1..] == [];
      assert s + "" == s;
    }
  }

  /** A case body renders its pieces joined by the text of `#`, and leaves
      the context as it found it. */
  lemma {:induction false} BodyRenders(pieces: seq<string>, ctx: Context, f: Eval.Formatters)
    ensures Eval.RenderAll(PT.BodyNodes(pieces), ctx, f) == (GoStrings.Join(pieces, Eval.HashText(ctx.values)), ctx)
    decreases |pieces|
  {
    if |pieces| == 1 {
      TextNodesRender(pieces[0], ctx, f);
    } else if |pieces| > 1 {
      var h := Eval.HashText(ctx.values);
      var rest := PT.BodyNodes(pieces[1..]);
      BodyRenders(pieces[1..], ctx, f);
      assert ([Hash] + rest)[0] == Hash && ([Hash] + rest)[1..] == rest;
      assert Eval.RenderAll([Hash] + rest, ctx, f) == (h + GoStrings.Join(pieces[1..], h), ctx);
      TextNodesRender(pieces[0], ctx, f);
      assert PT.BodyNodes(pieces) == PP.TextNodes(pieces[0]) + ([Hash] + rest);
      Eval.RenderAllAppend(PP.TextNodes(pieces[0]), [Hash] + rest, ctx, f);
      assert pieces[0] + (h + GoStrings.Join(pieces[1..], h)) == pieces[0] + h + GoStrings.Join(pieces[1..], h);
    }
  }

  // ---------------------------------------------------------------------
  // The whole template

  /** Such a template translates to the text before, what the argument's
      node renders in a fresh context, and the text after. */
  lemma TranslateTable(tag: string, t: LT.TableText, ps: seq<Parameter>, f: Eval.Formatters)
    requires PT.Regular(t)
    ensures Messages.Translate(tag, Messages.MessageFormat(LT.TableSource(t)), ps, f)
      == Returned(t.before + Eval.Render(PT.TableNode(t), NewContext(tag, ps), f).0 + t.after)
  {
    var nodes := PP.TextNodes(t.before) + [Message([PT.TableNode(t)])] + PP.TextNodes(t.after);
    PT.TableParses(t);
    Messages.TranslateParsed(tag, Messages.MessageFormat(LT.TableSource(t)), ps, f, nodes);
    AroundRenders(t.before, PT.TableNode(t), t.after, nodes, NewContext(tag, ps), f);
  }

  /** Text, one nested message, text: the texts around what the message's
      node renders. */
  lemma AroundRenders(before: string, n: Node, after: string, nodes: seq<Node>, ctx: Context, f: Eval.Formatters)
    requires nodes == PP.TextNodes(before) + [Message([n])] + PP.TextNodes(after)
    ensures Eval.RenderAll(nodes, ctx, f).0 == before + Eval.Render(n, ctx, f).0 + after
  {
    var mid := [Message([n])];
    TextNodesRender(before, ctx, f);
    Eval.RenderAllAppend(PP.TextNodes(before), mid, ctx, f);
    var r := Eval.Render(n, ctx, f);
    assert [n][1..] == [] && mid[1..] == [];
    assert r.0 + "" == r.0;
    assert Eval.RenderAll([n], ctx, f) == r;
    assert Eval.Render(Message([n]), ctx, f) == r;
    assert Eval.RenderAll(mid, ctx, f) == r;
    TextNodesRender(after, r.1, f);
    Eval.RenderAllAppend(PP.TextNodes(before) + mid, PP.TextNodes(after), ctx, f);
  }

  /** Some case of the list is named `k`. */
  predicate Named(cs: seq<LT.CaseText>, k: string) {
    exists j :: 0 <= j < |cs| && cs[j].selector == k
  }

  /** `cs[i]` is the last case named `k`. */
  predicate LastNamed(cs: seq<LT.CaseText>, k: string, i: int) {
    0 <= i < |cs| && cs[i].selector == k && forall j :: i < j < |cs| ==> cs[j].selector != k
  }

  /** The table the cases fill holds a selector exactly when a case names
      it, and its body for that selector is the last such case's. */
  lemma TableHolds(cs: seq<LT.CaseText>, k: string, i: int)
    requires LastNamed(cs, k, i)
    ensures HasKey(PT.CaseTable([], cs), k)
    ensures PT.CaseTable([], cs)[Find(PT.CaseTable([], cs), k)].body == PT.BodyNodes(cs[i].pieces)
  {
    PT.CaseTableGet([], cs, k);
  }

  lemma TableLacks(cs: seq<LT.CaseText>, k: string)
    requires !Named(cs, k)
    ensures !HasKey(PT.CaseTable([], cs), k)
  {
    PT.CaseTableGet([], cs, k);
  }

  /** The rule the kind names. */
  function RuleOf(kind: string): Rule {
    if kind == "plural" then Cardinal else Ordinal
  }

  /** The selectors a plural-like argument of the template tries. */
  function TableCandidates(t: LT.TableText, ctx: Context): seq<string>
    requires t.key in ctx.values
  {
    Eval.PluralCandidates(RuleOf(t.kind), ctx.tag, ctx.values[t.key], PT.OffsetValue(t.offset))
  }

  /** A plural or selectordinal template whose key is bound translates to
      the text around the argument and the pieces of the last case named
      by the first candidate any case names (`=v`, the category of the
      value minus the offset, `other`), joined by what `#` shows once the
      key holds the value minus the offset. */
  lemma TranslatePluralTable(tag: string, t: LT.TableText, ps: seq<Parameter>, f: Eval.Formatters, m: nat, i: nat)
    requires PT.Regular(t) && t.kind != "select" && t.key in Names(ps)
    requires m < 3 && LastNamed(t.cases, TableCandidates(t, NewContext(tag, ps))[m], i)
    requires forall m' :: 0 <= m' < m ==> !Named(t.cases, TableCandidates(t, NewContext(tag, ps))[m'])
    ensures var ctx := NewContext(tag, ps);
      var nv := Int(Sub(Eval.IntOf(ctx.values[t.key]), PT.OffsetValue(t.offset)));
      Messages.Translate(tag, Messages.MessageFormat(LT.TableSource(t)), ps, f)
        == Returned(t.before + GoStrings.Join(t.cases[i].pieces, Eval.HashText(ctx.values[t.key := nv])) + t.after)
  {
    var ctx := NewContext(tag, ps);
    var cands := TableCandidates(t, ctx);
    var table := PT.CaseTable([], t.cases);
    var offset := PT.OffsetValue(t.offset);
    var nv := Int(Sub(Eval.IntOf(ctx.values[t.key]), offset));
    var ctx' := ctx.(values := ctx.values[t.key := nv]);
    TranslateTable(tag, t, ps, f);
    assert PT.TableNode(t) == Plural(RuleOf(t.kind), t.key, offset, table);
    TableHolds(t.cases, cands[m], i);
    forall m' | 0 <= m' < m ensures !HasKey(table, cands[m']) {
      TableLacks(t.cases, cands[m']);
    }
    assert Eval.FirstHit(table, cands, m);
    Eval.PluralRenders(RuleOf(t.kind), t.key, offset, table, ctx, f, m);
    BodyRenders(t.cases[i].pieces, ctx', f);
  }

  /** A select template whose key is bound translates to the text around
      the argument and the pieces of the last case named by the value's
      text, or else by `other`, joined by what `#` shows. */
  lemma TranslateSelectTable(tag: string, t: LT.TableText, ps: seq<Parameter>, f: Eval.Formatters, m: nat, i: nat)
    requires PT.Regular(t) && t.kind == "select" && t.key in Names(ps)
    requires m < 2 && LastNamed(t.cases, Eval.SelectCandidates(NewContext(tag, ps).values[t.key])[m], i)
    requires forall m' :: 0 <= m' < m ==> !Named(t.cases, Eval.SelectCandidates(NewContext(tag, ps).values[t.key])[m'])
    ensures Messages.Translate(tag, Messages.MessageFormat(LT.TableSource(t)), ps, f)
      == Returned(t.before + GoStrings.Join(t.cases[i].pieces, Eval.HashText(NewContext(tag, ps).values)) + t.after)
  {
    var ctx := NewContext(tag, ps);
    var cands := Eval.SelectCandidates(ctx.values[t.key]);
    var table := PT.CaseTable([], t.cases);
    TranslateTable(tag, t, ps, f);
    assert PT.TableNode(t) == Select(t.key, table);
    TableHolds(t.cases, cands[m], i);
    forall m' | 0 <= m' < m ensures !HasKey(table, cands[m']) {
      TableLacks(t.cases, cands[m']);
    }
    assert Eval.FirstHit(table, cands, m);
    Eval.SelectRenders(t.key, table, ctx, f, m);
    BodyRenders(t.cases[i].pieces, ctx, f);
  }
}
