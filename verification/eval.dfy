/** Rendering a parse tree: each node's `translate` method, threading one
    mutable context through the walk. Plural and selectordinal nodes rebind
    their key to the offset value before rendering the chosen case, and the
    new binding stays for everything rendered afterwards. */
module Eval {
  import opened Base
  import opened GoInts
  import opened GoStrings
  import opened Values
  import opened PluralRules
  import opened Ast

  /** The value formatting the engine hands to Go's `fmt` and `time`
      packages, which this model does not describe:
      `sprintf(style, v)` is `fmt.Sprintf(style, v)`, and
      `formatDate(v, layout)` is `v.(time.Time).Format(layout.(string))`. */
  datatype Formatters = Formatters(sprintf: (string, Value) -> string, formatDate: (Value, Value) -> string)

  /** `time.RFC3339`, the date layout used when `$date-format` is unbound. */
  const RFC3339 := "2006-01-02T15:04:05Z07:00"

  // ---------------------------------------------------------------------
  // Context evolution

  /** What rendering may do to a context: the tag and the set of bound
      names never change, and a changed value is always an int. */
  predicate Evolves(before: Context, after: Context) {
    && after.tag == before.tag
    && after.values.Keys == before.values.Keys
    && forall k :: k in before.values && after.values[k] != before.values[k] ==> after.values[k].Int?
  }

  lemma EvolvesTrans(a: Context, b: Context, c: Context)
    requires Evolves(a, b) && Evolves(b, c)
    ensures Evolves(a, c)
  {
  }

  // ---------------------------------------------------------------------
  // Lookups

  /** The names `#` considers: every bound name not starting with `$`. */
  function Visible(values: map<string, Value>): set<string> {
    set k | k in values && !HasPrefix(k, "$")
  }

  lemma SingletonElements(s: set<string>)
    requires |s| == 1
    ensures forall x, y :: x in s && y in s ==> x == y
  {
    forall x, y | x in s && y in s ensures x == y {
      assert |s - {x}| == 0;
    }
  }

  /** `nodeHash.translate`: the value of the only visible name, or `#`
      when there are none or several (whatever order the map is walked in). */
  function HashText(values: map<string, Value>): (r: string)
    ensures |Visible(values)| != 1 ==> r == "#"
    ensures forall k :: k in Visible(values) && |Visible(values)| == 1 ==> r == Show(values[k])
  {
    var vis := Visible(values);
    if |vis| == 1 then
      SingletonElements(vis);
      var k :| k in vis;
      Show(values[k])
    else "#"
  }

  /** The index of the case for the first candidate selector the table
      holds, trying the candidates in order. */
  function Choose(cases: seq<Case>, candidates: seq<string>): (r: Option<nat>)
    ensures r.None? <==> forall m :: 0 <= m < |candidates| ==> !HasKey(cases, candidates[m])
    ensures r.Some? ==> r.value < |cases| && exists m :: 0 <= m < |candidates| && FirstHit(cases, candidates, m) && r.value == Find(cases, candidates[m])
  {
    if |candidates| == 0 then None
    else if HasKey(cases, candidates[0]) then
      assert FirstHit(cases, candidates, 0);
      Some(Find(cases, candidates[0]))
    else
      var r := Choose(cases, candidates[1..]);
      if r.Some? then
        var m :| 0 <= m < |candidates| - 1 && FirstHit(cases, candidates[1..], m) && r.value == Find(cases, candidates[1..][m]);
        assert FirstHit(cases, candidates, m + 1);
        r
      else
        assert forall m :: 1 <= m < |candidates| ==> candidates[m] == candidates[1..][m - 1];
        r
  }

  /** `candidates[m]` is in the table and no earlier candidate is. */
  predicate FirstHit(cases: seq<Case>, candidates: seq<string>, m: int)
    requires 0 <= m < |candidates|
  {
    HasKey(cases, candidates[m]) && forall m' :: 0 <= m' < m ==> !HasKey(cases, candidates[m'])
  }

  /** `intV, _ := v.(int)`: the int, or 0 for any other type. */
  function IntOf(v: Value): Int64 {
    if v.Int? then v.i else 0
  }

  /** The category table a plural-like node consults. */
  function Category(rule: Rule, tag: string, n: int): string {
    match rule
    case Cardinal => PluralRules.Cardinal(tag, n)
    case Ordinal => PluralRules.Ordinal(tag, n)
  }

  /** The selectors a plural or selectordinal node tries, in order: the
      exact value `=v`, the category of the offset value, then `other`. */
  function PluralCandidates(rule: Rule, tag: string, v: Value, offset: Int64): seq<string> {
    ["=" + Show(v), Category(rule, tag, Sub(IntOf(v), offset)), OtherCategory]
  }

  /** The selectors a select node tries: the value's text, then `other`. */
  function SelectCandidates(v: Value): seq<string> {
    [Show(v), OtherCategory]
  }

  /** A formatter with a style. Number formats with its style (`%v` when
      empty), Date with the `$date-format` layout or RFC 3339, and the
      others print the value with `%v`. */
  function FormatValue(format: Format, style: string, v: Value, values: map<string, Value>, f: Formatters): string {
    match format
    case Number => f.sprintf(if style == "" then "%v" else style, v)
    case Date => f.formatDate(v, if "$date-format" in values then values["$date-format"] else Str(RFC3339))
    case _ => Show(v)
  }

  /** `fmt.Sprintf("%s(%v,%v)", name, v, args)`: a string slice prints as
      its elements separated by spaces inside brackets. */
  function CustomText(name: string, v: Value, args: seq<string>): string {
    name + "(" + Show(v) + ",[" + Join(args, " ") + "])"
  }

  // ---------------------------------------------------------------------
  // Rendering

  /** The names a tree may rebind: the keys of its plural and selectordinal
      nodes, including those nested in case bodies. */
  function RebindsIn(n: Node): set<string>
    decreases n, 2
  {
    match n
    case Message(ns) => RebindsInAll(ns)
    case Plural(_, key, _, cases) => {key} + RebindsInCases(cases)
    case Select(_, cases) => RebindsInCases(cases)
    case _ => {}
  }

  function RebindsInAll(ns: seq<Node>): set<string>
    decreases ns, 1
  {
    if |ns| == 0 then {} else RebindsIn(ns[0]) + RebindsInAll(ns[1..])
  }

  function RebindsInCases(cases: seq<Case>): set<string>
    decreases cases, 0
  {
    if |cases| == 0 then {} else RebindsInAll(cases[0].body) + RebindsInCases(cases[1..])
  }

  /** The bodies of a case table rebind only what the table's rebind set names. */
  lemma {:induction false} CaseRebinds(cases: seq<Case>, i: int)
    requires 0 <= i < |cases|
    ensures RebindsInAll(cases[i].body) <= RebindsInCases(cases)
  {
    if i > 0 {
      CaseRebinds(cases[1..], i - 1);
    }
  }

  /** Only the names in `keys` may have changed between the two contexts. */
  predicate KeepsOthers(before: Context, after: Context, keys: set<string>) {
    forall k :: k in before.values && k !in keys ==> k in after.values && after.values[k] == before.values[k]
  }

  /** `n.translate(ctx)`: the text and the context afterwards. */
  function Render(n: Node, ctx: Context, f: Formatters): (r: (string, Context))
    ensures Evolves(ctx, r.1)
    ensures KeepsOthers(ctx, r.1, RebindsIn(n))
    decreases n, 2
  {
    var values := ctx.values;
    match n
    case Selector(_) => ("", ctx)
    case StartAction => ("", ctx)
    case StartMessage => ("", ctx)
    case Message(ns) => RenderAll(ns, ctx, f)
    case Text(s) => (s, ctx)
    case QuotedText(s) => (s, ctx)
    case Hash => (HashText(values), ctx)
    case Placeholder(key) => (if key in values then Show(values[key]) else "", ctx)
    case Formatted(format, key, style) =>
      (if key in values then FormatValue(format, style, values[key], values, f) else "", ctx)
    case Custom(key, name, args) => (if key in values then CustomText(name, values[key], args) else "", ctx)
    case Plural(rule, key, offset, cases) => RenderPlural(rule, key, offset, cases, ctx, f)
    case Select(key, cases) => RenderSelect(key, cases, ctx, f)
  }

  /** `nodePlural.translate` and `nodeSelectOrdinal.translate`: nothing when
      the key is unbound or no case matches; otherwise the key is rebound to
      the offset value and the chosen body renders in that context. */
  function RenderPlural(rule: Rule, key: string, offset: Int64, cases: seq<Case>, ctx: Context, f: Formatters): (r: (string, Context))
    ensures Evolves(ctx, r.1)
    ensures KeepsOthers(ctx, r.1, {key} + RebindsInCases(cases))
    decreases cases, 2
  {
    var values := ctx.values;
    if key !in values then ("", ctx)
    else
      var v := values[key];
      var choice := Choose(cases, PluralCandidates(rule, ctx.tag, v, offset));
      if choice.None? then ("", ctx)
      else
        var nv := Int(Sub(IntOf(v), offset));
        var ctx' := ctx.(values := values[key := nv]);
        var r := RenderAll(cases[choice.value].body, ctx', f);
        PluralFrame(ctx, nv, r.1, key, cases, choice.value);
        r
  }

  /** `nodeSelect.translate`: nothing when the key is unbound or no case
      matches; otherwise the chosen body in the same context. */
  function RenderSelect(key: string, cases: seq<Case>, ctx: Context, f: Formatters): (r: (string, Context))
    ensures Evolves(ctx, r.1)
    ensures KeepsOthers(ctx, r.1, RebindsInCases(cases))
    decreases cases, 2
  {
    if key !in ctx.values then ("", ctx)
    else
      var choice := Choose(cases, SelectCandidates(ctx.values[key]));
      if choice.None? then ("", ctx)
      else
        var r := RenderAll(cases[choice.value].body, ctx, f);
        CaseRebinds(cases, choice.value);
        r
  }

  /** Every node that names a parameter renders nothing, and leaves the
      context alone, when that parameter is unbound. */
  lemma UnboundKeyRendersNothing(n: Node, ctx: Context, f: Formatters)
    requires Keyed(n) && n.key !in ctx.values
    ensures Render(n, ctx, f) == ("", ctx)
  {
  }

  /** Rebinding the key to an int and then rendering a case body changes
      only the key and what the table rebinds. */
  lemma PluralFrame(ctx: Context, nv: Value, after: Context, key: string, cases: seq<Case>, i: int)
    requires 0 <= i < |cases| && key in ctx.values && nv.Int?
    requires Evolves(ctx.(values := ctx.values[key := nv]), after)
    requires KeepsOthers(ctx.(values := ctx.values[key := nv]), after, RebindsInAll(cases[i].body))
    ensures Evolves(ctx, after)
    ensures KeepsOthers(ctx, after, {key} + RebindsInCases(cases))
  {
    EvolvesTrans(ctx, ctx.(values := ctx.values[key := nv]), after);
    CaseRebinds(cases, i);
  }

  /** `nodeMessage.translate(ctx)`: the children's texts in order, each
      rendered in the context the previous one left. */
  function RenderAll(ns: seq<Node>, ctx: Context, f: Formatters): (r: (string, Context))
    ensures Evolves(ctx, r.1)
    ensures KeepsOthers(ctx, r.1, RebindsInAll(ns))
    decreases ns, 1
  {
    if |ns| == 0 then ("", ctx)
    else
      var (s1, c1) := Render(ns[0], ctx, f);
      var (s2, c2) := RenderAll(ns[1..], c1, f);
      EvolvesTrans(ctx, c1, c2);
      (s1 + s2, c2)
  }

  // ---------------------------------------------------------------------
  // Properties

  /** Rendering a concatenation renders the first part, then the second in
      the context the first left behind. */
  lemma {:induction false} RenderAllAppend(a: seq<Node>, b: seq<Node>, ctx: Context, f: Formatters)
    ensures RenderAll(a + b, ctx, f) ==
      var (s1, c1) := RenderAll(a, ctx, f);
      var (s2, c2) := RenderAll(b, c1, f);
      (s1 + s2, c2)
  {
    if |a| == 0 {
      assert a + b == b;
      assert RenderAll(a, ctx, f) == ("", ctx);
      assert "" + RenderAll(b, ctx, f).0 == RenderAll(b, ctx, f).0;
    } else {
      assert (a + b)[0] == a[0];
      assert (a + b)[1..] == a[1..] + b;
      var (s0, c0) := Render(a[0], ctx, f);
      RenderAllAppend(a[1..], b, c0, f);
      var (t1, d1) := RenderAll(a[1..], c0, f);
      var (t2, d2) := RenderAll(b, d1, f);
      assert RenderAll(a + b, ctx, f) == (s0 + (t1 + t2), d2);
      assert RenderAll(a, ctx, f) == (s0 + t1, d1);
      assert (s0 + t1) + t2 == s0 + (t1 + t2);
    }
  }

  /** Nodes that render their own text whatever the context. */
  predicate Verbatim(ns: seq<Node>) {
    forall i :: 0 <= i < |ns| ==> ns[i].Text? || ns[i].QuotedText?
  }

  /** The texts of verbatim nodes, in order. */
  function Texts(ns: seq<Node>): string
    requires Verbatim(ns)
  {
    if |ns| == 0 then "" else ns[0].text + Texts(ns[1..])
  }

  lemma {:induction false} TextsAppend(a: seq<Node>, b: seq<Node>)
    requires Verbatim(a) && Verbatim(b)
    ensures Verbatim(a + b) && Texts(a + b) == Texts(a) + Texts(b)
  {
    if |a| == 0 {
      assert a + b == b;
    } else {
      assert (a + b)[1..] == a[1..] + b;
      TextsAppend(a[1..], b);
    }
  }

  /** Text and quoted text render as themselves and leave the context alone. */
  lemma {:induction false} VerbatimRenders(ns: seq<Node>, ctx: Context, f: Formatters)
    requires Verbatim(ns)
    ensures RenderAll(ns, ctx, f) == (Texts(ns), ctx)
  {
    if |ns| > 0 {
      VerbatimRenders(ns[1..], ctx, f);
    }
  }

  /** A select node never changes the context unless a case body holds a
      plural or selectordinal node. */
  lemma SelectKeepsContext(key: string, cases: seq<Case>, ctx: Context, f: Formatters)
    requires RebindsInCases(cases) == {}
    ensures Render(Select(key, cases), ctx, f).1 == ctx
  {
    var r := Render(Select(key, cases), ctx, f).1;
    assert r.values == ctx.values;
  }

  /** After a plural or selectordinal node picks a case, its key holds the
      offset value for the rest of the message, as long as the chosen body
      does not rebind it again. */
  lemma PluralRebinds(rule: Rule, key: string, offset: Int64, cases: seq<Case>, ctx: Context, f: Formatters)
    requires key in ctx.values
    requires Choose(cases, PluralCandidates(rule, ctx.tag, ctx.values[key], offset)).Some?
    requires key !in RebindsInCases(cases)
    ensures Render(Plural(rule, key, offset, cases), ctx, f).1.values[key] == Int(Sub(IntOf(ctx.values[key]), offset))
  {
    var i := Choose(cases, PluralCandidates(rule, ctx.tag, ctx.values[key], offset)).value;
    CaseRebinds(cases, i);
  }

  /** Two first hits in one candidate list are the same candidate. */
  lemma FirstHitUnique(cases: seq<Case>, candidates: seq<string>, m: int, m': int)
    requires 0 <= m < |candidates| && 0 <= m' < |candidates|
    requires FirstHit(cases, candidates, m) && FirstHit(cases, candidates, m')
    ensures m == m'
  {
  }

  /** The case `Choose` picks is the one of the first candidate the table holds. */
  lemma ChooseFirstHit(cases: seq<Case>, candidates: seq<string>, m: int)
    requires 0 <= m < |candidates| && FirstHit(cases, candidates, m)
    ensures Choose(cases, candidates) == Some(Find(cases, candidates[m]))
  {
    var r := Choose(cases, candidates);
    assert HasKey(cases, candidates[m]);
    var m' :| 0 <= m' < |candidates| && FirstHit(cases, candidates, m') && r.value == Find(cases, candidates[m']);
    FirstHitUnique(cases, candidates, m, m');
  }

  /** A plural or selectordinal node with its key bound renders the body of
      the first candidate its table holds (`=v`, then the category of the
      offset value, then `other`), in the context where the key is rebound
      to the value minus the offset; that context, as the body leaves it,
      is what follows the node. */
  lemma PluralRenders(rule: Rule, key: string, offset: Int64, cases: seq<Case>, ctx: Context, f: Formatters, m: nat)
    requires key in ctx.values
    requires m < 3 && FirstHit(cases, PluralCandidates(rule, ctx.tag, ctx.values[key], offset), m)
    ensures var v := ctx.values[key];
      var i := Find(cases, PluralCandidates(rule, ctx.tag, v, offset)[m]);
      0 <= i < |cases| &&
      Render(Plural(rule, key, offset, cases), ctx, f)
        == RenderAll(cases[i].body, ctx.(values := ctx.values[key := Int(Sub(IntOf(v), offset))]), f)
  {
    ChooseFirstHit(cases, PluralCandidates(rule, ctx.tag, ctx.values[key], offset), m);
  }

  /** A select node with its key bound renders, in the same context, the
      body of the case for the value's text, or else of `other`. */
  lemma SelectRenders(key: string, cases: seq<Case>, ctx: Context, f: Formatters, m: nat)
    requires key in ctx.values
    requires m < 2 && FirstHit(cases, SelectCandidates(ctx.values[key]), m)
    ensures var i := Find(cases, SelectCandidates(ctx.values[key])[m]);
      0 <= i < |cases| && Render(Select(key, cases), ctx, f) == RenderAll(cases[i].body, ctx, f)
  {
    ChooseFirstHit(cases, SelectCandidates(ctx.values[key]), m);
  }

  /** A plural-like node whose key is unbound, or whose table has none of
      the candidates, renders nothing and changes nothing. */
  lemma PluralMisses(rule: Rule, key: string, offset: Int64, cases: seq<Case>, ctx: Context, f: Formatters)
    requires key !in ctx.values || forall s :: s in PluralCandidates(rule, ctx.tag, ctx.values[key], offset) ==> !HasKey(cases, s)
    ensures Render(Plural(rule, key, offset, cases), ctx, f) == ("", ctx)
  {
  }

  /** A select node whose key is unbound, or whose table holds neither the
      value's text nor `other`, renders nothing and changes nothing. */
  lemma SelectMisses(key: string, cases: seq<Case>, ctx: Context, f: Formatters)
    requires key !in ctx.values || forall s :: s in SelectCandidates(ctx.values[key]) ==> !HasKey(cases, s)
    ensures Render(Select(key, cases), ctx, f) == ("", ctx)
  {
  }

  /** The time, ordinal, duration and spellout formatters ignore their style
      and print the value as a bare placeholder does. */
  lemma PlainFormatsShow(format: Format, key: string, style: string, ctx: Context, f: Formatters)
    requires format in {Time, OrdinalFormat, Duration, Spellout}
    ensures Render(Formatted(format, key, style), ctx, f) == Render(Placeholder(key), ctx, f)
  {
  }

  /** A number formatter without a style formats with `%v`. */
  lemma NumberDefaultStyle(key: string, ctx: Context, f: Formatters)
    ensures Render(Formatted(Number, key, ""), ctx, f) == Render(Formatted(Number, key, "%v"), ctx, f)
  {
  }

  /** A custom formatter prints its name, then the value and its arguments
      in parentheses, the arguments as a Go string slice: in brackets,
      separated by single spaces. */
  lemma CustomRenders(key: string, name: string, a: string, b: string, ctx: Context, f: Formatters)
    requires key in ctx.values
    ensures Render(Custom(key, name, []), ctx, f).0 == name + "(" + Show(ctx.values[key]) + ",[])"
    ensures Render(Custom(key, name, [a]), ctx, f).0 == name + "(" + Show(ctx.values[key]) + ",[" + a + "])"
    ensures Render(Custom(key, name, [a, b]), ctx, f).0 == name + "(" + Show(ctx.values[key]) + ",[" + a + " " + b + "])"
  {
    var v := Show(ctx.values[key]);
    assert [a, b][1..] == [b];
    assert Join([a, b], " ") == a + " " + b;
    assert name + "(" + v + ",[" + (a + " " + b) + "])" == name + "(" + v + ",[" + a + " " + b + "])";
    assert name + "(" + v + ",[" + "" + "])" == name + "(" + v + ",[])";
  }
}
