/** Parameter values, their `%v` text, and the evaluation context that
    `newContext` builds from a language tag and a parameter list. */
module Values {
  import opened GoInts
  import opened GoStrings

  /** A Go `interface{}` value as the engine sees it: it distinguishes
      strings, `int`s (for plural matching) and booleans; any other value
      is known only by the text `%v` prints for it. */
  datatype Value =
    | Str(s: string)
    | Int(i: Int64)
    | Bool(b: bool)
    | Other(shown: string)

  /** `fmt.Sprint(v)`, equivalently `fmt.Sprintf("%v", v)`. */
  function Show(v: Value): string {
    match v
    case Str(s) => s
    case Int(i) => Decimal(i)
    case Bool(b) => if b then "true" else "false"
    case Other(shown) => shown
  }

  /** An int prints in decimal, which `strconv.Atoi` reads back. */
  lemma ShowReadsBack(v: Value)
    requires v.Int?
    ensures Atoi(Show(v)) == v.i
  {
    AtoiDecimal(v.i);
  }

  /** Two ints print the same exactly when they are equal. */
  lemma ShowIntInjective(a: Int64, b: Int64)
    ensures Show(Int(a)) == Show(Int(b)) <==> a == b
  {
    AtoiDecimal(a);
    AtoiDecimal(b);
  }

  datatype Parameter = Parameter(name: string, value: Value)

  /** `P(name, value)`. */
  function P(name: string, value: Value): (p: Parameter)
    ensures p.name == name && p.value == value
  {
    Parameter(name, value)
  }

  /** `Parameters.Less`: parameters are ordered by name alone. */
  predicate ParamLess(a: Parameter, b: Parameter) {
    Less(a.name, b.name)
  }

  /** The order ignores values, so it is a strict order on names. */
  lemma ParamLessByNameOnly(a: Parameter, b: Parameter, c: Parameter)
    ensures ParamLess(a, b) <==> ParamLess(a.(value := c.value), b.(value := c.value))
    ensures !ParamLess(a, a)
    ensures ParamLess(a, b) && ParamLess(b, c) ==> ParamLess(a, c)
    ensures a.name == b.name ==> !ParamLess(a, b) && !ParamLess(b, a)
  {
    LessIsStrictTotalOrder(a.name, b.name, c.name);
  }

  /** The evaluation context: the language part of the tag and the
      parameter values by name. */
  datatype Context = Context(tag: string, values: map<string, Value>)

  /** The language part of a tag: the text before the first `-`, unless the
      tag starts with `-` or has none. */
  function Language(tag: string): (r: string)
    ensures !Contains(tag, "-") ==> r == tag
    ensures |tag| > 0 && tag[0] == '-' ==> r == tag
    ensures r != tag ==> |r| > 0 && HasPrefix(tag, r + "-") && !Contains(r, "-")
    ensures |tag| > 0 && tag[0] != '-' && Contains(tag, "-") ==>
              |r| > 0 && HasPrefix(tag, r + "-") && !Contains(r, "-")
  {
    var idx := Index(tag, "-");
    if idx > 0 then
      NoOccurrenceInPrefix(tag, "-", idx);
      assert tag[..idx + 1] == tag[..idx] + "-";
      tag[..idx]
    else
      assert |tag| > 0 && tag[0] == '-' ==> OccursAt(tag, "-", 0);
      tag
  }

  /** The language part is determined by where the first `-` is: any
      non-empty dash-free text followed by `-` at the head of the tag is it. */
  lemma {:induction false} LanguageIsHead(tag: string, lang: string)
    requires |lang| > 0 && HasPrefix(tag, lang + "-") && !Contains(lang, "-")
    ensures Language(tag) == lang
  {
    assert OccursAt(tag, "-", |lang|);
    assert lang[0] != '-' by {
      assert !OccursAt(lang, "-", 0);
    }
    assert tag[0] == lang[0];
    DashFreeHeadsAgree(tag, Language(tag), lang);
  }

  /** Two dash-free texts that each head the tag followed by `-` are the same text. */
  lemma DashFreeHeadsAgree(tag: string, p: string, q: string)
    requires HasPrefix(tag, p + "-") && !Contains(p, "-")
    requires HasPrefix(tag, q + "-") && !Contains(q, "-")
    ensures p == q
  {
    FirstDash(tag, p);
    FirstDash(tag, q);
  }

  /** A dash-free head followed by `-` ends at the tag's first `-`. */
  lemma FirstDash(tag: string, p: string)
    requires HasPrefix(tag, p + "-") && !Contains(p, "-")
    ensures |p| < |tag| && tag[|p|] == '-' && p == tag[..|p|]
    ensures forall k :: 0 <= k < |p| ==> tag[k] != '-'
  {
    assert tag[..|p| + 1] == p + "-";
    assert tag[|p|] == (p + "-")[|p|];
    forall k | 0 <= k < |p|
      ensures tag[k] != '-'
    {
      assert !OccursAt(p, "-", k);
      assert p[k..k + 1] == [p[k]];
      assert tag[k] == (p + "-")[k];
    }
  }

  /** The names of a parameter list. */
  function Names(ps: seq<Parameter>): set<string> {
    set i | 0 <= i < |ps| :: ps[i].name
  }

  /** `ps[i]` is the last parameter named `ps[i].name`. */
  predicate LastOfName(ps: seq<Parameter>, i: int)
    requires 0 <= i < |ps|
  {
    forall j :: i < j < |ps| ==> ps[j].name != ps[i].name
  }

  lemma NamesSnoc(ps: seq<Parameter>)
    requires |ps| > 0
    ensures Names(ps) == Names(ps[..|ps| - 1]) + {ps[|ps| - 1].name}
  {
    var front := ps[..|ps| - 1];
    forall x | x in Names(ps) ensures x in Names(front) + {ps[|ps| - 1].name} {
      var i :| 0 <= i < |ps| && ps[i].name == x;
      if i < |ps| - 1 { assert front[i] == ps[i]; }
    }
    forall x | x in Names(front) ensures x in Names(ps) {
      var i :| 0 <= i < |front| && front[i].name == x;
      assert ps[i] == front[i];
    }
  }

  /** Inserting the parameters into a map one after the other. */
  function Bind(ps: seq<Parameter>): (m: map<string, Value>)
    ensures m.Keys == Names(ps)
    ensures forall i :: 0 <= i < |ps| && LastOfName(ps, i) ==> m[ps[i].name] == ps[i].value
  {
    if |ps| == 0 then map[]
    else
      var front, last := ps[..|ps| - 1], ps[|ps| - 1];
      var m0 := Bind(front);
      NamesSnoc(ps);
      BindSnoc(ps, m0);
      m0[last.name := last.value]
  }

  lemma BindSnoc(ps: seq<Parameter>, m0: map<string, Value>)
    requires |ps| > 0
    requires forall i :: 0 <= i < |ps| - 1 && LastOfName(ps[..|ps| - 1], i) ==> ps[i].name in m0 && m0[ps[i].name] == ps[i].value
    ensures forall i :: 0 <= i < |ps| && LastOfName(ps, i) ==>
      var m := m0[ps[|ps| - 1].name := ps[|ps| - 1].value];
      ps[i].name in m && m[ps[i].name] == ps[i].value
  {
    var front, last := ps[..|ps| - 1], ps[|ps| - 1];
    forall i | 0 <= i < |ps| && LastOfName(ps, i)
      ensures var m := m0[last.name := last.value]; ps[i].name in m && m[ps[i].name] == ps[i].value
    {
      if i < |ps| - 1 {
        assert ps[i].name != last.name;
        assert LastOfName(front, i);
      }
    }
  }

  /** `newContext(tag, ps...)`: the tag is cut to its language part, and a
      name given twice takes the later value. */
  function NewContext(tag: string, ps: seq<Parameter>): (ctx: Context)
    ensures ctx.tag == Language(tag)
    ensures ctx.values.Keys == Names(ps)
    ensures forall i :: 0 <= i < |ps| && LastOfName(ps, i) ==> ctx.values[ps[i].name] == ps[i].value
  {
    Context(Language(tag), Bind(ps))
  }
}
