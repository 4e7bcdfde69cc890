/** Translators: a hierarchy of translation tables in which a level that
    has no usable template for a key hands the key to its base. */
module Translators {
  import opened Base
  import opened Values
  import Eval
  import M = Messages

  /** The `Translator` interface, as the two implementations the package
      has: a (possibly nil) `*HierachicalTranslator`, and a plain function
      wrapped as `TranslatorFunc`. */
  datatype Translator =
    | Hierarchical(level: Option<Level>)
    | Func(fn: (string, seq<Parameter>) -> string)

  /** One `HierachicalTranslator`: an optional base (a nil interface is
      `None`), the language tag and the templates by key. */
  datatype Level = Level(base: Option<Translator>, tag: string, translations: map<string, M.MessageFormat>)

  /** `NewHierachicalTranslator()`. */
  function NewHierarchical(): (t: Translator)
    ensures t.Hierarchical? && t.level.Some?
    ensures t.level.value.tag == "en" && t.level.value.translations == map[] && t.level.value.base.None?
  {
    Hierarchical(Some(Level(None, "en", map[])))
  }

  /** `IsRoot()`: nil, or no base to fall back on. */
  predicate IsRoot(level: Option<Level>) {
    level.None? || level.value.base.None?
  }

  /** `nilTranslatorFunc`: hands back the key. */
  function NilTranslatorFunc(key: string, ps: seq<Parameter>): (r: string)
    ensures r == key
  {
    key
  }

  /** `nilTranslator`, the function wrapped as a translator. */
  const NilTranslator: Translator := Func(NilTranslatorFunc)

  /** `t.Translate(key, ps...)`. A template that fails to translate would
      fall back like a missing key, but translating a template never reports
      an error: a panic or an endless loop while rendering is not caught, so
      it is the caller's too. */
  function Translate(t: Translator, key: string, ps: seq<Parameter>, f: Eval.Formatters): (r: Outcome<string>)
    decreases t
  {
    match t
    case Func(fn) => Returned(fn(key, ps))
    case Hierarchical(None) => Returned(key)
    case Hierarchical(Some(level)) =>
      if key in level.translations then M.Translate(level.tag, level.translations[key], ps, f)
      else if !IsRoot(Some(level)) then Translate(level.base.value, key, ps, f)
      else Returned(key)
  }

  // ---------------------------------------------------------------------
  // The fallback chain

  /** The levels a key may pass through, starting at `t`. */
  function Chain(t: Translator): seq<Level>
    decreases t
  {
    match t
    case Hierarchical(Some(level)) =>
      if level.base.Some? then [level] + Chain(level.base.value) else [level]
    case _ => []
  }

  /** What the chain hands a missing key to after its last level: a
      function or a nil translator, or nothing when it ends at a root. */
  function End(t: Translator): Option<Translator>
    decreases t
  {
    match t
    case Hierarchical(Some(level)) => if level.base.Some? then End(level.base.value) else None
    case _ => Some(t)
  }

  /** A nil translator is a root; along a chain every level but the last
      has a base, and the last is a root exactly when the chain hands a
      missing key to nothing. */
  lemma {:induction false} ChainRoots(t: Translator)
    ensures IsRoot(None)
    ensures forall j :: 0 <= j < |Chain(t)| - 1 ==> !IsRoot(Some(Chain(t)[j]))
    ensures |Chain(t)| > 0 ==> (IsRoot(Some(Chain(t)[|Chain(t)| - 1])) <==> End(t).None?)
    decreases t
  {
    match t
    case Hierarchical(Some(level)) =>
      if level.base.Some? {
        var b := level.base.value;
        ChainRoots(b);
        assert Chain(t) == [level] + Chain(b);
        if |Chain(b)| == 0 {
          assert !b.Hierarchical? || b.level.None?;
        }
      }
    case _ =>
  }

  /** A nil translator and `nilTranslator` both answer with the key. */
  lemma NilAnswersKey(key: string, ps: seq<Parameter>, f: Eval.Formatters)
    ensures Translate(Hierarchical(None), key, ps, f) == Returned(key)
    ensures Translate(NilTranslator, key, ps, f) == Returned(key)
  {
  }

  /** A level holding the key answers with its rendering, in its own tag,
      and never consults its base. */
  lemma LevelAnswers(level: Level, key: string, ps: seq<Parameter>, f: Eval.Formatters)
    requires key in level.translations
    ensures Translate(Hierarchical(Some(level)), key, ps, f) == M.Translate(level.tag, level.translations[key], ps, f)
  {
  }

  /** A level without the key hands it to its base, or answers with the
      key itself when it is root. */
  lemma LevelFallsBack(level: Level, key: string, ps: seq<Parameter>, f: Eval.Formatters)
    requires key !in level.translations
    ensures level.base.Some? ==> Translate(Hierarchical(Some(level)), key, ps, f) == Translate(level.base.value, key, ps, f)
    ensures level.base.None? ==> Translate(Hierarchical(Some(level)), key, ps, f) == Returned(key)
  {
  }

  /** When no level of the chain holds the key, the answer is what the end
      of the chain answers, and the key itself when it ends at a root. */
  lemma {:induction false} ChainMisses(t: Translator, key: string, ps: seq<Parameter>, f: Eval.Formatters)
    requires forall i :: 0 <= i < |Chain(t)| ==> key !in Chain(t)[i].translations
    ensures End(t).None? ==> Translate(t, key, ps, f) == Returned(key)
    ensures End(t).Some? ==> Translate(t, key, ps, f) == Translate(End(t).value, key, ps, f)
    decreases t
  {
    match t
    case Hierarchical(Some(level)) =>
      assert Chain(t)[0] == level;
      if level.base.Some? {
        var b := level.base.value;
        assert Chain(b) == Chain(t)[1..];
        ChainMisses(b, key, ps, f);
      }
    case _ =>
  }

  /** The first level of the chain that holds the key decides the answer. */
  lemma {:induction false} FirstHolderAnswers(t: Translator, key: string, ps: seq<Parameter>, f: Eval.Formatters, i: nat)
    requires i < |Chain(t)| && key in Chain(t)[i].translations
    requires forall j :: 0 <= j < i ==> key !in Chain(t)[j].translations
    ensures Translate(t, key, ps, f) == M.Translate(Chain(t)[i].tag, Chain(t)[i].translations[key], ps, f)
    decreases t
  {
    match t
    case Hierarchical(Some(level)) =>
      assert Chain(t)[0] == level;
      if i > 0 {
        var b := level.base.value;
        assert Chain(b) == Chain(t)[1..];
        FirstHolderAnswers(b, key, ps, f, i - 1);
      }
  }

  /** The translator of the package's own test: a root English level with
      two templates. */
  function ExampleTranslator(greeting: string, zap: string): Translator {
    Hierarchical(Some(Level(None, "en", map["foo:bar" := M.MessageFormat(greeting), "zap" := M.MessageFormat(zap)])))
  }

  /** `foo:bar` renders `Hello {foo}!` with the given value, and a key the
      table lacks comes back unchanged. */
  lemma TranslatorExample(greeting: string, zap: string, f: Eval.Formatters)
    requires greeting == "Hello {foo}!" && zap == "{fizzle}"
    ensures var t := ExampleTranslator(greeting, zap);
      && Translate(t, "foo:bar", [P("foo", Str("FOO"))], f) == Returned("Hello FOO!")
      && Translate(t, "fizzle", [], f) == Returned("fizzle")
  {
    GreetingRow(greeting, zap, f);
  }

  lemma GreetingRow(greeting: string, zap: string, f: Eval.Formatters)
    requires greeting == "Hello {foo}!"
    ensures Translate(ExampleTranslator(greeting, zap), "foo:bar", [P("foo", Str("FOO"))], f) == Returned("Hello FOO!")
  {
    var ps := [P("foo", Str("FOO"))];
    assert LastOfName(ps, 0);
    GreetingPieces(greeting);
    assert M.Shown(ps, "foo") == "FOO";
    M.TranslatePlaceholder("en", "Hello ", "foo", "!", ps, f);
  }

  lemma GreetingPieces(greeting: string)
    requires greeting == "Hello {foo}!"
    ensures greeting == "Hello " + "{" + "foo" + "}" + "!"
    ensures "Hello " + "FOO" + "!" == "Hello FOO!"
  {
  }

  /** `zap` is the bare placeholder `{fizzle}`: it renders the value alone. */
  lemma TranslatorBareExample(greeting: string, zap: string, f: Eval.Formatters)
    requires greeting == "Hello {foo}!" && zap == "{fizzle}"
    ensures Translate(ExampleTranslator(greeting, zap), "zap", [P("fizzle", Str("BAR"))], f) == Returned("BAR")
  {
    var ps := [P("fizzle", Str("BAR"))];
    assert LastOfName(ps, 0);
    ZapPieces(zap);
    assert M.Shown(ps, "fizzle") == "BAR";
    M.TranslatePlaceholder("en", "", "fizzle", "", ps, f);
  }

  lemma ZapPieces(zap: string)
    requires zap == "{fizzle}"
    ensures zap == "" + "{" + "fizzle" + "}" + ""
    ensures "" + "BAR" + "" == "BAR"
  {
  }
}
