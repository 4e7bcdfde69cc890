/** Plural, selectordinal and select templates of the translation table,
    end to end: the template text is an argument as the table lemmas
    describe, and each row's parameter picks the row's case. */
module TableExamples {
  import opened Base
  import opened GoInts
  import GoStrings
  import opened Values
  import opened Ast
  import PluralRules
  import Eval
  import LT = LexerTables
  import LP = LexerProperties
  import PT = ParserTables
  import Messages
  import opened TableRenders

  // ---------------------------------------------------------------------
  // A context with one parameter

  /** English has no `-`, so it is its own language part, and one
      parameter binds one name. */
  lemma EnglishContext(k: string, v: Value)
    ensures NewContext("en", [P(k, v)]) == Context("en", map[k := v])
  {
    assert !GoStrings.Contains("en", "-") by {
      assert "en"[0..1][0] == 'e' && "en"[1..2][0] == 'n';
    }
    var ps := [P(k, v)];
    assert LastOfName(ps, 0);
    assert ps[0].name == k;
    assert k in Names(ps);
  }

  /** With one visible name bound to an int, `#` shows the int. */
  lemma HashShowsInt(k: string, n: Int64)
    requires |k| > 0 && k[0] != '$'
    ensures Eval.HashText(map[k := Int(n)]) == Decimal(n)
  {
    assert !GoStrings.HasPrefix(k, "$") by {
      assert k[..1][0] != "$"[0];
    }
    assert Eval.Visible(map[k := Int(n)]) == {k};
  }

  /** A four-case table written out: the header and offset, each case, and
      the closing brace. */
  lemma SourceOfFour(t: LT.TableText, head: string, s0: string, s1: string, s2: string, s3: string)
    requires |t.cases| == 4 && t.before == "" && t.after == ""
    requires LT.HeaderSource(t) + LT.OffsetSource(t.offset) == head
    requires LT.CaseSource(t.cases[0]) == s0 && LT.CaseSource(t.cases[1]) == s1
    requires LT.CaseSource(t.cases[2]) == s2 && LT.CaseSource(t.cases[3]) == s3
    ensures LT.TableSource(t) == head + s0 + s1 + s2 + s3 + "}"
  {
    var cs := t.cases;
    assert cs[3..][1..] == [] && cs[3..][0] == cs[3];
    assert LT.CasesSource(cs[3..]) == s3 + "" == s3;
    assert cs[2..][1..] == cs[3..] && cs[2..][0] == cs[2];
    assert LT.CasesSource(cs[2..]) == s2 + s3;
    assert cs[1..][1..] == cs[2..] && cs[1..][0] == cs[1];
    assert LT.CasesSource(cs[1..]) == s1 + (s2 + s3);
    assert LT.CasesSource(cs) == s0 + (s1 + (s2 + s3));
    assert "" + LT.HeaderSource(t) + LT.OffsetSource(t.offset) == head;
  }

  /** A four-case table of well-formed cases with blank-led selectors
      other than `offset`, after `{key, plural,` or `{key, selectordinal,`. */
  lemma RegularOfFour(t: LT.TableText)
    requires |t.cases| == 4 && t.before == "" && t.after == "" && t.blank == " "
    requires t.kind in {"plural", "selectordinal"} && LP.IsName(t.key) && LP.IsName(t.kind)
    requires t.offset.NoOffset? || (t.offset.blank == " " && LP.IsName(t.offset.digits))
    requires forall i :: 0 <= i < 4 ==> t.cases[i].lead == " " && LT.Blank(t.cases[i].gap)
    requires forall i :: 0 <= i < 4 ==> LP.IsName(t.cases[i].selector) && t.cases[i].selector != "offset"
    requires forall i :: 0 <= i < 4 ==> |t.cases[i].pieces| > 0 && LT.PlainPieces(t.cases[i].pieces)
    ensures PT.Regular(t)
  {
    assert LT.Blank(" ");
  }

  // ---------------------------------------------------------------------
  // `pluralWithOffset`

  const OffsetTemplate := "{count, plural, offset:1"
    + " =0 {no alarms where issued}"
    + " =1 {one alarm was issued}"
    + " one {another alarm was issued}"
    + " other{# alarms where issued}"
    + "}"

  function OffsetCases(): seq<LT.CaseText> {
    [ LT.CaseText(" ", "=0", " ", ["no alarms where issued"]),
      LT.CaseText(" ", "=1", " ", ["one alarm was issued"]),
      LT.CaseText(" ", "one", " ", ["another alarm was issued"]),
      LT.CaseText(" ", "other", "", ["", " alarms where issued"]) ]
  }

  function OffsetTable(): LT.TableText {
    LT.TableText("", "count", " ", "plural", LT.OffsetText(" ", "1"), OffsetCases(), "")
  }

  /** The template is the table written out, and reads as the syntax means it. */
  lemma OffsetTableShape()
    ensures LT.TableSource(OffsetTable()) == OffsetTemplate
    ensures PT.Regular(OffsetTable())
  {
    var t := OffsetTable();
    OffsetHead();
    OffsetZeroCase();
    OffsetOneCase();
    OffsetCategoryCase();
    OffsetOtherCase();
    SourceOfFour(t, "{count, plural, offset:1", " =0 {no alarms where issued}", " =1 {one alarm was issued}",
                 " one {another alarm was issued}", " other{# alarms where issued}");
    OffsetRegular();
  }

  lemma OffsetHead()
    ensures LT.HeaderSource(OffsetTable()) + LT.OffsetSource(OffsetTable().offset) == "{count, plural, offset:1"
  {
  }

  lemma OffsetZeroCase()
    ensures LT.CaseSource(OffsetCases()[0]) == " =0 {no alarms where issued}"
  {
  }

  lemma OffsetOneCase()
    ensures LT.CaseSource(OffsetCases()[1]) == " =1 {one alarm was issued}"
  {
  }

  lemma OffsetCategoryCase()
    ensures LT.CaseSource(OffsetCases()[2]) == " one {another alarm was issued}"
  {
  }

  lemma OffsetOtherCase()
    ensures LT.CaseSource(OffsetCases()[3]) == " other{# alarms where issued}"
  {
    OtherCaseSource(OffsetCases()[3]);
  }

  lemma OtherCaseSource(c: LT.CaseText)
    requires c.lead == " " && c.selector == "other" && c.gap == "" && c.pieces == ["", " alarms where issued"]
    ensures LT.CaseSource(c) == " other{# alarms where issued}"
  {
    OtherBody();
    OtherText(c.lead, c.selector, c.gap, "# alarms where issued");
    CaseWritten(c, "# alarms where issued", " other{# alarms where issued}");
  }

  lemma OtherText(lead: string, sel: string, gap: string, body: string)
    requires lead == " " && sel == "other" && gap == "" && body == "# alarms where issued"
    ensures lead + sel + gap + "{" + body + "}" == " other{# alarms where issued}"
  {
  }

  lemma CaseWritten(c: LT.CaseText, body: string, text: string)
    requires GoStrings.Join(c.pieces, "#") == body
    requires c.lead + c.selector + c.gap + "{" + body + "}" == text
    ensures LT.CaseSource(c) == text
  {
  }

  lemma OtherBody()
    ensures GoStrings.Join(["", " alarms where issued"], "#") == "# alarms where issued"
  {
    HashFirst(" alarms where issued", "#");
  }

  /** A body that starts with `#`. */
  lemma HashFirst(s: string, sep: string)
    ensures GoStrings.Join(["", s], sep) == sep + s
  {
    assert ["", s][1..] == [s];
  }

  lemma OffsetRegular()
    ensures PT.Regular(OffsetTable())
  {
    OffsetPlain();
    RegularOfFour(OffsetTable());
  }

  lemma OffsetPlain()
    ensures forall i :: 0 <= i < 4 ==> LT.PlainPieces(OffsetCases()[i].pieces)
  {
    PiecesPlain(["no alarms where issued"]);
    PiecesPlain(["one alarm was issued"]);
    PiecesPlain(["another alarm was issued"]);
    PiecesPlain(["", " alarms where issued"]);
  }

  /** Pieces without braces, `#` or apostrophes are plain. */
  lemma PiecesPlain(pieces: seq<string>)
    requires forall i, j :: 0 <= i < |pieces| && 0 <= j < |pieces[i]| ==> pieces[i][j] !in "{}#'"
    ensures LT.PlainPieces(pieces)
  {
  }
  /** The four rows of the translation table for `pluralWithOffset`: an
      exact `=0` or `=1` case wins, then `one` for the count minus one, and
      `other` shows the count minus one for `#`. */
  lemma PluralWithOffsetExample(tag: string, msg: string, f: Eval.Formatters)
    requires tag == "en" && msg == OffsetTemplate
    ensures Messages.Translate(tag, Messages.MessageFormat(msg), [P("count", Int(0))], f) == Returned("no alarms where issued")
    ensures Messages.Translate(tag, Messages.MessageFormat(msg), [P("count", Int(1))], f) == Returned("one alarm was issued")
    ensures Messages.Translate(tag, Messages.MessageFormat(msg), [P("count", Int(2))], f) == Returned("another alarm was issued")
    ensures Messages.Translate(tag, Messages.MessageFormat(msg), [P("count", Int(3))], f) == Returned("2 alarms where issued")
  {
    var t := OffsetTableGiven();
    OffsetTexts(t);
    OffsetRow(t, tag, 0, f);
    OffsetRow(t, tag, 1, f);
    OffsetRow(t, tag, 2, f);
    OffsetRow(t, tag, 3, f);
  }

  lemma OffsetTexts(t: LT.TableText)
    requires |t.cases| == 4
    requires t.cases[0].pieces == ["no alarms where issued"] && t.cases[1].pieces == ["one alarm was issued"]
    requires t.cases[2].pieces == ["another alarm was issued"] && t.cases[3].pieces == ["", " alarms where issued"]
    ensures GoStrings.Join(t.cases[0].pieces, Decimal(0 - 1)) == "no alarms where issued"
    ensures GoStrings.Join(t.cases[1].pieces, Decimal(1 - 1)) == "one alarm was issued"
    ensures GoStrings.Join(t.cases[2].pieces, Decimal(2 - 1)) == "another alarm was issued"
    ensures GoStrings.Join(t.cases[3].pieces, Decimal(3 - 1)) == "2 alarms where issued"
  {
    OffsetOtherText(t.cases[3].pieces);
  }

  lemma OffsetOtherText(pieces: seq<string>)
    requires pieces == ["", " alarms where issued"]
    ensures GoStrings.Join(pieces, Decimal(3 - 1)) == "2 alarms where issued"
  {
    assert Decimal(2) == "2";
    HashFirst(" alarms where issued", "2");
  }

  /** The table of `pluralWithOffset`, with what the rows need to know of it. */
  lemma OffsetTableGiven() returns (t: LT.TableText)
    ensures LT.TableSource(t) == OffsetTemplate && PT.Regular(t)
    ensures t.kind == "plural" && t.key == "count" && PT.OffsetValue(t.offset) == 1 && t.before == "" && t.after == ""
    ensures |t.cases| == 4
    ensures t.cases[0].selector == "=0" && t.cases[1].selector == "=1"
    ensures t.cases[2].selector == "one" && t.cases[3].selector == "other"
    ensures t.cases[0].pieces == ["no alarms where issued"] && t.cases[1].pieces == ["one alarm was issued"]
    ensures t.cases[2].pieces == ["another alarm was issued"] && t.cases[3].pieces == ["", " alarms where issued"]
  {
    t := OffsetTable();
    OffsetTableShape();
    assert Atoi("1") == 1;
  }

  /** A count from 0 to 3 picks the case at that index. */
  lemma OffsetRow(t: LT.TableText, tag: string, n: Int64, f: Eval.Formatters)
    requires tag == "en" && 0 <= n <= 3 && PT.Regular(t)
    requires t.kind == "plural" && t.key == "count" && PT.OffsetValue(t.offset) == 1 && t.before == "" && t.after == ""
    requires |t.cases| == 4
    requires t.cases[0].selector == "=0" && t.cases[1].selector == "=1"
    requires t.cases[2].selector == "one" && t.cases[3].selector == "other"
    ensures Messages.Translate(tag, Messages.MessageFormat(LT.TableSource(t)), [P("count", Int(n))], f)
      == Returned(GoStrings.Join(t.cases[n].pieces, Decimal(n - 1)))
  {
    var ps := [P("count", Int(n))];
    var ctx := NewContext(tag, ps);
    var nv := Int(Sub(Eval.IntOf(Int(n)), 1));
    var pieces := t.cases[n].pieces;
    EnglishContext("count", Int(n));
    assert ctx.values[t.key := nv] == map["count" := Int(n - 1)];
    HashShowsInt("count", n - 1);
    var text := GoStrings.Join(pieces, Decimal(n - 1));
    assert "" + text + "" == text;
    var m := OffsetChoice(t, n, TableCandidates(t, ctx));
    TranslatePluralTable(tag, t, ps, f, m, n);
  }

  /** Which candidate picks the case: `=0` and `=1` themselves, then the
      category of the count minus one. */
  lemma OffsetChoice(t: LT.TableText, n: Int64, cands: seq<string>) returns (m: nat)
    requires 0 <= n <= 3
    requires |t.cases| == 4
    requires t.cases[0].selector == "=0" && t.cases[1].selector == "=1"
    requires t.cases[2].selector == "one" && t.cases[3].selector == "other"
    requires cands == ["=" + Decimal(n), PluralRules.Cardinal("en", n - 1), "other"]
    ensures m < 3 && LastNamed(t.cases, cands[m], n)
    ensures forall m' :: 0 <= m' < m ==> !Named(t.cases, cands[m'])
  {
    if n == 0 {
      assert cands[0] == "=0";
      m := 0;
    } else if n == 1 {
      assert cands[0] == "=1";
      m := 0;
    } else if n == 2 {
      assert cands[0] == "=2" && cands[1] == "one";
      m := 1;
    } else {
      assert cands[0] == "=3" && cands[1] == "other";
      m := 1;
    }
  }

  // ---------------------------------------------------------------------
  // `pluralOrdinal`

  const OrdinalTemplate := "{num, selectordinal,"
    + " one {#st}"
    + " two {#nd}"
    + " few {#rd}"
    + " other {#th}"
    + "}"

  function OrdinalCases(): seq<LT.CaseText> {
    [ LT.CaseText(" ", "one", " ", ["", "st"]),
      LT.CaseText(" ", "two", " ", ["", "nd"]),
      LT.CaseText(" ", "few", " ", ["", "rd"]),
      LT.CaseText(" ", "other", " ", ["", "th"]) ]
  }

  function OrdinalTable(): LT.TableText {
    LT.TableText("", "num", " ", "selectordinal", LT.NoOffset, OrdinalCases(), "")
  }

  /** The four rows of the translation table for `pluralOrdinal`: the
      English ordinal category of the number picks the suffix, and `#`
      shows the number. */
  lemma PluralOrdinalExample(tag: string, msg: string, f: Eval.Formatters)
    requires tag == "en" && msg == OrdinalTemplate
    ensures Messages.Translate(tag, Messages.MessageFormat(msg), [P("num", Int(1))], f) == Returned("1st")
    ensures Messages.Translate(tag, Messages.MessageFormat(msg), [P("num", Int(2))], f) == Returned("2nd")
    ensures Messages.Translate(tag, Messages.MessageFormat(msg), [P("num", Int(33))], f) == Returned("33rd")
    ensures Messages.Translate(tag, Messages.MessageFormat(msg), [P("num", Int(14))], f) == Returned("14th")
  {
    var t := OrdinalTableGiven();
    OrdinalTexts(t);
    OrdinalRow(t, tag, 1, 0, f);
    OrdinalRow(t, tag, 2, 1, f);
    OrdinalRow(t, tag, 33, 2, f);
    OrdinalRow(t, tag, 14, 3, f);
  }

  /** The table of `pluralOrdinal`, with what the rows need to know of it. */
  lemma OrdinalTableGiven() returns (t: LT.TableText)
    ensures LT.TableSource(t) == OrdinalTemplate && PT.Regular(t)
    ensures t.kind == "selectordinal" && t.key == "num" && PT.OffsetValue(t.offset) == 0 && t.before == "" && t.after == ""
    ensures |t.cases| == 4
    ensures t.cases[0].selector == "one" && t.cases[1].selector == "two"
    ensures t.cases[2].selector == "few" && t.cases[3].selector == "other"
    ensures t.cases[0].pieces == ["", "st"] && t.cases[1].pieces == ["", "nd"]
    ensures t.cases[2].pieces == ["", "rd"] && t.cases[3].pieces == ["", "th"]
  {
    t := OrdinalTable();
    OrdinalSources();
    SourceOfFour(t, "{num, selectordinal,", " one {#st}", " two {#nd}", " few {#rd}", " other {#th}");
    OrdinalRegular();
  }

  lemma OrdinalSources()
    ensures LT.HeaderSource(OrdinalTable()) + LT.OffsetSource(OrdinalTable().offset) == "{num, selectordinal,"
    ensures LT.CaseSource(OrdinalCases()[0]) == " one {#st}"
    ensures LT.CaseSource(OrdinalCases()[1]) == " two {#nd}"
    ensures LT.CaseSource(OrdinalCases()[2]) == " few {#rd}"
    ensures LT.CaseSource(OrdinalCases()[3]) == " other {#th}"
  {
    OrdinalFront();
    OrdinalBack();
  }

  lemma OrdinalFront()
    ensures LT.HeaderSource(OrdinalTable()) + LT.OffsetSource(OrdinalTable().offset) == "{num, selectordinal,"
    ensures LT.CaseSource(OrdinalCases()[0]) == " one {#st}"
    ensures LT.CaseSource(OrdinalCases()[1]) == " two {#nd}"
  {
    HashFirst("st", "#");
    HashFirst("nd", "#");
  }

  lemma OrdinalBack()
    ensures LT.CaseSource(OrdinalCases()[2]) == " few {#rd}"
    ensures LT.CaseSource(OrdinalCases()[3]) == " other {#th}"
  {
    HashFirst("rd", "#");
    HashFirst("th", "#");
  }

  lemma OrdinalRegular()
    ensures PT.Regular(OrdinalTable())
  {
    PiecesPlain(["", "st"]);
    PiecesPlain(["", "nd"]);
    PiecesPlain(["", "rd"]);
    PiecesPlain(["", "th"]);
    RegularOfFour(OrdinalTable());
  }

  lemma OrdinalTexts(t: LT.TableText)
    requires |t.cases| == 4
    requires t.cases[0].pieces == ["", "st"] && t.cases[1].pieces == ["", "nd"]
    requires t.cases[2].pieces == ["", "rd"] && t.cases[3].pieces == ["", "th"]
    ensures GoStrings.Join(t.cases[0].pieces, Decimal(1)) == "1st"
    ensures GoStrings.Join(t.cases[1].pieces, Decimal(2)) == "2nd"
    ensures GoStrings.Join(t.cases[2].pieces, Decimal(33)) == "33rd"
    ensures GoStrings.Join(t.cases[3].pieces, Decimal(14)) == "14th"
  {
    assert Decimal(33) == "33" && Decimal(14) == "14";
    HashFirst("st", "1");
    HashFirst("nd", "2");
    HashFirst("rd", "33");
    HashFirst("th", "14");
  }

  /** A number picks the case of its English ordinal category. */
  lemma OrdinalRow(t: LT.TableText, tag: string, n: Int64, i: nat, f: Eval.Formatters)
    requires tag == "en" && PT.Regular(t)
    requires (n == 1 && i == 0) || (n == 2 && i == 1) || (n == 33 && i == 2) || (n == 14 && i == 3)
    requires t.kind == "selectordinal" && t.key == "num" && PT.OffsetValue(t.offset) == 0 && t.before == "" && t.after == ""
    requires |t.cases| == 4
    requires t.cases[0].selector == "one" && t.cases[1].selector == "two"
    requires t.cases[2].selector == "few" && t.cases[3].selector == "other"
    ensures Messages.Translate(tag, Messages.MessageFormat(LT.TableSource(t)), [P("num", Int(n))], f)
      == Returned(GoStrings.Join(t.cases[i].pieces, Decimal(n)))
  {
    var ps := [P("num", Int(n))];
    var ctx := NewContext(tag, ps);
    var nv := Int(Sub(Eval.IntOf(Int(n)), 0));
    var pieces := t.cases[i].pieces;
    EnglishContext("num", Int(n));
    assert ctx.values[t.key := nv] == map["num" := Int(n)];
    HashShowsInt("num", n);
    var text := GoStrings.Join(pieces, Decimal(n));
    assert "" + text + "" == text;
    OrdinalChoice(t, n, i, TableCandidates(t, ctx));
    TranslatePluralTable(tag, t, ps, f, 1, i);
  }

  /** The category candidate picks the case; no case is named `=n`. */
  lemma OrdinalChoice(t: LT.TableText, n: Int64, i: nat, cands: seq<string>)
    requires (n == 1 && i == 0) || (n == 2 && i == 1) || (n == 33 && i == 2) || (n == 14 && i == 3)
    requires |t.cases| == 4
    requires t.cases[0].selector == "one" && t.cases[1].selector == "two"
    requires t.cases[2].selector == "few" && t.cases[3].selector == "other"
    requires cands == ["=" + Decimal(n), PluralRules.Ordinal("en", n - 0), "other"]
    ensures LastNamed(t.cases, cands[1], i)
    ensures !Named(t.cases, cands[0])
  {
    PluralRules.EnglishOrdinalExamples();
    assert cands[0][0] == '=';
  }

  // ---------------------------------------------------------------------
  // `{gender, select, …}`

  const GenderTemplate := "{gender, select,"
    + " male {\U{2642}}"
    + " female {\U{2640}}"
    + "}"

  function GenderCases(): seq<LT.CaseText> {
    [ LT.CaseText(" ", "male", " ", ["\U{2642}"]),
      LT.CaseText(" ", "female", " ", ["\U{2640}"]) ]
  }

  function GenderTable(): LT.TableText {
    LT.TableText("", "gender", " ", "select", LT.NoOffset, GenderCases(), "")
  }

  /** The two select rows of the translation table: the value's text names
      the case, and its body is the translation. */
  lemma SelectExample(tag: string, msg: string, f: Eval.Formatters)
    requires tag == "en" && msg == GenderTemplate
    ensures Messages.Translate(tag, Messages.MessageFormat(msg), [P("gender", Str("male"))], f) == Returned("\U{2642}")
    ensures Messages.Translate(tag, Messages.MessageFormat(msg), [P("gender", Str("female"))], f) == Returned("\U{2640}")
  {
    var t := GenderTableGiven();
    GenderRow(t, tag, "male", 0, f);
    GenderRow(t, tag, "female", 1, f);
  }

  /** The table of the select rows, with what the rows need to know of it. */
  lemma GenderTableGiven() returns (t: LT.TableText)
    ensures LT.TableSource(t) == GenderTemplate && PT.Regular(t)
    ensures t.kind == "select" && t.key == "gender" && t.before == "" && t.after == ""
    ensures |t.cases| == 2 && t.cases[0].selector == "male" && t.cases[1].selector == "female"
    ensures t.cases[0].pieces == ["\U{2642}"] && t.cases[1].pieces == ["\U{2640}"]
  {
    t := GenderTable();
    GenderSources();
    SourceOfTwo(t, "{gender, select,", " male {\U{2642}}", " female {\U{2640}}");
    GenderRegular();
  }

  /** A two-case table written out: the header, each case, and the closing brace. */
  lemma SourceOfTwo(t: LT.TableText, head: string, s0: string, s1: string)
    requires |t.cases| == 2 && t.before == "" && t.after == ""
    requires LT.HeaderSource(t) + LT.OffsetSource(t.offset) == head
    requires LT.CaseSource(t.cases[0]) == s0 && LT.CaseSource(t.cases[1]) == s1
    ensures LT.TableSource(t) == head + s0 + s1 + "}"
  {
    var cs := t.cases;
    assert cs[1..][1..] == [] && cs[1..][0] == cs[1];
    assert LT.CasesSource(cs[1..]) == s1 + "" == s1;
    assert LT.CasesSource(cs) == s0 + s1;
    assert "" + LT.HeaderSource(t) + LT.OffsetSource(t.offset) == head;
  }

  lemma GenderSources()
    ensures LT.HeaderSource(GenderTable()) + LT.OffsetSource(GenderTable().offset) == "{gender, select,"
    ensures LT.CaseSource(GenderCases()[0]) == " male {\U{2642}}"
    ensures LT.CaseSource(GenderCases()[1]) == " female {\U{2640}}"
  {
  }

  lemma GenderRegular()
    ensures PT.Regular(GenderTable())
  {
    PiecesPlain(["\U{2642}"]);
    PiecesPlain(["\U{2640}"]);
    assert LT.Blank(" ");
  }

  /** A value names its case, and no later case has that name. */
  lemma GenderRow(t: LT.TableText, tag: string, g: string, i: nat, f: Eval.Formatters)
    requires tag == "en" && PT.Regular(t)
    requires (g == "male" && i == 0) || (g == "female" && i == 1)
    requires t.kind == "select" && t.key == "gender" && t.before == "" && t.after == ""
    requires |t.cases| == 2 && t.cases[0].selector == "male" && t.cases[1].selector == "female"
    requires |t.cases[i].pieces| == 1
    ensures Messages.Translate(tag, Messages.MessageFormat(LT.TableSource(t)), [P("gender", Str(g))], f)
      == Returned(t.cases[i].pieces[0])
  {
    var ps := [P("gender", Str(g))];
    EnglishContext("gender", Str(g));
    var ctx := NewContext(tag, ps);
    assert Eval.SelectCandidates(ctx.values[t.key]) == [g, "other"];
    assert LastNamed(t.cases, g, i);
    var text := t.cases[i].pieces[0];
    assert "" + text + "" == text;
    TranslateSelectTable(tag, t, ps, f, 0, i);
  }
}
