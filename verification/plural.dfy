/** The plural category tables: which case name a number selects in a
    `plural` (cardinal) or `selectordinal` (ordinal) argument for each
    supported language. An unsupported language selects the empty name. */
module PluralRules {
  import opened GoInts

  const Zero := "zero"
  const One := "one"
  const Two := "two"
  const Few := "few"
  const Many := "many"
  const OtherCategory := "other"

  /** Languages whose cardinal rule is "one for 1, other otherwise". */
  predicate OneOther(tag: string) {
    tag in {"de", "es", "bg", "pt", "en", "it"}
  }

  /** `cardinalToCategory(tag, n)`. */
  function Cardinal(tag: string, n: int): (cat: string)
    ensures cat == One <==> OneOther(tag) && n == 1
    ensures cat == OtherCategory <==> (OneOther(tag) && n != 1) || tag == "zh"
    ensures cat == "" <==> !OneOther(tag) && tag != "zh"
  {
    if OneOther(tag) then
      if n == 1 then One else OtherCategory
    else if tag == "zh" then OtherCategory
    else ""
  }

  /** The English ordinal rule, on Go's truncating remainders: the last
      digit picks `one`, `two` or `few` unless the last two digits are a
      teen. */
  function EnglishOrdinal(n: int): (cat: string)
    ensures cat in {One, Two, Few, OtherCategory}
  {
    var t1, t2 := Rem(n, 10), Rem(n, 100);
    if t1 == 1 && t2 != 11 then One
    else if t1 == 2 && t2 != 12 then Two
    else if t1 == 3 && t2 != 13 then Few
    else OtherCategory
  }

  /** `ordinalToCategory(tag, n)`. */
  function Ordinal(tag: string, n: int): (cat: string)
    ensures tag in {"es", "bg", "pt", "zh", "de"} ==> cat == OtherCategory
    ensures tag == "it" ==> (cat == Many <==> n in {8, 11, 80, 800}) && cat in {Many, OtherCategory}
    ensures tag == "en" ==> cat == EnglishOrdinal(n)
    ensures cat == "" <==> tag !in {"es", "bg", "pt", "zh", "de", "it", "en"}
  {
    if tag in {"es", "bg", "pt", "zh", "de"} then OtherCategory
    else if tag == "it" then
      if n == 8 || n == 11 || n == 80 || n == 800 then Many else OtherCategory
    else if tag == "en" then EnglishOrdinal(n)
    else ""
  }

  /** A negative number always falls into `other` in English: its
      truncated remainders are never positive. */
  lemma EnglishOrdinalNegative(n: int)
    requires n < 0
    ensures EnglishOrdinal(n) == OtherCategory
  {
  }

  /** Split a non-negative number into its last two digits and the rest. */
  lemma LastTwoDigits(n: int, k: int)
    requires n >= 0 && k >= 0
    ensures Rem(n + 100 * k, 100) == Rem(n, 100)
    ensures Rem(n + 100 * k, 10) == Rem(n, 10)
  {
    DivModUnique(n + 100 * k, 100, n / 100 + k, n % 100);
    DivModUnique(n + 100 * k, 10, n / 10 + 10 * k, n % 10);
  }

  /** For non-negative numbers the English rule depends only on the last
      two digits. */
  lemma EnglishOrdinalPeriodic(n: int, k: int)
    requires n >= 0 && k >= 0
    ensures EnglishOrdinal(n + 100 * k) == EnglishOrdinal(n)
  {
    LastTwoDigits(n, k);
  }

  /** The cases pinned by the English test table (1st, 2nd, 33rd, 14th) and
      the teens. */
  lemma EnglishOrdinalExamples()
    ensures EnglishOrdinal(1) == One && EnglishOrdinal(2) == Two
    ensures EnglishOrdinal(33) == Few && EnglishOrdinal(14) == OtherCategory
    ensures EnglishOrdinal(11) == OtherCategory && EnglishOrdinal(12) == OtherCategory
    ensures EnglishOrdinal(13) == OtherCategory && EnglishOrdinal(111) == OtherCategory
    ensures EnglishOrdinal(101) == One && EnglishOrdinal(-1) == OtherCategory
  {
    LastTwoDigits(11, 1);
    LastTwoDigits(1, 1);
  }
}
