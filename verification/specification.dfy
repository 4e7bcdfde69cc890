/** Accept-Language specifications: splitting a header value into language
    ranges with qualities, best first. Qualities are compared as real
    numbers; the text-to-number conversion is a parameter. */
module Specifications {
  import opened Base
  import opened GoStrings

  /** The separator between a range's tag and its quality. */
  const QualitySep := ";q="

  datatype Range = Range(tag: string, quality: real)

  /** `strconv.ParseFloat(s, 64)`: the number `s` denotes, or `None` when it
      reports an error. */
  type ParseFloat = string -> Option<real>

  // ---------------------------------------------------------------------
  // One comma-separated part

  /** The range one comma-separated part gives, if any: the trimmed text
      before `;q=` is the tag, and a part with an empty tag, an unreadable
      quality or more than one `;q=` gives none. */
  function RangeOf(part: string, parseFloat: ParseFloat): (r: Option<Range>)
    ensures r.Some? ==> r.value.tag != "" && !Contains(r.value.tag, QualitySep)
  {
    var halves := Split(part, QualitySep);
    var tag := TrimSpace(halves[0]);
    TrimmedNoSep(halves[0], tag);
    if tag == "" then None
    else if |halves| == 1 then Some(Range(tag, 1.0))
    else if |halves| == 2 then
      match parseFloat(TrimSpace(halves[1]))
      case None => None
      case Some(q) => Some(Range(tag, q))
    else None
  }

  /** Trimming a text that lacks `;q=` cannot create one. */
  lemma TrimmedNoSep(s: string, t: string)
    requires !Contains(s, QualitySep) && exists i :: TrimmedAt(s, t, i)
    ensures !Contains(t, QualitySep)
  {
    var i :| TrimmedAt(s, t, i);
    forall j | 0 <= j <= |t| ensures !OccursAt(t, QualitySep, j) {
      if j + 3 <= |t| {
        assert t[j] == s[i + j] && t[j + 1] == s[i + j + 1] && t[j + 2] == s[i + j + 2];
        assert t[j..j + 3] == s[i + j..i + j + 3];
        assert !OccursAt(s, QualitySep, i + j);
      }
    }
  }

  /** `;q=` has no border (no proper prefix of it is also a suffix), so it
      cannot overlap a copy of itself: the first one in `a;q=b` is the one
      after `a` when `a` holds none. */
  lemma SplitAtQuality(a: string, b: string)
    requires !Contains(a, QualitySep)
    ensures Split(a + QualitySep + b, QualitySep) == [a] + Split(b, QualitySep)
  {
    var s := a + QualitySep + b;
    assert OccursAt(s, QualitySep, |a|);
    forall j | 0 <= j < |a| ensures !OccursAt(s, QualitySep, j) {
      if j + 3 <= |a| {
        assert !OccursAt(a, QualitySep, j);
        assert s[j..j + 3] == a[j..j + 3];
      } else if j == |a| - 2 {
        assert s[j..j + 3][2] == s[|a|] == ';';
      } else {
        assert s[j..j + 3][1] == s[|a|] == ';';
      }
    }
    assert Index(s, QualitySep) == |a|;
    assert s[..|a|] == a;
    assert s[|a| + 3..] == b;
  }

  /** A part without `;q=` has quality 1. */
  lemma RangeWithoutQuality(part: string, parseFloat: ParseFloat)
    requires !Contains(part, QualitySep)
    ensures RangeOf(part, parseFloat) == if TrimSpace(part) == "" then None else Some(Range(TrimSpace(part), 1.0))
  {
  }

  /** A part with one `;q=` takes its quality from the trimmed text after
      it, and gives nothing when that text is not a number. */
  lemma RangeWithQuality(a: string, b: string, parseFloat: ParseFloat)
    requires !Contains(a, QualitySep) && !Contains(b, QualitySep)
    ensures RangeOf(a + QualitySep + b, parseFloat) ==
      if TrimSpace(a) == "" || parseFloat(TrimSpace(b)).None? then None
      else Some(Range(TrimSpace(a), parseFloat(TrimSpace(b)).value))
  {
    SplitAtQuality(a, b);
  }

  /** A part with two or more `;q=` is dropped, whatever its tag. */
  lemma RangeWithTwoQualities(a: string, b: string, parseFloat: ParseFloat)
    requires !Contains(a, QualitySep) && Contains(b, QualitySep)
    ensures RangeOf(a + QualitySep + b, parseFloat) == None
  {
    SplitAtQuality(a, b);
  }

  // ---------------------------------------------------------------------
  // Stable sorting by quality, best first

  /** `Ranges.Less` holds of earlier elements: qualities never increase. */
  predicate Sorted(rs: seq<Range>) {
    forall i, j :: 0 <= i < j < |rs| ==> rs[i].quality >= rs[j].quality
  }

  /** The ranges of quality `q`, in order. */
  function WithQuality(rs: seq<Range>, q: real): (r: seq<Range>)
    ensures |r| <= |rs|
  {
    if |rs| == 0 then []
    else (if rs[0].quality == q then [rs[0]] else []) + WithQuality(rs[1..], q)
  }

  /** `x` goes before the first range of lower quality, so after every
      range of equal quality. */
  function Insert(x: Range, rs: seq<Range>): (r: seq<Range>)
    ensures multiset(r) == multiset(rs) + multiset{x}
  {
    if |rs| == 0 then [x]
    else if rs[0].quality < x.quality then [x] + rs
    else
      assert rs == [rs[0]] + rs[1..];
      [rs[0]] + Insert(x, rs[1..])
  }

  /** Inserting into a sorted sequence keeps it sorted. */
  lemma {:induction false} InsertSorted(x: Range, rs: seq<Range>)
    requires Sorted(rs)
    ensures Sorted(Insert(x, rs))
  {
    if |rs| > 0 && rs[0].quality >= x.quality {
      var rest := Insert(x, rs[1..]);
      SortedTail(rs);
      InsertSorted(x, rs[1..]);
      BelowHead(rs, x, rest);
      var r := [rs[0]] + rest;
      InsertBehind(x, rs);
      forall i, j | 0 <= i < j < |r| ensures r[i].quality >= r[j].quality {
        if i > 0 {
          assert r[i] == rest[i - 1] && r[j] == rest[j - 1];
        } else {
          assert r[j] == rest[j - 1];
        }
      }
    }
  }

  /** What is inserted behind the head of a sorted sequence stays below it. */
  lemma BelowHead(rs: seq<Range>, x: Range, rest: seq<Range>)
    requires |rs| > 0 && Sorted(rs) && x.quality <= rs[0].quality
    requires multiset(rest) == multiset(rs[1..]) + multiset{x}
    ensures forall j :: 0 <= j < |rest| ==> rest[j].quality <= rs[0].quality
  {
    forall j | 0 <= j < |rest| ensures rest[j].quality <= rs[0].quality {
      assert rest[j] in multiset(rest);
      if rest[j] != x {
        assert rest[j] in rs[1..];
      }
    }
  }

  /** `sort.Stable(rs)`: by quality, best first, ties in input order. */
  function StableSort(rs: seq<Range>): (r: seq<Range>)
    ensures Sorted(r)
    ensures multiset(r) == multiset(rs)
  {
    if |rs| == 0 then []
    else
      var front := rs[..|rs| - 1];
      assert rs == front + [rs[|rs| - 1]];
      var sorted := StableSort(front);
      InsertSorted(rs[|rs| - 1], sorted);
      Insert(rs[|rs| - 1], sorted)
  }

  lemma {:induction false} InsertKeepsOrder(x: Range, rs: seq<Range>, q: real)
    requires Sorted(rs)
    ensures WithQuality(Insert(x, rs), q) == WithQuality(rs, q) + (if x.quality == q then [x] else [])
  {
    var hx: seq<Range> := if x.quality == q then [x] else [];
    if |rs| == 0 || rs[0].quality < x.quality {
      InsertInFront(x, rs);
      WithQualityCons(x, rs, q);
      if x.quality == q {
        NoneAbove(rs, q);
      }
    } else {
      var tail := Insert(x, rs[1..]);
      var h: seq<Range> := if rs[0].quality == q then [rs[0]] else [];
      var w := WithQuality(rs[1..], q);
      SortedTail(rs);
      InsertKeepsOrder(x, rs[1..], q);
      calc {
        WithQuality(Insert(x, rs), q);
      == { InsertBehind(x, rs); }
        WithQuality([rs[0]] + tail, q);
      == { WithQualityCons(rs[0], tail, q); }
        h + (w + hx);
      == { assert h + (w + hx) == (h + w) + hx; }
        (h + w) + hx;
      == { assert rs == [rs[0]] + rs[1..]; WithQualityCons(rs[0], rs[1..], q); }
        WithQuality(rs, q) + hx;
      }
    }
  }

  /** A range better than the head goes in front. */
  lemma InsertInFront(x: Range, rs: seq<Range>)
    requires |rs| == 0 || rs[0].quality < x.quality
    ensures Insert(x, rs) == [x] + rs
  {
  }

  /** A range no better than the head goes behind it. */
  lemma InsertBehind(x: Range, rs: seq<Range>)
    requires |rs| > 0 && rs[0].quality >= x.quality
    ensures Insert(x, rs) == [rs[0]] + Insert(x, rs[1..])
  {
  }

  lemma SortedTail(rs: seq<Range>)
    requires |rs| > 0 && Sorted(rs)
    ensures Sorted(rs[1..])
  {
    forall i, j | 0 <= i < j < |rs| - 1 ensures rs[1..][i].quality >= rs[1..][j].quality {
      assert rs[1..][i] == rs[i + 1] && rs[1..][j] == rs[j + 1];
    }
  }

  lemma WithQualityCons(y: Range, rest: seq<Range>, q: real)
    ensures WithQuality([y] + rest, q) == (if y.quality == q then [y] else []) + WithQuality(rest, q)
  {
    assert ([y] + rest)[0] == y;
    assert ([y] + rest)[1..] == rest;
  }

  /** A sorted sequence whose first quality is below `q` has none of it. */
  lemma {:induction false} NoneAbove(rs: seq<Range>, q: real)
    requires Sorted(rs) && (|rs| > 0 ==> rs[0].quality < q)
    ensures WithQuality(rs, q) == []
  {
    if |rs| > 0 {
      NoneAbove(rs[1..], q);
    }
  }

  lemma {:induction false} WithQualityAppend(a: seq<Range>, b: seq<Range>, q: real)
    ensures WithQuality(a + b, q) == WithQuality(a, q) + WithQuality(b, q)
  {
    if |a| == 0 {
      assert a + b == b;
      assert WithQuality(a, q) == [];
    } else {
      var ab := a + b;
      assert ab[0] == a[0];
      assert ab[1..] == a[1..] + b;
      WithQualityAppend(a[1..], b, q);
      var h := if a[0].quality == q then [a[0]] else [];
      var wa, wb := WithQuality(a[1..], q), WithQuality(b, q);
      assert WithQuality(ab, q) == h + (wa + wb);
      assert WithQuality(a, q) == h + wa;
      assert h + (wa + wb) == (h + wa) + wb;
    }
  }

  /** Sorting is stable: the ranges of each quality keep their order. */
  lemma {:induction false} StableSortIsStable(rs: seq<Range>, q: real)
    ensures WithQuality(StableSort(rs), q) == WithQuality(rs, q)
  {
    if |rs| > 0 {
      var front, x := rs[..|rs| - 1], rs[|rs| - 1];
      var sorted := StableSort(front);
      assert StableSort(rs) == Insert(x, sorted);
      StableSortIsStable(front, q);
      InsertKeepsOrder(x, sorted, q);
      WithQualitySnoc(rs, q);
    }
  }

  lemma WithQualitySnoc(rs: seq<Range>, q: real)
    requires |rs| > 0
    ensures WithQuality(rs, q) == WithQuality(rs[..|rs| - 1], q) + if rs[|rs| - 1].quality == q then [rs[|rs| - 1]] else []
  {
    var front, x := rs[..|rs| - 1], rs[|rs| - 1];
    assert rs == front + [x];
    WithQualityAppend(front, [x], q);
    assert [x][1..] == [];
  }

  /** Sorted by quality and stable pins the result down: any two sorted
      sequences with the same ranges of each quality in the same order are
      equal, so every stable sort agrees with this one. */
  lemma {:induction false} StableSortUnique(s: seq<Range>, t: seq<Range>)
    requires Sorted(s) && Sorted(t)
    requires forall q :: WithQuality(s, q) == WithQuality(t, q)
    ensures s == t
  {
    if |s| == 0 || |t| == 0 {
      BothEmpty(s, t);
    } else {
      HeadsAgree(s, t);
      TailsAgree(s, t);
      SortedTail(s);
      SortedTail(t);
      StableSortUnique(s[1..], t[1..]);
      assert s == [s[0]] + s[1..] && t == [t[0]] + t[1..];
    }
  }

  /** A non-empty sequence has ranges of its first quality. */
  lemma HasOwnQuality(s: seq<Range>)
    requires |s| > 0
    ensures WithQuality(s, s[0].quality) != []
  {
  }

  lemma BothEmpty(s: seq<Range>, t: seq<Range>)
    requires |s| == 0 || |t| == 0
    requires forall q :: WithQuality(s, q) == WithQuality(t, q)
    ensures s == t
  {
    if |s| > 0 {
      HasOwnQuality(s);
    } else if |t| > 0 {
      HasOwnQuality(t);
    }
  }

  /** Both start with the best quality, and its first range is the same. */
  lemma HeadsAgree(s: seq<Range>, t: seq<Range>)
    requires |s| > 0 && |t| > 0 && Sorted(s) && Sorted(t)
    requires forall q :: WithQuality(s, q) == WithQuality(t, q)
    ensures s[0] == t[0]
  {
    var q0 := s[0].quality;
    HasOwnQuality(s);
    HasOwnQuality(t);
    if t[0].quality < q0 {
      NoneAbove(t, q0);
    } else if t[0].quality > q0 {
      NoneAbove(s, t[0].quality);
    }
    assert WithQuality(s, q0) == WithQuality(t, q0);
    assert WithQuality(s, q0)[0] == s[0];
    assert WithQuality(t, q0)[0] == t[0];
  }

  /** With equal heads taken away, the per-quality filters still agree. */
  lemma TailsAgree(s: seq<Range>, t: seq<Range>)
    requires |s| > 0 && |t| > 0 && s[0] == t[0]
    requires forall q :: WithQuality(s, q) == WithQuality(t, q)
    ensures forall q :: WithQuality(s[1..], q) == WithQuality(t[1..], q)
  {
    forall q ensures WithQuality(s[1..], q) == WithQuality(t[1..], q) {
      TailAgreesAt(s, t, q);
    }
  }

  lemma TailAgreesAt(s: seq<Range>, t: seq<Range>, q: real)
    requires |s| > 0 && |t| > 0 && s[0] == t[0]
    requires WithQuality(s, q) == WithQuality(t, q)
    ensures WithQuality(s[1..], q) == WithQuality(t[1..], q)
  {
    var h: seq<Range> := if s[0].quality == q then [s[0]] else [];
    var a, b := WithQuality(s[1..], q), WithQuality(t[1..], q);
    assert h + a == h + b;
    assert (h + a)[|h|..] == a && (h + b)[|h|..] == b;
  }

  // ---------------------------------------------------------------------
  // The whole header

  /** The ranges of the comma-separated parts, in input order. */
  function Collect(parts: seq<string>, parseFloat: ParseFloat): (rs: seq<Range>)
    ensures |rs| <= |parts|
    ensures forall r :: r in rs ==> exists part :: part in parts && RangeOf(part, parseFloat) == Some(r)
    ensures forall r :: r in rs ==> r.tag != ""
  {
    if |parts| == 0 then []
    else
      var rest := Collect(parts[1..], parseFloat);
      var r := RangeOf(parts[0], parseFloat);
      var rs := (if r.Some? then [r.value] else []) + rest;
      forall y | y in rs ensures exists part :: part in parts && RangeOf(part, parseFloat) == Some(y) {
        if y in rest {
          var part :| part in parts[1..] && RangeOf(part, parseFloat) == Some(y);
          assert part in parts;
        } else {
          assert RangeOf(parts[0], parseFloat) == Some(y);
        }
      }
      rs
  }

  /** The ranges the header names, before sorting. */
  function Candidates(spec: string, parseFloat: ParseFloat): seq<Range> {
    if spec == "" then [] else Collect(Split(spec, ","), parseFloat)
  }

  /** `Specification.Ranges()`: the ranges, best quality first; among equal
      qualities the one named first comes first. */
  function Ranges(spec: string, parseFloat: ParseFloat): (rs: seq<Range>)
    ensures spec == "" ==> rs == []
    ensures spec != "" ==> |rs| <= |Split(spec, ",")|
    ensures Sorted(rs)
    ensures multiset(rs) == multiset(Candidates(spec, parseFloat))
    ensures forall i :: 0 <= i < |rs| ==> rs[i].tag != ""
  {
    var c := Candidates(spec, parseFloat);
    var rs := StableSort(c);
    assert |rs| == |multiset(rs)| == |c|;
    forall i | 0 <= i < |rs| ensures rs[i].tag != "" {
      assert rs[i] in multiset(c);
      assert rs[i] in c;
    }
    rs
  }

  /** Ties keep the order in which the header names them. */
  lemma RangesAreStable(spec: string, parseFloat: ParseFloat, q: real)
    ensures WithQuality(Ranges(spec, parseFloat), q) == WithQuality(Candidates(spec, parseFloat), q)
  {
    StableSortIsStable(Candidates(spec, parseFloat), q);
  }

  /** `Specification.Tag()`: the best range's tag, or nothing. */
  function Tag(spec: string, parseFloat: ParseFloat): (tag: string)
    ensures tag == "" <==> Ranges(spec, parseFloat) == []
  {
    var rs := Ranges(spec, parseFloat);
    if |rs| > 0 then rs[0].tag else ""
  }

  /** The tag is empty exactly when no part of the header gives a range;
      otherwise it is that of the first range the header names with the
      best quality. */
  lemma {:induction false} TagIsFirstBest(spec: string, parseFloat: ParseFloat)
    ensures Tag(spec, parseFloat) == "" <==> Candidates(spec, parseFloat) == []
    ensures var c := Candidates(spec, parseFloat);
      Tag(spec, parseFloat) != "" ==>
      exists i :: 0 <= i < |c| && c[i].tag == Tag(spec, parseFloat)
        && (forall j :: 0 <= j < |c| ==> c[j].quality <= c[i].quality)
        && (forall j :: 0 <= j < i ==> c[j].quality < c[i].quality)
  {
    var c := Candidates(spec, parseFloat);
    var rs := Ranges(spec, parseFloat);
    assert |rs| == |c| by {
      assert |multiset(rs)| == |multiset(c)|;
    }
    if Tag(spec, parseFloat) != "" {
      assert Tag(spec, parseFloat) == rs[0].tag;
      var q0 := rs[0].quality;
      HeadIsBest(rs, c);
      RangesAreStable(spec, parseFloat, q0);
      assert WithQuality(rs, q0)[0] == rs[0];
      var i := FirstWithQualityHeads(c, q0);
      assert c[i] == rs[0];
    }
  }

  /** The head of a sorted permutation has the best quality of all. */
  lemma HeadIsBest(rs: seq<Range>, c: seq<Range>)
    requires |rs| > 0 && Sorted(rs) && multiset(rs) == multiset(c)
    ensures forall j :: 0 <= j < |c| ==> c[j].quality <= rs[0].quality
  {
    forall j | 0 <= j < |c| ensures c[j].quality <= rs[0].quality {
      assert c[j] in multiset(rs);
      var k :| 0 <= k < |rs| && rs[k] == c[j];
    }
  }

  /** The first range of quality `q` heads the ranges of quality `q`. */
  lemma {:induction false} FirstWithQualityHeads(rs: seq<Range>, q: real) returns (i: nat)
    requires WithQuality(rs, q) != []
    ensures i < |rs| && rs[i].quality == q && WithQuality(rs, q)[0] == rs[i]
    ensures forall j :: 0 <= j < i ==> rs[j].quality != q
  {
    if rs[0].quality == q {
      i := 0;
    } else {
      var k := FirstWithQualityHeads(rs[1..], q);
      i := k + 1;
    }
  }

}
