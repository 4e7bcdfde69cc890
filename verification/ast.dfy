/** The parse tree of a template: the node kinds the parser pushes on its
    stack, including the three marker kinds that only live on the stack
    while a construct is open. */
module Ast {
  import opened Base
  import opened GoInts

  /** The formatters that carry a key and a style and nothing else. */
  datatype Format = Number | Date | Time | OrdinalFormat | Duration | Spellout

  /** Which category table a plural-like argument consults. */
  datatype Rule = Cardinal | Ordinal

  datatype Node =
    | Selector(name: string)            // nodeSelector: an open case's name
    | StartAction                       // nodeStartAction: an open `{` in message mode
    | StartMessage                      // nodeStartMessage: an open case body
    | Message(nodes: seq<Node>)         // nodeMessage: a closed `{ ... }`
    | Text(text: string)
    | Hash
    | QuotedText(text: string)
    | Placeholder(key: string)          // nodeFormatPlaceholder
    | Formatted(format: Format, key: string, style: string)
    | Plural(rule: Rule, key: string, offset: Int64, cases: seq<Case>)  // plural, selectordinal
    | Select(key: string, cases: seq<Case>)
    | Custom(key: string, name: string, args: seq<string>)

  /** The nodes that name a parameter. */
  predicate Keyed(n: Node) {
    n.Placeholder? || n.Formatted? || n.Plural? || n.Select? || n.Custom?
  }

  /** One entry of a `map[string]nodeMessage` case table. */
  datatype Case = Case(selector: string, body: seq<Node>)

  // ---------------------------------------------------------------------
  // Case tables: a Go map from selector to body, kept as a list of entries.

  predicate HasKey(cases: seq<Case>, k: string) {
    exists i :: 0 <= i < |cases| && cases[i].selector == k
  }

  /** Position of the entry for `k`: the first one, as lookups see it. */
  function Find(cases: seq<Case>, k: string): (i: int)
    ensures -1 <= i < |cases|
    ensures i == -1 <==> !HasKey(cases, k)
    ensures i >= 0 ==> cases[i].selector == k && forall j :: 0 <= j < i ==> cases[j].selector != k
  {
    if |cases| == 0 then -1
    else if cases[0].selector == k then 0
    else
      var i := Find(cases[1..], k);
      assert forall j :: 0 < j < |cases| ==> cases[j] == cases[1..][j - 1];
      if i == -1 then -1 else i + 1
  }

  /** `cases[k] = body`: replaces the entry for `k`, or adds one. */
  function Put(cases: seq<Case>, k: string, body: seq<Node>): (r: seq<Case>)
    ensures Get(r, k) == Some(body)
    ensures forall k' :: k' != k ==> Get(r, k') == Get(cases, k')
  {
    var i := Find(cases, k);
    if i == -1 then
      var r := cases + [Case(k, body)];
      assert r[|cases|].selector == k;
      FindAppend(cases, Case(k, body));
      r
    else
      var r := cases[i := Case(k, body)];
      FindUpdate(cases, i, Case(k, body));
      r
  }

  lemma FindAppend(cases: seq<Case>, c: Case)
    ensures forall k' :: k' != c.selector ==> Find(cases + [c], k') == Find(cases, k')
    ensures forall k' :: HasKey(cases, k') ==> Find(cases + [c], k') == Find(cases, k')
    ensures !HasKey(cases, c.selector) ==> Find(cases + [c], c.selector) == |cases|
  {
    var r := cases + [c];
    forall k' | k' != c.selector || HasKey(cases, k')
      ensures Find(r, k') == Find(cases, k')
    {
      var i := Find(cases, k');
      if i == -1 {
        assert forall j :: 0 <= j < |r| ==> r[j].selector != k';
      } else {
        assert r[i] == cases[i];
      }
    }
    if !HasKey(cases, c.selector) {
      assert r[|cases|] == c;
    }
  }

  lemma FindUpdate(cases: seq<Case>, i: int, c: Case)
    requires 0 <= i < |cases| && cases[i].selector == c.selector
    ensures forall k' :: Find(cases[i := c], k') == Find(cases, k')
  {
    var r := cases[i := c];
    forall k' ensures Find(r, k') == Find(cases, k') {
      var j := Find(cases, k');
      if j == -1 {
        assert forall m :: 0 <= m < |r| ==> r[m].selector == cases[m].selector;
      } else {
        assert forall m :: 0 <= m <= j ==> r[m].selector == cases[m].selector;
      }
    }
  }

  /** The body for `k`, as `cases[k]` with the ok flag. */
  function Get(cases: seq<Case>, k: string): (r: Option<seq<Node>>)
    ensures r.Some? <==> HasKey(cases, k)
  {
    var i := Find(cases, k);
    if i == -1 then None else Some(cases[i].body)
  }

  /** Storing twice under one key keeps the later body (a selector that
      appears twice in a template keeps its last case). */
  lemma PutPut(cases: seq<Case>, k: string, b1: seq<Node>, b2: seq<Node>, k': string)
    ensures Get(Put(Put(cases, k, b1), k, b2), k') == Get(Put(cases, k, b2), k')
  {
  }
}
