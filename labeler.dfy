/**
 * The first-match labeler (labeler.py): each snippet gets the CPU, GPU and
 * TPU values of the first keyword, in table order, that occurs in it, or
 * the default label when no keyword does.
 */
module Labeler {
  import opened Keywords

  /** `default_labels`: CPU only. A Dafny sequence is a value, so each
      snippet starting from it is the same as starting from a fresh copy. */
  const DefaultLabels: seq<int> := [1, 0, 0]

  /** The label a matching row assigns: its `[CPU, GPU, TPU]` values. */
  function Values(row: KeywordRow): (r: seq<int>)
    ensures |r| == 3
  {
    [row.cpu, row.gpu, row.tpu]
  }

  /** The label of one snippet: the values of the first row whose keyword
      occurs in it, else the default. */
  function Label(snippet: string, table: seq<KeywordRow>): (r: seq<int>)
    ensures |r| == 3
  {
    if table == [] then DefaultLabels
    else if Contains(snippet, table[0].keyword) then Values(table[0])
    else Label(snippet, table[1..])
  }

  /** Row `j` is the first row whose keyword occurs in `snippet`. */
  predicate FirstMatchAt(snippet: string, table: seq<KeywordRow>, j: int) {
    0 <= j < |table| && Contains(snippet, table[j].keyword) &&
    NoMatch(snippet, table[..j])
  }

  /** With a match, the label is the values of the first matching row. */
  lemma {:induction false} LabelFirstMatch(snippet: string, table: seq<KeywordRow>, j: int)
    requires FirstMatchAt(snippet, table, j)
    ensures Label(snippet, table) == Values(table[j])
    decreases j
  {
    if j > 0 {
      assert table[..j][0] == table[0];
      assert table[1..][..j - 1] == table[..j][1..];
      LabelFirstMatch(snippet, table[1..], j - 1);
    }
  }

  /** Without a match, the label is the default. */
  lemma {:induction false} LabelNoMatch(snippet: string, table: seq<KeywordRow>)
    requires NoMatch(snippet, table)
    ensures Label(snippet, table) == DefaultLabels
    decreases |table|
  {
    if table != [] {
      LabelNoMatch(snippet, table[1..]);
    }
  }

  /** Exactly one of the two cases holds: either some row is the first
      match, or no row matches. */
  lemma {:induction false} MatchCases(snippet: string, table: seq<KeywordRow>)
    ensures NoMatch(snippet, table) || exists j :: FirstMatchAt(snippet, table, j)
    ensures NoMatch(snippet, table) ==> forall j :: !FirstMatchAt(snippet, table, j)
    decreases |table|
  {
    if !NoMatch(snippet, table) {
      var k :| 0 <= k < |table| && Contains(snippet, table[k].keyword);
      MatchCases(snippet, table[..k]);
      if !NoMatch(snippet, table[..k]) {
        var j :| FirstMatchAt(snippet, table[..k], j);
        assert table[..k][..j] == table[..j];
        assert FirstMatchAt(snippet, table, j);
      } else {
        assert FirstMatchAt(snippet, table, k);
      }
    }
  }

  /** The labelling loop: one `(snippet, label)` pair per snippet, in input
      order, the snippet unchanged and the label that of its first matching
      keyword. */
  method LabelSnippets(snippets: seq<string>, table: seq<KeywordRow>)
    returns (labeled: seq<(string, seq<int>)>)
    ensures |labeled| == |snippets|
    ensures forall i :: 0 <= i < |snippets| ==>
      labeled[i] == (snippets[i], Label(snippets[i], table))
  {
    labeled := [];
    var n := 0;
    while n < |snippets|
      invariant 0 <= n <= |snippets|
      invariant |labeled| == n
      invariant forall i :: 0 <= i < n ==> labeled[i] == (snippets[i], Label(snippets[i], table))
    {
      var snippet := snippets[n];
      var chosen := DefaultLabels;
      var k := 0;
      while k < |table|
        invariant 0 <= k <= |table|
        invariant NoMatch(snippet, table[..k])
        invariant chosen == DefaultLabels
      {
        if Contains(snippet, table[k].keyword) {
          chosen := Values(table[k]);
          LabelFirstMatch(snippet, table, k);
          break;
        }
        assert table[..k + 1] == table[..k] + [table[k]];
        k := k + 1;
      }
      if k == |table| {
        assert table[..k] == table;
        LabelNoMatch(snippet, table);
      }
      labeled := labeled + [(snippet, chosen)];
      n := n + 1;
    }
  }

  /** A table whose first row is `torch` labels a snippet mentioning both
      `torch` and `numpy` by `torch` alone; a snippet with no keyword gets
      the default. */
  lemma ExampleFirstWins()
    ensures
      var table := [KeywordRow("torch", 0, 1, 0), KeywordRow("numpy", 1, 0, 0)];
      Label("import torch, numpy", table) == [0, 1, 0] &&
      Label("pass", table) == [1, 0, 0]
  {
    var table := [KeywordRow("torch", 0, 1, 0), KeywordRow("numpy", 1, 0, 0)];
    assert OccursAt("import torch, numpy", "torch", 7);
    ContainsIff("import torch, numpy", "torch");
    assert table[..0] == [];
    LabelFirstMatch("import torch, numpy", table, 0);
    ContainsIff("pass", "torch");
    ContainsIff("pass", "numpy");
    LabelNoMatch("pass", table);
  }
}
