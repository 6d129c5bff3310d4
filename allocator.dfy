/**
 * `label_and_allocate` (master_slave_test1.py): for one snippet, a record
 * for EVERY keyword row that occurs in it, in table order, with each
 * resource column turned into a flag by Python truthiness. Unlike the
 * first-match labeler it applies no default.
 */
module Allocator {
  import opened Keywords
  import Labeler

  /** The dict appended per match: the keyword and the three flags. */
  datatype Resource = Resource(keyword: string, cpu: bool, gpu: bool, tpu: bool)

  /** `bool(cpu)`, `bool(gpu)`, `bool(tpu)`: a nonzero column is true, so
      each flag is the truthiness of the value the first-match labeler reads
      from the same row. */
  function ToResource(row: KeywordRow): (r: Resource)
    ensures r.keyword == row.keyword
    ensures var v := Labeler.Values(row);
      (r.cpu <==> v[0] != 0) && (r.gpu <==> v[1] != 0) && (r.tpu <==> v[2] != 0)
  {
    Resource(row.keyword, row.cpu != 0, row.gpu != 0, row.tpu != 0)
  }

  /** The records for the rows of `table` whose keyword occurs in `snippet`,
      in table order. */
  function AllMatches(snippet: string, table: seq<KeywordRow>): (r: seq<Resource>)
    ensures |r| <= |table|
  {
    if table == [] then []
    else
      var last := table[|table| - 1];
      AllMatches(snippet, table[..|table| - 1]) +
        if Contains(snippet, last.keyword) then [ToResource(last)] else []
  }

  /** The records of a concatenated table are those of each part, in order. */
  lemma {:induction false} AllMatchesAppend(snippet: string, a: seq<KeywordRow>, b: seq<KeywordRow>)
    ensures AllMatches(snippet, a + b) == AllMatches(snippet, a) + AllMatches(snippet, b)
    decreases |b|
  {
    if b == [] {
      assert a + b == a;
    } else {
      var b' := b[..|b| - 1];
      assert (a + b)[..|a + b| - 1] == a + b';
      AllMatchesAppend(snippet, a, b');
    }
  }

  lemma AllMatchesOne(snippet: string, row: KeywordRow)
    ensures AllMatches(snippet, [row]) == if Contains(snippet, row.keyword) then [ToResource(row)] else []
  {
    assert [row][..0] == [];
  }

  /** `res` is the record of some row of `table` whose keyword occurs in
      `snippet`. */
  predicate FromMatchingRow(snippet: string, table: seq<KeywordRow>, res: Resource) {
    exists j :: 0 <= j < |table| && Contains(snippet, table[j].keyword) && res == ToResource(table[j])
  }

  /** Soundness: every record comes from a row whose keyword occurs in the
      snippet, so every record's keyword is a substring of it. */
  lemma {:induction false} AllMatchesSound(snippet: string, table: seq<KeywordRow>)
    ensures forall i :: 0 <= i < |AllMatches(snippet, table)| ==>
      FromMatchingRow(snippet, table, AllMatches(snippet, table)[i])
    ensures forall i :: 0 <= i < |AllMatches(snippet, table)| ==>
      Contains(snippet, AllMatches(snippet, table)[i].keyword)
    decreases |table|
  {
    if table != [] {
      var init := table[..|table| - 1];
      var last := table[|table| - 1];
      AllMatchesSound(snippet, init);
      var p := AllMatches(snippet, init);
      var r := AllMatches(snippet, table);
      assert r == p + if Contains(snippet, last.keyword) then [ToResource(last)] else [];
      forall i | 0 <= i < |r|
        ensures FromMatchingRow(snippet, table, r[i])
      {
        if i < |p| {
          assert r[i] == p[i];
          assert FromMatchingRow(snippet, init, p[i]);
          var j :| 0 <= j < |init| && Contains(snippet, init[j].keyword) && p[i] == ToResource(init[j]);
          assert table[j] == init[j];
        } else {
          assert r[i] == ToResource(table[|table| - 1]);
        }
      }
    }
  }

  /** Completeness: every row whose keyword occurs in the snippet yields a
      record (all matches, not only the first). */
  lemma {:induction false} AllMatchesComplete(snippet: string, table: seq<KeywordRow>, j: int)
    requires 0 <= j < |table| && Contains(snippet, table[j].keyword)
    ensures ToResource(table[j]) in AllMatches(snippet, table)
    decreases |table|
  {
    var init := table[..|table| - 1];
    if j < |table| - 1 {
      AllMatchesComplete(snippet, init, j);
    }
  }

  /** The result is empty exactly when no keyword occurs in the snippet: no
      default record is produced. */
  lemma {:induction false} AllMatchesEmpty(snippet: string, table: seq<KeywordRow>)
    ensures AllMatches(snippet, table) == [] <==> NoMatch(snippet, table)
    decreases |table|
  {
    if table != [] {
      var init := table[..|table| - 1];
      AllMatchesEmpty(snippet, init);
      if NoMatch(snippet, table) {
        assert NoMatch(snippet, init);
      } else {
        var j :| 0 <= j < |table| && Contains(snippet, table[j].keyword);
        AllMatchesComplete(snippet, table, j);
      }
    }
  }

  /** The records of a table are those of its first row, then those of
      the rest. */
  lemma AllMatchesCons(snippet: string, row: KeywordRow, rest: seq<KeywordRow>)
    ensures AllMatches(snippet, [row] + rest)
         == (if Contains(snippet, row.keyword) then [ToResource(row)] else []) + AllMatches(snippet, rest)
  {
    AllMatchesAppend(snippet, [row], rest);
    AllMatchesOne(snippet, row);
  }

  /** With no record, the first-match labeler falls back to its default. */
  lemma NoRecordIsDefaultLabel(snippet: string, table: seq<KeywordRow>)
    ensures AllMatches(snippet, table) == [] ==> Labeler.Label(snippet, table) == Labeler.DefaultLabels
  {
    AllMatchesEmpty(snippet, table);
    if NoMatch(snippet, table) {
      Labeler.LabelNoMatch(snippet, table);
    }
  }

  /** The two labelers agree where they overlap: the first record carries
      the truthiness of the first-match label. */
  lemma {:induction false} FirstRecordIsLabel(snippet: string, table: seq<KeywordRow>)
    requires AllMatches(snippet, table) != []
    ensures var first := AllMatches(snippet, table)[0];
      var values := Labeler.Label(snippet, table);
      && (first.cpu <==> values[0] != 0) && (first.gpu <==> values[1] != 0)
      && (first.tpu <==> values[2] != 0) && Contains(snippet, first.keyword)
    decreases |table|
  {
    var row, rest := table[0], table[1..];
    assert table == [row] + rest;
    AllMatchesCons(snippet, row, rest);
    if !Contains(snippet, row.keyword) {
      assert AllMatches(snippet, table) == AllMatches(snippet, rest);
      assert Labeler.Label(snippet, table) == Labeler.Label(snippet, rest);
      FirstRecordIsLabel(snippet, rest);
    }
  }

  /** A snippet mentioning two keywords gets a record for each, in table
      order; a snippet mentioning none gets no record at all. */
  lemma ExampleAllMatches()
    ensures
      var table := [KeywordRow("torch", 0, 1, 0), KeywordRow("numpy", 1, 0, 0)];
      AllMatches("import torch, numpy", table) ==
        [Resource("torch", false, true, false), Resource("numpy", true, false, false)] &&
      AllMatches("pass", table) == []
  {
    var table := [KeywordRow("torch", 0, 1, 0), KeywordRow("numpy", 1, 0, 0)];
    var text := "import torch, numpy";
    assert OccursAt(text, "torch", 7);
    assert OccursAt(text, "numpy", 14);
    ContainsIff(text, "torch");
    ContainsIff(text, "numpy");
    assert table == [table[0]] + [table[1]];
    AllMatchesAppend(text, [table[0]], [table[1]]);
    AllMatchesOne(text, table[0]);
    AllMatchesOne(text, table[1]);
    ContainsIff("pass", "torch");
    ContainsIff("pass", "numpy");
    AllMatchesEmpty("pass", table);
  }

  /** The loop of `label_and_allocate`. */
  method LabelAndAllocate(snippet: string, keywords: seq<KeywordRow>)
    returns (resources: seq<Resource>)
    ensures resources == AllMatches(snippet, keywords)
  {
    resources := [];
    var k := 0;
    while k < |keywords|
      invariant 0 <= k <= |keywords|
      invariant resources == AllMatches(snippet, keywords[..k])
    {
      assert keywords[..k + 1][..k] == keywords[..k];
      if Contains(snippet, keywords[k].keyword) {
        var resource := ToResource(keywords[k]);
        resources := resources + [resource];
      }
      k := k + 1;
    }
    assert keywords[..k] == keywords;
  }
}
