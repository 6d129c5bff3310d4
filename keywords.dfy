/**
 * The keyword table shared by the two labelers, and Python's substring
 * test `keyword in snippet`.
 */
module Keywords {

  /** One row of the keyword spreadsheet: a keyword and the CPU, GPU and
      TPU columns, in table order. */
  datatype KeywordRow = KeywordRow(keyword: string, cpu: int, gpu: int, tpu: int)

  /** `k in text` for strings: `k` occurs somewhere in `text` (the empty
      string occurs in every string). A keyword longer than the text never
      occurs in it. */
  predicate Contains(text: string, k: string)
    ensures Contains(text, k) ==> |k| <= |text|
    decreases |text|
  {
    k <= text || (text != [] && Contains(text[1..], k))
  }

  /** `k` occurs in `text` starting at position `i`. */
  predicate OccursAt(text: string, k: string, i: int) {
    0 <= i && i + |k| <= |text| && text[i..i + |k|] == k
  }

  /** An occurrence at any position is found by `Contains`. */
  lemma {:induction false} OccursContains(text: string, k: string, i: int)
    requires OccursAt(text, k, i)
    ensures Contains(text, k)
    decreases i
  {
    if i == 0 {
      assert text[..|k|] == k;
    } else {
      assert text[1..][i - 1..i - 1 + |k|] == text[i..i + |k|];
      OccursContains(text[1..], k, i - 1);
    }
  }

  /** What `Contains` finds is an occurrence at some position. */
  lemma {:induction false} ContainsOccurs(text: string, k: string)
    requires Contains(text, k)
    ensures exists i :: OccursAt(text, k, i)
    decreases |text|
  {
    if k <= text {
      assert OccursAt(text, k, 0);
    } else {
      ContainsOccurs(text[1..], k);
      var j :| OccursAt(text[1..], k, j);
      assert text[1..][j..j + |k|] == text[j + 1..j + 1 + |k|];
      assert OccursAt(text, k, j + 1);
    }
  }

  /** `Contains` is the substring relation. */
  lemma ContainsIff(text: string, k: string)
    ensures Contains(text, k) <==> exists i :: OccursAt(text, k, i)
  {
    if Contains(text, k) {
      ContainsOccurs(text, k);
    }
    if exists i :: OccursAt(text, k, i) {
      var i :| OccursAt(text, k, i);
      OccursContains(text, k, i);
    }
  }

  /** No keyword of `table` occurs in `text`. */
  predicate NoMatch(text: string, table: seq<KeywordRow>) {
    forall j :: 0 <= j < |table| ==> !Contains(text, table[j].keyword)
  }
}
