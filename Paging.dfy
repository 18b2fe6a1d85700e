/** The `.offset(offset).limit(limit)` window of a SELECT over rows in storage order. */
module Paging {

  function Min(a: int, b: int): int {
    if a <= b then a else b
  }

  /** The rows from position `offset` on, at most `limit` of them. */
  function Page<T>(rows: seq<T>, offset: nat, limit: nat): (r: seq<T>)
    ensures |r| <= limit
    ensures |r| == if offset >= |rows| then 0 else Min(limit, |rows| - offset)
    ensures forall i :: 0 <= i < |r| ==> r[i] == rows[offset + i]
  {
    if offset >= |rows| then [] else rows[offset..offset + Min(limit, |rows| - offset)]
  }

  /** Two consecutive pages read the same rows as one page of the combined size. */
  lemma PagesCompose<T>(rows: seq<T>, offset: nat, a: nat, b: nat)
    ensures Page(rows, offset, a) + Page(rows, offset + a, b) == Page(rows, offset, a + b)
  {
    var left, right, whole := Page(rows, offset, a), Page(rows, offset + a, b), Page(rows, offset, a + b);
    assert |left + right| == |whole|;
    forall i | 0 <= i < |whole|
      ensures (left + right)[i] == whole[i]
    {
      if i >= |left| {
        assert (left + right)[i] == right[i - |left|];
      }
    }
  }
}
