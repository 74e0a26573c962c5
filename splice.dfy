/** `Array.prototype.splice(start, 1)`, the removal both remove buttons use. */
module Splice {

  /**
   * The index where splice starts: a negative start counts from the end and
   * is clamped at 0, a start past the end is clamped at the length (section
   * 23.1.3.31 of ECMA-262).
   */
  function ActualStart(len: nat, start: int): (k: nat)
    ensures k <= len
    ensures 0 <= start + len && start < len ==> k == start % len
    ensures start >= len ==> k == len
    ensures start + len < 0 ==> k == 0
  {
    if start < 0 then (if len + start < 0 then 0 else len + start)
    else if start > len then len
    else start
  }

  /**
   * The array after `splice(start, 1)`: the element at the actual start is
   * removed when there is one, the others keep their relative order, and
   * nothing changes when the start is at or past the end.
   */
  function RemoveAt<T>(s: seq<T>, start: int): (r: seq<T>)
    ensures var k := ActualStart(|s|, start);
      if k < |s| then
        |r| == |s| - 1 &&
        (forall j :: 0 <= j < k ==> r[j] == s[j]) &&
        (forall j :: k <= j < |r| ==> r[j] == s[j + 1]) &&
        multiset(r) + multiset{s[k]} == multiset(s)
      else r == s
  {
    var k := ActualStart(|s|, start);
    if k < |s| then
      assert s == s[..k] + [s[k]] + s[k + 1..];
      s[..k] + s[k + 1..]
    else s
  }

  predicate NoDuplicates<T(==)>(s: seq<T>) {
    forall i, j :: 0 <= i < j < |s| ==> s[i] != s[j]
  }

  /** Removing an element keeps a duplicate-free sequence duplicate-free, and adds no element. */
  lemma RemoveAtKeeps<T>(s: seq<T>, start: int)
    ensures forall x :: x in RemoveAt(s, start) ==> x in s
    ensures NoDuplicates(s) ==> NoDuplicates(RemoveAt(s, start))
  {
    var r, k := RemoveAt(s, start), ActualStart(|s|, start);
    if k < |s| {
      forall x | x in r ensures x in s {
        var j :| 0 <= j < |r| && r[j] == x;
        if j < k { assert s[j] == x; } else { assert s[j + 1] == x; }
      }
      if NoDuplicates(s) {
        forall i, j | 0 <= i < j < |r| ensures r[i] != r[j] {
          var i', j' := if i < k then i else i + 1, if j < k then j else j + 1;
          assert r[i] == s[i'] && r[j] == s[j'] && i' < j';
        }
      }
    }
  }

  /** The element at a valid start is really gone when it occurred only once. */
  lemma RemoveAtRemoves<T>(s: seq<T>, i: int)
    requires 0 <= i < |s| && NoDuplicates(s)
    ensures s[i] !in RemoveAt(s, i)
    ensures |RemoveAt(s, i)| == |s| - 1
  {
    var r := RemoveAt(s, i);
    forall j | 0 <= j < |r| ensures r[j] != s[i] {
      if j < i { assert r[j] == s[j]; } else { assert r[j] == s[j + 1]; }
    }
  }
}
