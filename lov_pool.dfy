/**
 * The target array of a Lustre OST pool (drivers/staging/lustre/lustre/lov/lov_pool.c):
 * a growable array of 32-bit OST indices without duplicates, with `count`
 * slots in use out of `size`, and the iterator that the pool's debugfs file
 * walks it with. Allocation success is an input of the operations that
 * allocate; the read-write semaphore is left out (the callers hold it).
 */
module LovPool {
  import opened Common

  /** LOV_POOL_INIT_COUNT: the size a pool gets when its creator asks for none. */
  const INIT_COUNT: nat := 2

  /**
   * In a duplicate-free array, removing a present value takes exactly that
   * one element out: the rest stays duplicate-free and the value is gone.
   */
  lemma RemoveFirstDistinct<T>(s: seq<T>, x: T)
    requires Distinct(s) && x in s
    ensures |RemoveFirst(s, x)| == |s| - 1
    ensures multiset(RemoveFirst(s, x)) == multiset(s) - multiset{x}
    ensures Distinct(RemoveFirst(s, x)) && x !in RemoveFirst(s, x)
  {
    var i :| 0 <= i < |s| && s[i] == x;
    assert x !in s[..i] by {
      forall j | 0 <= j < i
        ensures s[..i][j] != x
      {
        assert s[j] != s[i];
      }
    }
    RemoveFirstAt(s, x, i);
    CutMultiset(s, i);
    CutDistinct(s, i);
  }

  /** Cutting one position out takes exactly one occurrence of its value out of the multiset. */
  lemma CutMultiset<T>(s: seq<T>, i: nat)
    requires i < |s|
    ensures |s[..i] + s[i + 1..]| == |s| - 1
    ensures multiset(s[..i] + s[i + 1..]) == multiset(s) - multiset{s[i]}
  {
    var pre, post := s[..i], s[i + 1..];
    assert s == pre + [s[i]] + post;
    assert multiset(s) == multiset(pre) + multiset{s[i]} + multiset(post);
  }

  /** Cutting one position out of a duplicate-free sequence leaves it duplicate-free and without that value. */
  lemma CutDistinct<T>(s: seq<T>, i: nat)
    requires Distinct(s) && i < |s|
    ensures Distinct(s[..i] + s[i + 1..]) && s[i] !in s[..i] + s[i + 1..]
  {
    var r := s[..i] + s[i + 1..];
    forall j | 0 <= j < |r|
      ensures r[j] == s[if j < i then j else j + 1]
    {
    }
    forall j, k | 0 <= j < k < |r|
      ensures r[j] != r[k]
    {
      assert r[j] == s[if j < i then j else j + 1];
      assert r[k] == s[if k < i then k else k + 1];
    }
    forall j | 0 <= j < |r|
      ensures r[j] != s[i]
    {
      assert r[j] == s[if j < i then j else j + 1];
    }
  }

  /** Adding an absent index and removing it again gives the array back. */
  lemma {:induction false} AddThenRemove<T>(s: seq<T>, x: T)
    requires x !in s
    ensures RemoveFirst(s + [x], x) == s
  {
    assert (s + [x])[..|s|] == s;
    RemoveFirstAt(s + [x], x, |s|);
    assert (s + [x])[|s| + 1..] == [];
  }

  /** struct ost_pool: `arr` is op_array (an empty array stands for NULL), `count` op_count, `size` op_size. */
  class OstPool {
    var arr: array<U32>
    var count: nat
    var size: nat

    ghost predicate Valid()
      reads this
    {
      size == arr.Length && count <= size
    }

    /** The indices in use, in array order. */
    ghost function Contents(): (r: seq<U32>)
      reads this, arr
      requires Valid()
      ensures |r| == count
    {
      arr[..count]
    }

    /** A zeroed structure: no array. */
    constructor ()
      ensures Valid() && count == 0 && size == 0
    {
      arr := new U32[0];
      count, size := 0, 0;
    }

    /**
     * lov_ost_pool_init: an empty pool of `requested` slots, or of
     * INIT_COUNT slots when none are requested. When the allocation
     * (`allocOk`) fails the size is reset to 0 and the result is -ENOMEM.
     */
    method Init(requested: nat, allocOk: bool) returns (rc: int)
      modifies this
      ensures Valid() && count == 0 && Contents() == []
      ensures allocOk ==> rc == 0 && size == (if requested == 0 then INIT_COUNT else requested) && fresh(arr)
      ensures !allocOk ==> rc == -ENOMEM && size == 0
    {
      var n := if requested == 0 then INIT_COUNT else requested;
      count := 0;
      if !allocOk {
        arr, size := new U32[0], 0;
        return -ENOMEM;
      }
      arr := new U32[n](_ => 0);
      size := n;
      rc := 0;
    }

    /**
     * lov_ost_pool_extend: nothing to do while a slot is free; otherwise a
     * zeroed array of max(`minCount`, 2 * size) slots replaces the old one,
     * which is copied in. After success there is a free slot.
     */
    method Extend(minCount: nat, allocOk: bool) returns (rc: int)
      requires Valid() && minCount != 0
      modifies this
      ensures Valid() && count == old(count) && Contents() == old(Contents())
      ensures old(count) < old(size) ==> rc == 0 && arr == old(arr) && size == old(size)
      ensures old(count) >= old(size) && !allocOk ==> rc == -ENOMEM && arr == old(arr) && size == old(size)
      ensures old(count) >= old(size) && allocOk ==>
        rc == 0 && fresh(arr) && size == (if minCount > 2 * old(size) then minCount else 2 * old(size))
      ensures rc == 0 ==> count < size
      ensures rc == 0 || rc == -ENOMEM
    {
      if count < size {
        return 0;
      }
      var newSize := if minCount > 2 * size then minCount else 2 * size;
      if !allocOk {
        return -ENOMEM;
      }
      var a := new U32[newSize](_ => 0);
      forall i | 0 <= i < arr.Length {
        a[i] := arr[i];
      }
      assert a[..count] == arr[..count];
      arr, size := a, newSize;
      rc := 0;
    }

    /**
     * lov_ost_pool_add: after making room, an index already present is
     * refused with -EEXIST; otherwise it is appended. A failed extension
     * is reported first, whether or not the index is present.
     */
    method Add(idx: U32, minCount: nat, allocOk: bool) returns (rc: int)
      requires Valid() && minCount != 0
      modifies this, arr
      ensures Valid()
      ensures rc == -ENOMEM <==> old(count) >= old(size) && !allocOk
      ensures rc == -ENOMEM ==> Contents() == old(Contents())
      ensures rc != -ENOMEM && idx in old(Contents()) ==> rc == -EEXIST && Contents() == old(Contents())
      ensures rc != -ENOMEM && idx !in old(Contents()) ==> rc == 0 && Contents() == old(Contents()) + [idx]
      ensures Distinct(old(Contents())) ==> Distinct(Contents())
    {
      rc := Extend(minCount, allocOk);
      if rc != 0 {
        return;
      }
      for i := 0 to count
        invariant idx !in arr[..i]
      {
        if arr[i] == idx {
          assert arr[..count][i] == idx;
          return -EEXIST;
        }
        assert arr[..i + 1] == arr[..i] + [arr[i]];
      }
      ghost var before := arr[..count];
      arr[count] := idx;
      count := count + 1;
      assert Contents() == before + [idx];
    }

    /**
     * lov_ost_pool_remove: the first element equal to `idx` is cut out and
     * the later ones move down one slot in order; -EINVAL when it is absent.
     */
    method Remove(idx: U32) returns (rc: int)
      requires Valid()
      modifies this, arr
      ensures Valid() && arr == old(arr) && size == old(size)
      ensures idx in old(Contents()) ==> rc == 0 && count == old(count) - 1
      ensures idx !in old(Contents()) ==> rc == -EINVAL && count == old(count)
      ensures Contents() == RemoveFirst(old(Contents()), idx)
    {
      for i := 0 to count
        invariant idx !in arr[..i]
        invariant arr[..] == old(arr[..])
      {
        if arr[i] == idx {
          ghost var s := arr[..count];
          forall j | i <= j < count - 1 {
            arr[j] := arr[j + 1];
          }
          count := count - 1;
          assert s[..i] == arr[..i];
          RemoveFirstAt(s, idx, i);
          assert arr[..count] == s[..i] + s[i + 1..];
          return 0;
        }
        assert arr[..i + 1] == arr[..i] + [arr[i]];
      }
      assert arr[..count] == old(arr[..count]);
      RemoveFirstAbsent(arr[..count], idx);
      rc := -EINVAL;
    }

    /** lov_ost_pool_free: an unallocated pool is left alone; otherwise the array goes and the pool is emptied. */
    method Free() returns (rc: int)
      requires Valid()
      modifies this
      ensures Valid() && rc == 0 && count == 0 && size == 0
      ensures old(size) == 0 ==> arr == old(arr)
    {
      if size == 0 {
        return 0;
      }
      arr := new U32[0];
      count, size := 0, 0;
      rc := 0;
    }
  }

  /** struct pool_iterator: the current entry of the pool's debugfs walk. */
  class PoolIterator {
    var idx: int

    constructor ()
      ensures idx == 0
    {
      idx := 0;
    }

    /**
     * pool_proc_next over a pool of `count` targets, at seq_file position
     * `pos`: past the end, or when the next entry would be `count`, the
     * walk stops and the iterator stays on its entry; otherwise both move
     * on by one. An iterator on an entry of the pool stays on one.
     */
    method Next(count: nat, pos: int) returns (more: bool, pos2: int)
      modifies this
      ensures more <==> pos < count && old(idx) + 1 != count
      ensures more ==> idx == old(idx) + 1 && pos2 == pos + 1
      ensures !more ==> idx == old(idx) && pos2 == pos
      ensures 0 <= old(idx) < count ==> 0 <= idx < count
    {
      if pos >= count {
        return false, pos;
      }
      var prev := idx;
      idx := idx + 1;
      if idx == count {
        idx := prev;
        return false, pos;
      }
      more, pos2 := true, pos + 1;
    }
  }

  /** The outcome of pool_proc_start: nothing to show, an allocation failure, or an iterator. */
  datatype StartOutcome = Stop | NoMem | Started

  /**
   * pool_proc_start: an empty pool or a position past its end shows
   * nothing; otherwise a new iterator is moved on from entry 0 until it is
   * at position `pos`, so it stands on entry `pos` (entry 0 for a negative
   * position).
   */
  method ProcStart(count: nat, pos: int, allocOk: bool) returns (r: StartOutcome, it: PoolIterator?)
    ensures (count == 0 || pos >= count) ==> r == Stop && it == null
    ensures 0 < count && pos < count && !allocOk ==> r == NoMem && it == null
    ensures 0 < count && pos < count && allocOk ==>
      r == Started && it != null && fresh(it) && it.idx == (if pos > 0 then pos else 0)
  {
    if count == 0 || pos >= count {
      return Stop, null;
    }
    if !allocOk {
      return NoMem, null;
    }
    it := new PoolIterator();
    r := Started;
    if pos > 0 {
      var i := 0;
      var more := true;
      while true
        invariant 0 <= i < pos && it.idx == i
        decreases pos - i
      {
        more, i := it.Next(count, i);
        if !(i < pos && more) {
          break;
        }
      }
    }
  }
}
