/**
 * Vocabulary shared by every driver model: optional values, the fixed-width
 * unsigned integer ranges of C, and the Linux error numbers the drivers return
 * (as negative values, the kernel convention).
 */
module Common {

  datatype Option<T> = None | Some(value: T)

  /** The list of zero or one element held by an option. */
  function OptSeq<T>(o: Option<T>): (r: seq<T>)
    ensures |r| <= 1
    ensures o.Some? <==> |r| == 1
    ensures o.Some? ==> r[0] == o.value
  {
    if o.Some? then [o.value] else []
  }

  const U32_LIMIT: int := 0x1_0000_0000
  const U64_LIMIT: int := 0x1_0000_0000_0000_0000

  type U8 = x: int | 0 <= x < 0x100
  type U16 = x: int | 0 <= x < 0x1_0000
  type U32 = x: int | 0 <= x < 0x1_0000_0000
  type U64 = x: int | 0 <= x < 0x1_0000_0000_0000_0000

  /** Error numbers of include/uapi/asm-generic/errno-base.h and errno.h. */
  const ENOENT: int := 2
  const EAGAIN: int := 11
  const ENOMEM: int := 12
  const EFAULT: int := 14
  const EBUSY: int := 16
  const EEXIST: int := 17
  const EINVAL: int := 22
  const ENFILE: int := 23
  const EFBIG: int := 27
  const ERANGE: int := 34
  const ENODATA: int := 61
  const ENOBUFS: int := 105
  const ENOTSUPP: int := 524

  /** 2 to the power `n`. */
  function Pow2(n: nat): (r: nat)
    ensures r >= 1
  {
    if n == 0 then 1 else 2 * Pow2(n - 1)
  }

  /** Pow2 grows with its exponent. */
  lemma {:induction false} Pow2Monotone(a: nat, b: nat)
    requires a <= b
    ensures Pow2(a) <= Pow2(b)
    decreases b - a
  {
    if a < b {
      Pow2Monotone(a, b - 1);
    }
  }

  /** The kernel's clamp(x, lo, hi) for lo <= hi. */
  function Clamp(x: nat, lo: nat, hi: nat): (r: nat)
    requires lo <= hi
    ensures lo <= r <= hi
    ensures lo <= x <= hi ==> r == x
    ensures x < lo ==> r == lo
    ensures x > hi ==> r == hi
  {
    if x < lo then lo else if x > hi then hi else x
  }

  /** No two positions of `s` hold the same value. */
  ghost predicate Distinct<T>(s: seq<T>)
  {
    forall i, j :: 0 <= i < j < |s| ==> s[i] != s[j]
  }

  /** `s` with the first occurrence of `x` taken out (the whole of `s` when `x` is absent). */
  function RemoveFirst<T(==)>(s: seq<T>, x: T): seq<T>
  {
    if |s| == 0 then s
    else if s[0] == x then s[1..]
    else [s[0]] + RemoveFirst(s[1..], x)
  }

  /** Removing the first occurrence at `i` is cutting position `i` out. */
  lemma {:induction false} RemoveFirstAt<T>(s: seq<T>, x: T, i: nat)
    requires i < |s| && s[i] == x && x !in s[..i]
    ensures RemoveFirst(s, x) == s[..i] + s[i + 1..]
  {
    if i > 0 {
      assert s[1..][..i - 1] == s[1..i];
      assert x !in s[1..][..i - 1];
      RemoveFirstAt(s[1..], x, i - 1);
      assert s[1..][i..] == s[i + 1..];
      assert s[..i] == [s[0]] + s[1..i];
    }
  }

  /** An absent value removes nothing. */
  lemma {:induction false} RemoveFirstAbsent<T>(s: seq<T>, x: T)
    requires x !in s
    ensures RemoveFirst(s, x) == s
  {
    if |s| > 0 {
      RemoveFirstAbsent(s[1..], x);
      assert s == [s[0]] + s[1..];
    }
  }

  /** A present value is removed at its first position, taking one copy out of the multiset. */
  lemma RemoveFirstPresent<T>(s: seq<T>, x: T) returns (i: nat)
    requires x in s
    ensures i < |s| && s[i] == x && x !in s[..i]
    ensures RemoveFirst(s, x) == s[..i] + s[i + 1..]
    ensures multiset(RemoveFirst(s, x)) == multiset(s) - multiset{x}
  {
    i := 0;
    while s[i] != x
      invariant i < |s| && x in s[i..] && x !in s[..i]
      decreases |s| - i
    {
      assert s[i..] == [s[i]] + s[i + 1..];
      assert s[..i + 1] == s[..i] + [s[i]];
      i := i + 1;
    }
    RemoveFirstAt(s, x, i);
    assert s == s[..i] + [x] + s[i + 1..];
  }

  /**
   * Rounding up to a multiple of 8, as both ALIGN(x, 8) and cfs_size_round
   * do: the least multiple of 8 not below `x`.
   */
  function RoundUp8(x: nat): (r: nat)
    ensures r % 8 == 0 && x <= r < x + 8
  {
    (x + 7) / 8 * 8
  }

  /** Concatenation is associative. */
  lemma ConcatAssoc<T>(a: seq<T>, b: seq<T>, c: seq<T>)
    ensures a + (b + c) == a + b + c
  {
  }

  /** C division of integers, which truncates toward zero. */
  function CDiv(a: int, b: int): (q: int)
    requires b != 0
    ensures a >= 0 && b > 0 ==> q == a / b
    ensures (if q < 0 then -q else q) * (if b < 0 then -b else b) <= (if a < 0 then -a else a)
  {
    var ua := if a < 0 then -a else a;
    var ub := if b < 0 then -b else b;
    if (a < 0) == (b < 0) then ua / ub else -(ua / ub)
  }
}
