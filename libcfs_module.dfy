/**
 * The ioctl entry of the Lustre networking support library
 * (drivers/staging/lustre/lnet/libcfs/module.c): the list of ioctl handlers
 * other modules register, the validation of the user's libcfs_ioctl_data
 * buffer, the dispatch of an ioctl to the handlers, the position
 * bookkeeping of the debugfs read and write handlers, and the choice of
 * file operations by mode. Copies from and to user memory, allocation and
 * the handlers themselves are inputs.
 */
module LibcfsModule {
  import opened Common

  /** LIBCFS_IOCTL_VERSION and LIBCFS_IOCTL_VERSION2 of libcfs_ioctl.h. */
  const IOCTL_VERSION: nat := 0x0001_000a
  const IOCTL_VERSION2: nat := 0x0001_000b
  /** LIBCFS_IOC_DATA_MAX: the largest ioctl buffer. */
  const IOC_DATA_MAX: nat := 128 * 1024
  /** sizeof(struct libcfs_ioctl_hdr): two 32-bit fields. */
  const HDR_SIZE: nat := 8
  /** BIT(30): the largest length any field may give. */
  const LEN_LIMIT: nat := 0x4000_0000

  // ---------------------------------------------------------------------
  // The handler list
  // ---------------------------------------------------------------------

  /** `s` without `x`. */
  function Without(s: seq<nat>, x: nat): (r: seq<nat>)
    ensures x !in r
    ensures forall y :: y in r <==> y in s && y != x
    ensures x !in s ==> r == s
  {
    if |s| == 0 then []
    else if s[0] == x then Without(s[1..], x)
    else [s[0]] + Without(s[1..], x)
  }

  /** Taking out a value keeps the others in their order and distinct. */
  lemma {:induction false} WithoutDistinct(s: seq<nat>, x: nat)
    requires Distinct(s)
    ensures Distinct(Without(s, x))
    ensures |Without(s, x)| == if x in s then |s| - 1 else |s|
  {
    if |s| > 0 {
      var t := s[1..];
      assert Distinct(t) by {
        forall i, j | 0 <= i < j < |t|
          ensures t[i] != t[j]
        {
          assert t[i] == s[i + 1] && t[j] == s[j + 1];
        }
      }
      assert s[0] !in t by {
        forall j | 0 <= j < |t|
          ensures t[j] != s[0]
        {
          assert t[j] == s[j + 1];
        }
      }
      WithoutDistinct(t, x);
      assert x in s <==> x == s[0] || x in t;
      if s[0] != x {
        var r := [s[0]] + Without(t, x);
        assert s[0] !in Without(t, x);
        assert Distinct(r) by {
          forall i, j | 0 <= i < j < |r|
            ensures r[i] != r[j]
          {
            if i == 0 {
              assert r[j] in Without(t, x);
            }
          }
        }
      }
    }
  }

  /** Registering a new handler and deregistering it again gives back the list. */
  lemma {:induction false} WithoutAppended(s: seq<nat>, x: nat)
    requires x !in s
    ensures Without(s + [x], x) == s
    decreases |s|
  {
    if |s| > 0 {
      assert (s + [x])[1..] == s[1..] + [x];
      WithoutAppended(s[1..], x);
      assert s == [s[0]] + s[1..];
    } else {
      assert s + [x] == [x];
    }
  }

  /**
   * ioctl_list: the registered struct libcfs_ioctl_handler of the other
   * modules, named by numbers, in registration order. A handler's own list
   * node is linked exactly when it is in the list.
   */
  class IoctlRegistry {
    var handlers: seq<nat>

    ghost predicate Valid()
      reads this
    {
      Distinct(handlers)
    }

    constructor ()
      ensures Valid() && handlers == []
    {
      handlers := [];
    }

    /** libcfs_register_ioctl: a handler already linked is refused with -EBUSY; otherwise it joins the tail. */
    method Register(h: nat) returns (rc: int)
      requires Valid()
      modifies this
      ensures Valid()
      ensures old(h in handlers) ==> rc == -EBUSY && handlers == old(handlers)
      ensures old(h !in handlers) ==> rc == 0 && handlers == old(handlers) + [h]
    {
      if h in handlers {
        return -EBUSY;
      }
      ghost var s := handlers;
      handlers := handlers + [h];
      assert Distinct(handlers) by {
        forall i, j | 0 <= i < j < |handlers|
          ensures handlers[i] != handlers[j]
        {
          if j == |s| {
            assert handlers[i] == s[i];
            assert s[i] in s;
          } else {
            assert handlers[i] == s[i] && handlers[j] == s[j];
          }
        }
      }
      rc := 0;
    }

    /** libcfs_deregister_ioctl: a handler not linked is refused with -ENOENT; otherwise it is unlinked. */
    method Deregister(h: nat) returns (rc: int)
      requires Valid()
      modifies this
      ensures Valid()
      ensures old(h !in handlers) ==> rc == -ENOENT && handlers == old(handlers)
      ensures old(h in handlers) ==> rc == 0 && handlers == Without(old(handlers), h)
    {
      if h !in handlers {
        return -ENOENT;
      }
      WithoutDistinct(handlers, h);
      handlers := Without(handlers, h);
      rc := 0;
    }
  }

  // ---------------------------------------------------------------------
  // Validation of struct libcfs_ioctl_data
  // ---------------------------------------------------------------------

  /**
   * The fields of struct libcfs_ioctl_data the checks read: the header's
   * length and version, the two inline lengths and whether the four buffer
   * pointers are set, the two lengths of the separate buffers, and the
   * bulk bytes that follow the structure. The inline pointers are kept as
   * offsets into the bulk.
   */
  datatype IoctlData = IoctlData(
    len: U32, version: U32,
    inllen1: U32, inllen2: U32,
    inlbuf1: Option<nat>, inlbuf2: Option<nat>,
    pbuf1: bool, plen1: U32, pbuf2: bool, plen2: U32,
    bulk: seq<U8>)

  /**
   * The bulk holds what follows the structure, of `dataSize` bytes (well
   * below 1 GiB), in a buffer of `len` bytes.
   */
  predicate BulkFits(d: IoctlData, dataSize: nat)
  {
    && dataSize < LEN_LIMIT
    && (d.len >= dataSize ==> |d.bulk| == d.len - dataSize)
  }

  /** libcfs_ioctl_packlen: the structure, then the two inline buffers, each rounded up. */
  function PackLen(d: IoctlData, dataSize: nat): (n: nat)
    ensures n >= dataSize + d.inllen1 + d.inllen2
  {
    dataSize + RoundUp8(d.inllen1) + RoundUp8(d.inllen2)
  }

  /**
   * libcfs_ioctl_is_invalid: the checks in the driver's order, each with
   * the offending condition; the bulk is only indexed once the packed
   * length matched, so the indexes are inside it.
   */
  function IsInvalid(d: IoctlData, dataSize: nat): bool
    requires BulkFits(d, dataSize)
  {
    if d.len > LEN_LIMIT then true
    else if d.inllen1 > LEN_LIMIT then true
    else if d.inllen2 > LEN_LIMIT then true
    else if d.inlbuf1.Some? && d.inllen1 == 0 then true
    else if d.inlbuf2.Some? && d.inllen2 == 0 then true
    else if d.pbuf1 && d.plen1 == 0 then true
    else if d.pbuf2 && d.plen2 == 0 then true
    else if d.plen1 != 0 && !d.pbuf1 then true
    else if d.plen2 != 0 && !d.pbuf2 then true
    else if (assert PackLen(d, dataSize) < U32_LIMIT; PackLen(d, dataSize) % U32_LIMIT != d.len) then true
    else if d.inllen1 != 0 && d.bulk[d.inllen1 - 1] != 0 then true
    else if d.inllen2 != 0 && d.bulk[RoundUp8(d.inllen1) + d.inllen2 - 1] != 0 then true
    else false
  }

  /**
   * What a valid buffer is, stated independently of the order of the
   * checks: lengths within 2^30, a pointer exactly with a nonzero length
   * for the separate buffers and only with a nonzero length for the inline
   * ones, the packed length equal to the header's, and the inline buffers,
   * the second at the rounded end of the first, each ending in a NUL byte.
   */
  ghost predicate WellFormed(d: IoctlData, dataSize: nat)
  {
    && d.len <= LEN_LIMIT && d.inllen1 <= LEN_LIMIT && d.inllen2 <= LEN_LIMIT
    && (d.inlbuf1.Some? ==> d.inllen1 != 0) && (d.inlbuf2.Some? ==> d.inllen2 != 0)
    && (d.pbuf1 <==> d.plen1 != 0) && (d.pbuf2 <==> d.plen2 != 0)
    && PackLen(d, dataSize) == d.len
    && |d.bulk| == RoundUp8(d.inllen1) + RoundUp8(d.inllen2)
    && (d.inllen1 != 0 ==> d.bulk[d.inllen1 - 1] == 0)
    && (d.inllen2 != 0 ==> d.bulk[RoundUp8(d.inllen1) + d.inllen2 - 1] == 0)
  }

  /** The checks accept a buffer exactly when it is well formed. */
  lemma IsInvalidIff(d: IoctlData, dataSize: nat)
    requires BulkFits(d, dataSize)
    ensures !IsInvalid(d, dataSize) <==> WellFormed(d, dataSize)
  {
    if d.len <= LEN_LIMIT && d.inllen1 <= LEN_LIMIT && d.inllen2 <= LEN_LIMIT {
      assert PackLen(d, dataSize) < U32_LIMIT;
      assert PackLen(d, dataSize) % U32_LIMIT == PackLen(d, dataSize);
    }
  }

  /**
   * libcfs_ioctl_data_adjust: -EINVAL for an invalid buffer; otherwise the
   * inline pointers are set into the bulk, the first at its start and the
   * second at the rounded end of the first.
   */
  function DataAdjust(d: IoctlData, dataSize: nat): (int, IoctlData)
    requires BulkFits(d, dataSize)
  {
    if IsInvalid(d, dataSize) then (-EINVAL, d)
    else
      var d1 := if d.inllen1 != 0 then d.(inlbuf1 := Some(0)) else d;
      var d2 := if d.inllen2 != 0 then d1.(inlbuf2 := Some(RoundUp8(d.inllen1))) else d1;
      (0, d2)
  }

  /** After a successful adjustment each inline buffer lies in the bulk and its last byte is its NUL terminator. */
  lemma AdjustedBuffersTerminated(d: IoctlData, dataSize: nat)
    requires BulkFits(d, dataSize) && DataAdjust(d, dataSize).0 == 0
    ensures var a := DataAdjust(d, dataSize).1;
      && (a.inllen1 != 0 ==> a.inlbuf1 == Some(0) && a.inllen1 <= |a.bulk| && a.bulk[a.inlbuf1.value + a.inllen1 - 1] == 0)
      && (a.inllen2 != 0 ==> a.inlbuf2.Some? && a.inlbuf2.value + a.inllen2 <= |a.bulk|
                             && a.bulk[a.inlbuf2.value + a.inllen2 - 1] == 0)
  {
    IsInvalidIff(d, dataSize);
  }

  /** struct libcfs_ioctl_hdr: the length and the version in front of every ioctl buffer. */
  datatype Hdr = Hdr(len: U32, version: U32)

  /**
   * libcfs_ioctl_getdata: `first` is the header copied on its own (None
   * when the copy faults), `allocOk` the allocation of the whole buffer and
   * `again` the header as the copy of the whole buffer holds it (None when
   * that copy faults). The result is 0 or an error.
   */
  function GetData(first: Option<Hdr>, allocOk: bool, again: Option<Hdr>): (rc: int)
    ensures rc == 0 <==>
      && first.Some? && (first.value.version == IOCTL_VERSION || first.value.version == IOCTL_VERSION2)
      && HDR_SIZE <= first.value.len <= IOC_DATA_MAX && allocOk && again == first
    ensures first.None? ==> rc == -EFAULT
    ensures first.Some? && first.value.version != IOCTL_VERSION && first.value.version != IOCTL_VERSION2 ==> rc == -EINVAL
  {
    if first.None? then -EFAULT
    else
      var hdr := first.value;
      if hdr.version != IOCTL_VERSION && hdr.version != IOCTL_VERSION2 then -EINVAL
      else if hdr.len < HDR_SIZE then -EINVAL
      else if hdr.len > IOC_DATA_MAX then -EINVAL
      else if !allocOk then -ENOMEM
      else if again.None? then -EFAULT
      else if again.value.version != hdr.version || again.value.len != hdr.len then -EINVAL
      else 0
  }

  // ---------------------------------------------------------------------
  // Dispatch
  // ---------------------------------------------------------------------

  /**
   * The default case of libcfs_ioctl from handler `k` on: `handle` gives
   * each handler's result and `copyOk` whether copying the buffer back
   * succeeds. Handlers answering -EINVAL are passed over; the first other
   * answer ends the walk, a success turning into -EFAULT when the copy
   * back fails; -EINVAL when every handler passes.
   */
  function DispatchFrom(handlers: seq<nat>, handle: nat -> int, copyOk: bool, k: nat): int
    requires k <= |handlers|
    decreases |handlers| - k
  {
    if k == |handlers| then -EINVAL
    else
      var err := handle(handlers[k]);
      if err == -EINVAL then DispatchFrom(handlers, handle, copyOk, k + 1)
      else if err == 0 && !copyOk then -EFAULT
      else err
  }

  /** When every handler from `k` on answers -EINVAL, so does the dispatch. */
  lemma {:induction false} DispatchNone(handlers: seq<nat>, handle: nat -> int, copyOk: bool, k: nat)
    requires k <= |handlers|
    requires forall j :: k <= j < |handlers| ==> handle(handlers[j]) == -EINVAL
    ensures DispatchFrom(handlers, handle, copyOk, k) == -EINVAL
    decreases |handlers| - k
  {
    if k < |handlers| {
      DispatchNone(handlers, handle, copyOk, k + 1);
    }
  }

  /** The first handler from `k` on that does not answer -EINVAL decides the result. */
  lemma {:induction false} DispatchFirst(handlers: seq<nat>, handle: nat -> int, copyOk: bool, k: nat, i: nat)
    requires k <= i < |handlers| && handle(handlers[i]) != -EINVAL
    requires forall j :: k <= j < i ==> handle(handlers[j]) == -EINVAL
    ensures DispatchFrom(handlers, handle, copyOk, k)
      == if handle(handlers[i]) == 0 && !copyOk then -EFAULT else handle(handlers[i])
    decreases i - k
  {
    if k < i {
      DispatchFirst(handlers, handle, copyOk, k + 1, i);
    }
  }

  /** The list walk of libcfs_ioctl's default case. */
  method Dispatch(handlers: seq<nat>, handle: nat -> int, copyOk: bool) returns (err: int)
    ensures err == DispatchFrom(handlers, handle, copyOk, 0)
  {
    err := -EINVAL;
    var k := 0;
    while k < |handlers|
      invariant k <= |handlers|
      invariant DispatchFrom(handlers, handle, copyOk, k) == DispatchFrom(handlers, handle, copyOk, 0)
      invariant err == -EINVAL
    {
      err := handle(handlers[k]);
      if err == -EINVAL {
        k := k + 1;
        continue;
      }
      if err == 0 && !copyOk {
        err := -EFAULT;
      }
      return;
    }
  }

  /** The commands libcfs_ioctl handles itself, and any other. */
  datatype Cmd = ClearDebug | MarkDebug | Other(nr: nat)

  /**
   * libcfs_ioctl once the header is read (`getRc` is libcfs_ioctl_getdata's
   * result and `d` the buffer): a version-1 buffer is validated and
   * adjusted; clearing the debug buffer always succeeds, marking it needs
   * a version-1 buffer with a NUL-terminated first inline buffer, and any
   * other command goes to the handlers.
   */
  method Ioctl(cmd: Cmd, getRc: int, d: IoctlData, dataSize: nat, handlers: seq<nat>, handle: nat -> int, copyOk: bool)
    returns (err: int)
    requires BulkFits(d, dataSize)
    ensures getRc != 0 ==> err == getRc
    ensures getRc == 0 && d.version == IOCTL_VERSION && IsInvalid(d, dataSize) ==> err == -EINVAL
    ensures getRc == 0 && (d.version != IOCTL_VERSION || !IsInvalid(d, dataSize)) ==>
      && (cmd == ClearDebug ==> err == 0)
      && (cmd == MarkDebug ==> (err == 0 <==> d.version == IOCTL_VERSION && d.inllen1 != 0))
      && (cmd.Other? ==> err == DispatchFrom(handlers, handle, copyOk, 0))
  {
    if getRc != 0 {
      return getRc;
    }
    var data: Option<IoctlData> := None;
    if d.version == IOCTL_VERSION {
      var adjusted := DataAdjust(d, dataSize);
      if adjusted.0 != 0 {
        return adjusted.0;
      }
      data := Some(adjusted.1);
    }
    match cmd {
      case ClearDebug =>
        err := 0;
      case MarkDebug =>
        if data.None? || data.value.inlbuf1.None? {
          return -EINVAL;
        }
        var a := data.value;
        AdjustedBuffersTerminated(d, dataSize);
        IsInvalidIff(d, dataSize);
        if a.bulk[a.inlbuf1.value + a.inllen1 - 1] != 0 {
          return -EINVAL;
        }
        err := 0;
      case Other(_) =>
        err := Dispatch(handlers, handle, copyOk);
    }
  }

  /** EACCES: the caller lacks the administrator capability. */
  const EACCES: int := 13

  /**
   * libcfs_psdev_ioctl: only an administrator (`capable`) may issue an
   * ioctl, and only one of libcfs's type with a number in its range
   * (`inRange`); the rest is libcfs_ioctl.
   */
  method PsdevIoctl(capable: bool, inRange: bool, cmd: Cmd, getRc: int, d: IoctlData, dataSize: nat,
                    handlers: seq<nat>, handle: nat -> int, copyOk: bool)
    returns (err: int)
    requires BulkFits(d, dataSize)
    ensures !capable ==> err == -EACCES
    ensures capable && !inRange ==> err == -EINVAL
    ensures capable && inRange && getRc != 0 ==> err == getRc
    ensures capable && inRange && getRc == 0 && cmd.Other? && (d.version != IOCTL_VERSION || !IsInvalid(d, dataSize)) ==>
      err == DispatchFrom(handlers, handle, copyOk, 0)
  {
    if !capable {
      return -EACCES;
    }
    if !inRange {
      return -EINVAL;
    }
    err := Ioctl(cmd, getRc, d, dataSize, handlers, handle, copyOk);
  }

  // ---------------------------------------------------------------------
  // Debugfs handlers and file operations
  // ---------------------------------------------------------------------

  /**
   * lprocfs_call_handler: `rc` is the handler's result at position `pos`
   * for a request of `len` bytes. An error leaves both alone; a write
   * moves the position past the request; a read reports the handler's
   * count as the length and moves the position by it.
   */
  method CallHandler(write: bool, pos: int, len: nat, rc: int) returns (r: int, pos2: int, len2: int)
    ensures rc < 0 ==> r == rc && pos2 == pos && len2 == len
    ensures rc >= 0 && write ==> r == 0 && pos2 == pos + len && len2 == len
    ensures rc >= 0 && !write ==> r == 0 && pos2 == pos + rc && len2 == rc
  {
    if rc < 0 {
      return rc, pos, len;
    }
    if write {
      pos2, len2 := pos + len, len;
    } else {
      len2 := rc;
      pos2 := pos + rc;
    }
    r := 0;
  }

  /** The three sets of file operations of the debugfs files. */
  datatype Fops = ReadOnly | WriteOnly | ReadWrite

  /** lnet_debugfs_fops_select: by the write bits (0222) and the read bits (0444) of the file's mode. */
  function FopsSelect(mode: bv16): Fops
  {
    if mode & 0x92 == 0 then ReadOnly
    else if mode & 0x124 == 0 then WriteOnly
    else ReadWrite
  }

  /** A file with no read or write permission at all is still given the read-only operations. */
  lemma NoPermissionReadOnly(mode: bv16)
    requires mode & 0x1ff == 0
    ensures FopsSelect(mode) == ReadOnly
  {
    assert mode & 0x92 == (mode & 0x1ff) & 0x92;
  }
}
