/**
 * The address-range map of perf (tools/perf/util/map.c): a `struct map`
 * covers the addresses [start, end) of one mapped object; `struct maps`
 * keeps the maps of a process in a red-black tree ordered by start. This
 * model keeps the tree as its in-order sequence of maps and its descents
 * as binary searches over that sequence, and covers the filename
 * classifiers, the overlap test, insertion, lookup, the splitting of
 * overlapped maps and the objdump address conversions. The per-map address
 * translations map_ip and unmap_ip and the symbol lookup are inputs.
 */
module PerfMap {
  import opened Common

  // ---------------------------------------------------------------------
  // Filename classifiers
  // ---------------------------------------------------------------------

  /** A C string: its characters up to, not including, the terminating NUL. */
  predicate CStr(s: seq<char>)
  {
    '\0' !in s
  }

  /** The character of a C string at `i`, NUL at and past its end. */
  function CharAt(s: seq<char>, i: nat): char
  {
    if i < |s| then s[i] else '\0'
  }

  /** strncmp(a + i, b + i, n) == 0: equal on n characters or up to a common NUL. */
  function StrnEq(a: seq<char>, b: seq<char>, i: nat, n: nat): bool
    decreases n
  {
    if n == 0 then true
    else if CharAt(a, i) != CharAt(b, i) then false
    else if CharAt(a, i) == '\0' then true
    else StrnEq(a, b, i + 1, n - 1)
  }

  /** strncmp with the length of a NUL-free literal is a prefix test. */
  lemma {:induction false} StrnEqPrefix(a: seq<char>, b: seq<char>, i: nat)
    requires CStr(a) && CStr(b) && i <= |a| && i <= |b|
    ensures StrnEq(a, b, i, |b| - i) <==> b[i..] <= a[i..]
    decreases |b| - i
  {
    if i < |b| {
      assert b[i] in b;
      if i < |a| {
        assert a[i..] == [a[i]] + a[i + 1..];
        assert b[i..] == [b[i]] + b[i + 1..];
        if a[i] == b[i] {
          StrnEqPrefix(a, b, i + 1);
        }
      }
    }
  }

  /** strcmp(a, b) == 0 on C strings is equality. */
  lemma StrEq(a: seq<char>, b: seq<char>)
    requires CStr(a) && CStr(b)
    ensures StrnEq(a, b, 0, |b| + 1) <==> a == b
  {
    StrnEqTail(a, b, 0);
  }

  /** Comparing up to and including b's terminating NUL is an equality test. */
  lemma {:induction false} StrnEqTail(a: seq<char>, b: seq<char>, i: nat)
    requires CStr(a) && CStr(b) && i <= |a| && i <= |b|
    ensures StrnEq(a, b, i, |b| - i + 1) <==> a[i..] == b[i..]
    decreases |b| - i
  {
    if i < |b| {
      assert b[i] in b;
      if i < |a| {
        assert a[i..] == [a[i]] + a[i + 1..];
        assert b[i..] == [b[i]] + b[i + 1..];
        if a[i] == b[i] {
          StrnEqTail(a, b, i + 1);
        }
      }
    } else if i < |a| {
      assert a[i] in a;
    }
  }

  /** MAP_HUGETLB of the mmap flags. */
  const MAP_HUGETLB: bv32 := 0x4_0000

  /** is_anon_memory: a huge-page mapping, or one of the names of anonymous memory. */
  function IsAnonMemory(filename: seq<char>, flags: bv32): (r: bool)
    requires CStr(filename)
    ensures r <==> flags & MAP_HUGETLB != 0 || filename == "//anon"
                   || "/dev/zero" <= filename || "/anon_hugepage" <= filename
  {
    StrEq(filename, "//anon");
    StrnEqPrefix(filename, "/dev/zero", 0);
    StrnEqPrefix(filename, "/anon_hugepage", 0);
    flags & MAP_HUGETLB != 0
    || StrnEq(filename, "//anon", 0, 7)
    || StrnEq(filename, "/dev/zero", 0, 9)
    || StrnEq(filename, "/anon_hugepage", 0, 14)
  }

  /** is_no_dso_memory: a stack, a System V shared memory segment or the heap. */
  function IsNoDsoMemory(filename: seq<char>): (r: bool)
    requires CStr(filename)
    ensures r <==> "[stack" <= filename || "/SYSV" <= filename || filename == "[heap]"
  {
    StrnEqPrefix(filename, "[stack", 0);
    StrnEqPrefix(filename, "/SYSV", 0);
    StrEq(filename, "[heap]");
    StrnEq(filename, "[stack", 0, 6)
    || StrnEq(filename, "/SYSV", 0, 5)
    || StrnEq(filename, "[heap]", 0, 7)
  }

  /** is_android_lib: a library of an Android application or of the system. */
  function IsAndroidLib(filename: seq<char>): (r: bool)
    requires CStr(filename)
    ensures r <==> "/data/app-lib" <= filename || "/system/lib" <= filename
  {
    StrnEqPrefix(filename, "/data/app-lib", 0);
    StrnEqPrefix(filename, "/system/lib", 0);
    StrnEq(filename, "/data/app-lib", 0, 13)
    || StrnEq(filename, "/system/lib", 0, 11)
  }

  // ---------------------------------------------------------------------
  // Maps and their overlap
  // ---------------------------------------------------------------------

  /** The fields of struct dso the address conversions read. */
  datatype Dso = Dso(adjustSymbols: bool, rel: bool, kernelUser: bool, textOffset: U64)

  /** struct map: the addresses [start, end), the file offset of start, the relocation and the object. */
  datatype Map = Map(start: U64, end: U64, pgoff: U64, reloc: U64, dso: Dso)

  /** `ip` lies in the map. */
  predicate Contains(m: Map, ip: int)
  {
    m.start <= ip < m.end
  }

  /** A map that covers some address. */
  predicate NonEmpty(m: Map)
  {
    m.start < m.end
  }

  /** map__overlap: with the lower-starting map first, it ends past the other's start. */
  function Overlap(l: Map, r: Map): bool
  {
    if l.start > r.start then r.end > l.start
    else l.end > r.start
  }

  /** Two non-empty maps overlap exactly when some address lies in both, whichever is given first. */
  lemma OverlapIff(a: Map, b: Map)
    requires NonEmpty(a) && NonEmpty(b)
    ensures Overlap(a, b) <==> a.start < b.end && b.start < a.end
    ensures Overlap(a, b) <==> Overlap(b, a)
    ensures Overlap(a, b) ==> Contains(a, if a.start > b.start then a.start else b.start)
                              && Contains(b, if a.start > b.start then a.start else b.start)
  {
  }

  /** Maps that only touch do not overlap. */
  lemma TouchingDoNotOverlap(a: Map, b: Map)
    requires NonEmpty(a) && NonEmpty(b) && a.end == b.start
    ensures !Overlap(a, b) && !Overlap(b, a)
  {
  }

  /** For an empty map the test is not symmetric: the order of the arguments decides ties of start. */
  lemma EmptyMapsBreakSymmetry()
    ensures var d := Dso(false, false, false, 0);
      Overlap(Map(5, 10, 0, 0, d), Map(5, 5, 0, 0, d)) && !Overlap(Map(5, 5, 0, 0, d), Map(5, 10, 0, 0, d))
  {
  }

  // ---------------------------------------------------------------------
  // The tree of maps
  // ---------------------------------------------------------------------

  /** In order of start, as the tree's in-order walk visits them. */
  ghost predicate Sorted(s: seq<Map>)
  {
    forall i, j :: 0 <= i < j < |s| ==> s[i].start <= s[j].start
  }

  /** Non-empty maps in order, each ending before the next begins. */
  ghost predicate Disjoint(s: seq<Map>)
  {
    && (forall i :: 0 <= i < |s| ==> NonEmpty(s[i]))
    && (forall i, j :: 0 <= i < j < |s| ==> s[i].end <= s[j].start)
  }

  /** The number of maps starting at or below `ip`. */
  function CountAtMost(s: seq<Map>, ip: int): (n: nat)
    ensures n <= |s|
  {
    if |s| == 0 then 0
    else (if s[0].start <= ip then 1 else 0) + CountAtMost(s[1..], ip)
  }

  /** In a sorted sequence the maps starting at or below `ip` are exactly the first CountAtMost of them. */
  lemma {:induction false} CountAtMostSplit(s: seq<Map>, ip: int, p: nat)
    requires p <= |s|
    requires forall j :: 0 <= j < p ==> s[j].start <= ip
    requires forall j :: p <= j < |s| ==> ip < s[j].start
    ensures CountAtMost(s, ip) == p
  {
    if |s| > 0 {
      if p > 0 {
        CountAtMostSplit(s[1..], ip, p - 1);
      } else {
        CountAtMostSplit(s[1..], ip, 0);
      }
    }
  }

  /** A removal keeps the order. */
  lemma RemoveFirstSorted(s: seq<Map>, x: Map)
    requires Sorted(s) && x in s
    ensures Sorted(RemoveFirst(s, x))
    ensures multiset(RemoveFirst(s, x)) == multiset(s) - multiset{x}
  {
    var i := RemoveFirstPresent(s, x);
    var r := s[..i] + s[i + 1..];
    forall a | 0 <= a < |r|
      ensures r[a] == s[if a < i then a else a + 1]
    {
    }
    forall a, b | 0 <= a < b < |r|
      ensures r[a].start <= r[b].start
    {
      var a', b' := (if a < i then a else a + 1), (if b < i then b else b + 1);
      assert r[a] == s[a'] && r[b] == s[b'] && a' < b';
    }
    assert Sorted(r);
  }

  /** Placing a map after those starting at or below it, and before the others, keeps the order. */
  lemma InsertAtSorted(s: seq<Map>, m: Map, p: nat)
    requires Sorted(s) && p <= |s|
    requires forall j :: 0 <= j < p ==> s[j].start <= m.start
    requires forall j :: p <= j < |s| ==> m.start < s[j].start
    ensures Sorted(s[..p] + [m] + s[p..])
    ensures multiset(s[..p] + [m] + s[p..]) == multiset(s) + multiset{m}
  {
    var r := s[..p] + [m] + s[p..];
    assert s == s[..p] + s[p..];
    forall a | 0 <= a < |r|
      ensures r[a] == if a < p then s[a] else if a == p then m else s[a - 1]
    {
    }
    forall a, b | 0 <= a < b < |r|
      ensures r[a].start <= r[b].start
    {
      assert r[a] == if a < p then s[a] else if a == p then m else s[a - 1];
      assert r[b] == if b < p then s[b] else if b == p then m else s[b - 1];
    }
  }

  /** In a sorted sequence the maps starting at or below `ip` come first. */
  lemma {:induction false} CountAtMostSorted(s: seq<Map>, ip: int)
    requires Sorted(s)
    ensures forall j :: 0 <= j < CountAtMost(s, ip) ==> s[j].start <= ip
    ensures forall j :: CountAtMost(s, ip) <= j < |s| ==> ip < s[j].start
  {
    if |s| > 0 {
      var t := s[1..];
      assert Sorted(t) by {
        forall a, b | 0 <= a < b < |t|
          ensures t[a].start <= t[b].start
        {
          assert t[a] == s[a + 1] && t[b] == s[b + 1];
        }
      }
      CountAtMostSorted(t, ip);
      forall j | 1 <= j < |s|
        ensures s[j] == t[j - 1]
      {
      }
      assert CountAtMost(t, ip) > 0 ==> s[0].start <= t[0].start <= ip;
    }
  }

  /** Where __maps__insert puts `m`: after the maps starting at or below it, before the others. */
  function Placed(s: seq<Map>, m: Map): seq<Map>
  {
    var p := CountAtMost(s, m.start);
    s[..p] + [m] + s[p..]
  }

  /** Maps inserted one after the other. */
  function PlaceAll(s: seq<Map>, ps: seq<Map>): seq<Map>
    decreases |ps|
  {
    if |ps| == 0 then s else PlaceAll(Placed(s, ps[0]), ps[1..])
  }

  /** Insertions keep the order and add exactly the inserted maps. */
  lemma {:induction false} PlaceAllSorted(s: seq<Map>, ps: seq<Map>)
    requires Sorted(s)
    ensures Sorted(PlaceAll(s, ps))
    ensures multiset(PlaceAll(s, ps)) == multiset(s) + multiset(ps)
    decreases |ps|
  {
    if |ps| > 0 {
      CountAtMostSorted(s, ps[0].start);
      InsertAtSorted(s, ps[0], CountAtMost(s, ps[0].start));
      PlaceAllSorted(Placed(s, ps[0]), ps[1..]);
      assert ps == [ps[0]] + ps[1..];
    }
  }

  /** struct maps: the tree of a process's maps, kept as its in-order sequence. */
  class Maps {
    var entries: seq<Map>

    ghost predicate Valid()
      reads this
    {
      Sorted(entries)
    }

    constructor ()
      ensures Valid() && entries == []
    {
      entries := [];
    }

    /**
     * __maps__insert: the descent goes left below a map starting after the
     * new one and right otherwise, so the new map lands after every map
     * starting at or below it (ties to the right) and the order is kept.
     */
    method Insert(m: Map)
      requires Valid()
      modifies this
      ensures Valid()
      ensures entries == Placed(old(entries), m)
      ensures multiset(entries) == multiset(old(entries)) + multiset{m}
    {
      var lo, hi := 0, |entries|;
      while lo < hi
        invariant 0 <= lo <= hi <= |entries|
        invariant forall j :: 0 <= j < lo ==> entries[j].start <= m.start
        invariant forall j :: hi <= j < |entries| ==> m.start < entries[j].start
        decreases hi - lo
      {
        var mid := (lo + hi) / 2;
        if m.start < entries[mid].start {
          hi := mid;
        } else {
          lo := mid + 1;
        }
      }
      CountAtMostSplit(entries, m.start, lo);
      InsertAtSorted(entries, m, lo);
      entries := entries[..lo] + [m] + entries[lo..];
    }

    /**
     * maps__find: the descent goes left below a map's start, right at or
     * past its end, and stops on a map holding `ip`. When the maps are
     * disjoint, no map is found only when none holds `ip`.
     */
    method Find(ip: U64) returns (r: Option<Map>)
      ensures r.Some? ==> r.value in entries && Contains(r.value, ip)
      ensures r.None? && Disjoint(entries) ==> forall j :: 0 <= j < |entries| ==> !Contains(entries[j], ip)
    {
      var lo, hi := 0, |entries|;
      while lo < hi
        invariant 0 <= lo <= hi <= |entries|
        invariant Disjoint(entries) ==>
          forall j :: 0 <= j < |entries| && !(lo <= j < hi) ==> !Contains(entries[j], ip)
        decreases hi - lo
      {
        var mid := (lo + hi) / 2;
        var m := entries[mid];
        if ip < m.start {
          hi := mid;
        } else if ip >= m.end {
          lo := mid + 1;
        } else {
          return Some(m);
        }
      }
      r := None;
    }

    /**
     * maps__fixup_overlappings: every map of the tree overlapping the new
     * map `m` is replaced by its parts outside `m`; a failed clone
     * (`cloneOk` of the attempt's number) ends the walk with -ENOMEM. The
     * pieces it inserts never overlap `m`, so the walk, which goes on to
     * the tree's next map, passes over them as if it only visited the maps
     * the tree held at the start. On success no map overlaps `m`.
     */
    method Fixup(m: Map, cloneOk: nat -> bool) returns (err: int)
      requires Valid() && NonEmpty(m)
      modifies this
      ensures Valid()
      ensures var w := Walk(old(entries), 0, m, cloneOk, 0);
        err == w.err && multiset(entries) == multiset(w.kept)
      ensures err == 0 ==> forall e | e in entries :: !Overlap(e, m)
    {
      var snap := entries;
      var cur := entries;
      var i, k := 0, 0;
      ghost var done: seq<Map> := [];
      ghost var w0 := Walk(snap, 0, m, cloneOk, 0);
      while i < |snap|
        invariant Sorted(cur) && 0 <= i <= |snap|
        invariant multiset(cur) == multiset(done) + multiset(snap[i..])
        invariant w0.err == Walk(snap, i, m, cloneOk, k).err
        invariant w0.kept == done + Walk(snap, i, m, cloneOk, k).kept
      {
        var e := snap[i];
        var st := Split(e, m, cloneOk, k);
        WalkStep(snap, i, m, cloneOk, k);
        FixupStep(cur, snap, i, done, m, cloneOk, k);
        if Overlap(e, m) {
          cur := Replaced(cur, e, st.pieces);
        }
        if st.fail {
          ConcatAssoc(done, st.pieces, snap[i + 1..]);
          entries := cur;
          return -ENOMEM;
        }
        ConcatAssoc(done, st.pieces, Walk(snap, i + 1, m, cloneOk, st.attempts).kept);
        done := done + st.pieces;
        i, k := i + 1, st.attempts;
      }
      entries := cur;
      err := 0;
      assert snap[i..] == [];
      WalkNoOverlap(snap, 0, m, cloneOk, 0);
      SameMapsNoOverlap(entries, done, m);
    }
  }

  /**
   * The tree after an overlapped map `e` leaves it (rb_erase_init) and the
   * clones made of it go in, each by __maps__insert.
   */
  function Replaced(s: seq<Map>, e: Map, ps: seq<Map>): (r: seq<Map>)
    requires Sorted(s) && e in s
    ensures Sorted(r)
    ensures multiset(r) == multiset(s) - multiset{e} + multiset(ps)
  {
    RemoveFirstSorted(s, e);
    PlaceAllSorted(RemoveFirst(s, e), ps);
    PlaceAll(RemoveFirst(s, e), ps)
  }

  /**
   * One round of the walk on the tree: the tree `cur` holding the maps
   * done and those still to visit becomes, after the map at `i` is
   * replaced by its pieces (when it overlaps `m`), a tree holding the maps
   * done with those pieces and the maps after `i`.
   */
  lemma FixupStep(cur: seq<Map>, snap: seq<Map>, i: nat, done: seq<Map>, m: Map, cloneOk: nat -> bool, k: nat)
    requires Sorted(cur) && i < |snap|
    requires multiset(cur) == multiset(done) + multiset(snap[i..])
    ensures var st := Split(snap[i], m, cloneOk, k);
      && (Overlap(snap[i], m) ==>
            snap[i] in cur
            && multiset(Replaced(cur, snap[i], st.pieces)) == multiset(done + st.pieces) + multiset(snap[i + 1..]))
      && (!Overlap(snap[i], m) ==> multiset(cur) == multiset(done + st.pieces) + multiset(snap[i + 1..]))
  {
    var st := Split(snap[i], m, cloneOk, k);
    MultisetStep(snap, i, done, st.pieces);
    assert snap[i] in multiset(cur);
    if !Overlap(snap[i], m) {
      assert st.pieces == [snap[i]];
      assert snap[i..] == [snap[i]] + snap[i + 1..];
    }
  }

  /** The walk from `i` is the step at `i`, then, unless a clone failed, the walk from `i + 1`. */
  lemma WalkStep(snap: seq<Map>, i: nat, m: Map, cloneOk: nat -> bool, k: nat)
    requires i < |snap|
    ensures var st := Split(snap[i], m, cloneOk, k);
      var w := Walk(snap, i, m, cloneOk, k);
      && (st.fail ==> w == WalkResult(-ENOMEM, st.pieces + snap[i + 1..]))
      && (!st.fail ==> w == WalkResult(Walk(snap, i + 1, m, cloneOk, st.attempts).err,
                                       st.pieces + Walk(snap, i + 1, m, cloneOk, st.attempts).kept))
  {
  }

  /** Taking the map at `i` out of what remains and adding its pieces to what is done. */
  lemma MultisetStep(snap: seq<Map>, i: nat, done: seq<Map>, ps: seq<Map>)
    requires i < |snap|
    ensures multiset(done) + multiset(snap[i..]) - multiset{snap[i]} + multiset(ps)
         == multiset(done + ps) + multiset(snap[i + 1..])
    ensures snap[i] in multiset(snap[i..])
  {
    assert snap[i..] == [snap[i]] + snap[i + 1..];
  }

  /** Two sequences with the same maps: when none of one overlaps `m`, none of the other does. */
  lemma SameMapsNoOverlap(a: seq<Map>, b: seq<Map>, m: Map)
    requires multiset(a) == multiset(b) && forall e | e in b :: !Overlap(e, m)
    ensures forall e | e in a :: !Overlap(e, m)
  {
    forall e | e in a
      ensures !Overlap(e, m)
    {
      assert e in multiset(a);
    }
  }

  /**
   * The piece of `e` above `m` as maps__fixup_overlappings makes it: a
   * clone of `e` (map__clone copies every field) whose start is moved to
   * m's end, so it keeps e's file offset. After below is the piece with
   * its file offset moved along.
   */
  function AfterAsWritten(e: Map, m: Map): (a: Map)
    ensures a.start == m.end && a.end == e.end && a.pgoff == e.pgoff
  {
    e.(start := m.end)
  }

  /** The piece of `e` above `m`, with its file offset advanced by the distance from e's start. */
  function After(e: Map, m: Map): (a: Map)
    ensures a.start == m.end && a.end == e.end && a.dso == e.dso && a.reloc == e.reloc
  {
    e.(start := m.end, pgoff := Add64(e.pgoff, Sub64(m.end, e.start)))
  }

  /** What a step of the walk did: whether a clone failed, the maps it leaves in the tree and the clone attempts used. */
  datatype SplitResult = SplitResult(fail: bool, pieces: seq<Map>, attempts: nat)

  /**
   * One entry of maps__fixup_overlappings, with `upper` the piece above `m`:
   * a map not overlapping `m` stays as it is; an overlapped one is erased
   * and, where m starts above it, a clone ending at m's start is inserted,
   * then, where m ends below it, the upper piece. Each clone is an attempt
   * that `cloneOk` may fail, which stops the step with the pieces made so
   * far.
   */
  function SplitWith(e: Map, m: Map, upper: Map, cloneOk: nat -> bool, k: nat): (r: SplitResult)
    ensures !Overlap(e, m) ==> r == SplitResult(false, [e], k)
  {
    if !Overlap(e, m) then SplitResult(false, [e], k)
    else
      var lo := Piece(m.start > e.start, e.(end := m.start), cloneOk, k);
      if lo.fail then lo
      else
        var up := Piece(m.end < e.end, upper, cloneOk, lo.attempts);
        SplitResult(up.fail, lo.pieces + up.pieces, up.attempts)
  }

  /** Every piece of a step is `e` itself, its part below `m`, or the upper piece. */
  lemma SplitWithPieces(e: Map, m: Map, upper: Map, cloneOk: nat -> bool, k: nat)
    ensures forall p | p in SplitWith(e, m, upper, cloneOk, k).pieces :: p == e || p == e.(end := m.start) || p == upper
  {
  }

  /** The step as map.c makes it, with the upper piece of AfterAsWritten. */
  function Split(e: Map, m: Map, cloneOk: nat -> bool, k: nat): SplitResult
  {
    SplitWith(e, m, AfterAsWritten(e, m), cloneOk, k)
  }

  /**
   * Every piece of the step as written is a copy of `e` with its ends
   * moved, so each keeps e's object, relocation and file offset.
   */
  lemma SplitKeepsOffsets(e: Map, m: Map, cloneOk: nat -> bool, k: nat)
    ensures forall p | p in Split(e, m, cloneOk, k).pieces :: p.pgoff == e.pgoff && p.dso == e.dso && p.reloc == e.reloc
  {
    SplitWithPieces(e, m, AfterAsWritten(e, m), cloneOk, k);
  }

  /** The step with the upper piece of After, whose file offset is moved along. */
  function SplitFixed(e: Map, m: Map, cloneOk: nat -> bool, k: nat): SplitResult
  {
    SplitWith(e, m, After(e, m), cloneOk, k)
  }

  /** An overlapped map is split into its lower piece, then, unless that clone failed, its upper piece. */
  lemma SplitOverlapping(e: Map, m: Map, cloneOk: nat -> bool, k: nat)
    requires Overlap(e, m)
    ensures var lo := Piece(m.start > e.start, e.(end := m.start), cloneOk, k);
      var up := Piece(m.end < e.end, AfterAsWritten(e, m), cloneOk, lo.attempts);
      && (lo.fail ==> Split(e, m, cloneOk, k) == lo)
      && (!lo.fail ==> Split(e, m, cloneOk, k) == SplitResult(up.fail, lo.pieces + up.pieces, up.attempts))
  {
  }

  /** One clone of Split: nothing when it is not `wanted`, else the attempt numbered `k` failing or giving `p`. */
  function Piece(wanted: bool, p: Map, cloneOk: nat -> bool, k: nat): (r: SplitResult)
  {
    if !wanted then SplitResult(false, [], k)
    else if cloneOk(k) then SplitResult(false, [p], k + 1)
    else SplitResult(true, [], k + 1)
  }

  /**
   * A completed step, whatever its upper piece from m's end to e's end,
   * leaves exactly the addresses of `e` outside `m`, none of its pieces
   * overlaps `m`, and the addresses below `m` translate as `e` did them,
   * those above as `upper` does.
   */
  lemma SplitWithCovers(e: Map, m: Map, upper: Map, cloneOk: nat -> bool, k: nat)
    requires NonEmpty(m) && NonEmpty(e) && Overlap(e, m) && !SplitWith(e, m, upper, cloneOk, k).fail
    requires upper.start == m.end && upper.end == e.end
    ensures var ps := SplitWith(e, m, upper, cloneOk, k).pieces;
      && (forall x :: (exists p | p in ps :: Contains(p, x)) <==> Contains(e, x) && !Contains(m, x))
      && (forall p | p in ps :: !Overlap(p, m) && NonEmpty(p))
      && (forall p, x | p in ps && Contains(p, x) :: MapIp(p, x) == if x < m.start then MapIp(e, x) else MapIp(upper, x))
  {
    var ps := SplitWith(e, m, upper, cloneOk, k).pieces;
    var lower := e.(end := m.start);
    assert ps == (if m.start > e.start then [lower] else []) + (if m.end < e.end then [upper] else []);
    forall p | p in ps
      ensures (p == lower && m.start > e.start) || (p == upper && m.end < e.end)
    {
    }
    forall x
      ensures (exists p | p in ps :: Contains(p, x)) <==> Contains(e, x) && !Contains(m, x)
    {
      if Contains(e, x) && !Contains(m, x) {
        if x < m.start {
          assert lower in ps && Contains(lower, x);
        } else {
          assert upper in ps && Contains(upper, x);
        }
      }
    }
    forall p, x | p in ps && Contains(p, x)
      ensures MapIp(p, x) == if x < m.start then MapIp(e, x) else MapIp(upper, x)
    {
    }
  }

  /**
   * The step as map.c makes it leaves exactly the addresses of `e` outside
   * `m`, in pieces clear of `m`; the addresses below `m` keep their file
   * offsets, but each address `x` above `m` gets the file offset `e` gave
   * the address m.end - e.start below it.
   */
  lemma SplitCovers(e: Map, m: Map, cloneOk: nat -> bool, k: nat)
    requires NonEmpty(m) && NonEmpty(e) && Overlap(e, m) && !Split(e, m, cloneOk, k).fail
    ensures var ps := Split(e, m, cloneOk, k).pieces;
      && (forall x :: (exists p | p in ps :: Contains(p, x)) <==> Contains(e, x) && !Contains(m, x))
      && (forall p | p in ps :: !Overlap(p, m) && NonEmpty(p))
      && (forall p, x | p in ps && Contains(p, x) && x < m.start :: MapIp(p, x) == MapIp(e, x))
      && (forall p, x | p in ps && Contains(p, x) && x >= m.end ::
            MapIp(p, x) == MapIp(e, x - (m.end - e.start)))
  {
    SplitWithCovers(e, m, AfterAsWritten(e, m), cloneOk, k);
    var ps := Split(e, m, cloneOk, k).pieces;
    forall p, x | p in ps && Contains(p, x) && x >= m.end
      ensures MapIp(p, x) == MapIp(e, x - (m.end - e.start))
    {
      AfterAsWrittenTranslates(e, m, x);
    }
  }

  /** With the corrected upper piece every piece translates each of its addresses to the file offset `e` gave it. */
  lemma SplitFixedCovers(e: Map, m: Map, cloneOk: nat -> bool, k: nat)
    requires NonEmpty(m) && NonEmpty(e) && Overlap(e, m) && !SplitFixed(e, m, cloneOk, k).fail
    ensures var ps := SplitFixed(e, m, cloneOk, k).pieces;
      && (forall x :: (exists p | p in ps :: Contains(p, x)) <==> Contains(e, x) && !Contains(m, x))
      && (forall p | p in ps :: !Overlap(p, m) && NonEmpty(p))
      && (forall p, x | p in ps && Contains(p, x) :: MapIp(p, x) == MapIp(e, x))
  {
    SplitWithCovers(e, m, After(e, m), cloneOk, k);
    var ps := SplitFixed(e, m, cloneOk, k).pieces;
    forall p, x | p in ps && Contains(p, x)
      ensures MapIp(p, x) == MapIp(e, x)
    {
      if x >= m.start {
        AfterTranslates(e, m, x);
      }
    }
  }

  /** The upper piece as written translates `x` as `e` translates the address m.end - e.start below it. */
  lemma AfterAsWrittenTranslates(e: Map, m: Map, x: U64)
    requires e.start <= m.end <= x < e.end
    ensures MapIp(AfterAsWritten(e, m), x) == MapIp(e, x - (m.end - e.start))
  {
  }

  /** The advanced file offset keeps the translation of every address of the upper piece. */
  lemma AfterTranslates(e: Map, m: Map, x: U64)
    requires e.start <= m.end <= x < e.end
    ensures MapIp(After(e, m), x) == MapIp(e, x)
  {
  }

  /** The upper piece as the source makes it translates the addresses of a split map differently. */
  lemma AfterAsWrittenShifts()
    ensures var d := Dso(false, false, false, 0);
      var e := Map(0x1000, 0x3000, 0, 0, d);
      var m := Map(0x1000, 0x2000, 0, 0, d);
      MapIp(AfterAsWritten(e, m), 0x2000) == 0 && MapIp(e, 0x2000) == 0x1000
  {
  }

  /** What the walk leaves: its result and the maps then in the tree, in no particular order. */
  datatype WalkResult = WalkResult(err: int, kept: seq<Map>)

  /** The walk of maps__fixup_overlappings over the maps `s` from position `i`, clone attempts numbered from `k`. */
  function Walk(s: seq<Map>, i: nat, m: Map, cloneOk: nat -> bool, k: nat): (w: WalkResult)
    requires i <= |s|
    ensures w.err == 0 || w.err == -ENOMEM
    decreases |s| - i
  {
    if i == |s| then WalkResult(0, [])
    else
      var st := Split(s[i], m, cloneOk, k);
      if st.fail then WalkResult(-ENOMEM, st.pieces + s[i + 1..])
      else
        var w := Walk(s, i + 1, m, cloneOk, st.attempts);
        WalkResult(w.err, st.pieces + w.kept)
  }

  /** After a walk that succeeded, nothing left in the tree overlaps the new map. */
  lemma {:induction false} WalkNoOverlap(s: seq<Map>, i: nat, m: Map, cloneOk: nat -> bool, k: nat)
    requires NonEmpty(m) && i <= |s|
    requires Walk(s, i, m, cloneOk, k).err == 0
    ensures forall e | e in Walk(s, i, m, cloneOk, k).kept :: !Overlap(e, m)
    decreases |s| - i
  {
    if i < |s| {
      var st := Split(s[i], m, cloneOk, k);
      WalkNoOverlap(s, i + 1, m, cloneOk, st.attempts);
      forall p | p in st.pieces
        ensures !Overlap(p, m)
      {
      }
    }
  }

  /** When every clone succeeds the walk succeeds. */
  lemma {:induction false} WalkSucceeds(s: seq<Map>, i: nat, m: Map, cloneOk: nat -> bool, k: nat)
    requires i <= |s|
    requires forall j :: cloneOk(j)
    ensures Walk(s, i, m, cloneOk, k).err == 0
    decreases |s| - i
  {
    if i < |s| {
      WalkSucceeds(s, i + 1, m, cloneOk, Split(s[i], m, cloneOk, k).attempts);
    }
  }

  // ---------------------------------------------------------------------
  // Address conversions
  // ---------------------------------------------------------------------

  /** 64-bit unsigned addition and subtraction, wrapping. */
  function Add64(a: U64, b: U64): (r: U64)
  {
    if a + b < U64_LIMIT then a + b else a + b - U64_LIMIT
  }

  function Sub64(a: U64, b: U64): (r: U64)
  {
    if a >= b then a - b else a - b + U64_LIMIT
  }

  /** Subtraction undoes addition and the other way round, with wrap-around. */
  lemma Add64Sub64(a: U64, b: U64)
    ensures Sub64(Add64(a, b), b) == a && Add64(Sub64(a, b), b) == a
  {
  }

  /**
   * map__map_ip of the header map.h, which is not part of this model: the
   * file-relative address of `ip` for a map of a file, ip - start + pgoff.
   * It is used only to state what the pieces of a split map must keep.
   */
  function MapIp(m: Map, ip: U64): U64
  {
    Add64(Sub64(ip, m.start), m.pgoff)
  }

  /**
   * map__rip_2objdump: the address objdump reports for the map-relative
   * address `rip`, by how the object's symbols are adjusted.
   */
  function Rip2Objdump(m: Map, unmapIp: U64 -> U64, rip: U64): U64
  {
    if !m.dso.adjustSymbols then rip
    else if m.dso.rel then Sub64(rip, m.pgoff)
    else if m.dso.kernelUser then Add64(rip, m.dso.textOffset)
    else Sub64(unmapIp(rip), m.reloc)
  }

  /** map__objdump_2mem: the memory address of the objdump address `ip`. */
  function Objdump2Mem(m: Map, unmapIp: U64 -> U64, ip: U64): U64
  {
    if !m.dso.adjustSymbols then unmapIp(ip)
    else if m.dso.rel then unmapIp(Add64(ip, m.pgoff))
    else if m.dso.kernelUser then unmapIp(Sub64(ip, m.dso.textOffset))
    else Add64(ip, m.reloc)
  }

  /**
   * The forward check the source recommends holds in all four cases: an
   * objdump address taken to memory, to the map and back to objdump is
   * itself, when map_ip and unmap_ip are inverse of each other.
   */
  lemma ObjdumpRoundTrip(m: Map, mapIp: U64 -> U64, unmapIp: U64 -> U64, ip: U64)
    requires forall x :: mapIp(unmapIp(x)) == x && unmapIp(mapIp(x)) == x
    ensures Rip2Objdump(m, unmapIp, mapIp(Objdump2Mem(m, unmapIp, ip))) == ip
  {
    Add64Sub64(ip, m.pgoff);
    Add64Sub64(ip, m.dso.textOffset);
    Add64Sub64(ip, m.reloc);
  }

  /** struct addr_map_symbol: an address, the map it was sampled in (None for NULL) and what the lookup found. */
  datatype Ams = Ams(addr: U64, sampled: Option<Map>, alAddr: U64, hasSym: bool)

  /**
   * map_groups__find_ams: an address outside its map is looked up again
   * in the map's groups (`groups`, null when it has none), failing with -1
   * when there are none or no map holds it; then the address is taken into
   * the map by `mapIp` and its symbol looked up by `findSym`, the result
   * being 0 exactly when a symbol is found.
   */
  method FindAms(ams: Ams, groups: Maps?, mapIp: (Map, U64) -> U64, findSym: (Map, U64) -> bool)
    returns (rc: int, r: Ams)
    requires ams.sampled.Some?
    ensures r.addr == ams.addr
    ensures Contains(ams.sampled.value, ams.addr) ==>
      && r == ams.(alAddr := mapIp(ams.sampled.value, ams.addr), hasSym := findSym(ams.sampled.value, mapIp(ams.sampled.value, ams.addr)))
      && (rc == 0 <==> r.hasSym)
    ensures !Contains(ams.sampled.value, ams.addr) && groups == null ==> rc == -1 && r == ams
    ensures !Contains(ams.sampled.value, ams.addr) && groups != null ==>
      && (r.sampled.None? ==>
            && rc == -1 && r == ams.(sampled := None)
            && (Disjoint(groups.entries) ==> forall j :: 0 <= j < |groups.entries| ==> !Contains(groups.entries[j], ams.addr)))
      && (r.sampled.Some? ==>
            && r.sampled.value in groups.entries && Contains(r.sampled.value, ams.addr)
            && r == ams.(sampled := r.sampled, alAddr := mapIp(r.sampled.value, ams.addr),
                         hasSym := findSym(r.sampled.value, mapIp(r.sampled.value, ams.addr)))
            && (rc == 0 <==> r.hasSym))
  {
    var mp := ams.sampled.value;
    if ams.addr < mp.start || ams.addr >= mp.end {
      if groups == null {
        return -1, ams;
      }
      var found := groups.Find(ams.addr);
      if found.None? {
        return -1, ams.(sampled := None);
      }
      mp := found.value;
    }
    var al := mapIp(mp, ams.addr);
    r := Ams(ams.addr, Some(mp), al, findSym(mp, al));
    rc := if r.hasSym then 0 else -1;
  }
}
