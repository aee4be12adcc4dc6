/**
 * The page-cache dump of the Lustre llite layer
 * (drivers/staging/lustre/lustre/llite/vvp_dev.c): a position in the dump is
 * one 64-bit offset packing a hash bucket of the object cache (28 bits), the
 * depth of an object in that bucket's chain (4 bits) and a page index (32
 * bits). The search for the next page walks the objects in (bucket, depth)
 * order. The hash table and the page-cache lookups are oracles.
 */
module Vvp {
  import opened Common

  /** 2^PGC_DEPTH_SHIFT and 2^PGC_OBJ_SHIFT: the weights of the depth and bucket fields. */
  const DEPTH_UNIT: nat := 0x1_0000_0000
  const OBJ_UNIT: nat := 0x10_0000_0000
  /** The buckets a position can hold: 2^(64 - PGC_OBJ_SHIFT). */
  const BUCKET_LIMIT: nat := 0x1000_0000

  /** struct vvp_pgcache_id without its scratch fields: three unsigned 32-bit fields. */
  datatype PgcacheId = PgcacheId(bucket: nat, depth: nat, index: nat)

  /** The fields hold 32-bit values. */
  predicate Fits(id: PgcacheId)
  {
    id.bucket < U32_LIMIT && id.depth < U32_LIMIT && id.index < U32_LIMIT
  }

  /** vvp_pgcache_id_unpack of a 64-bit position: its low 32 bits, the next 4 bits and the 28 bits above. */
  function Unpack(pos: nat): (id: PgcacheId)
    requires pos < U64_LIMIT
    ensures Fits(id) && id.depth < 16 && id.bucket < BUCKET_LIMIT
  {
    PgcacheId(pos / OBJ_UNIT, (pos / DEPTH_UNIT) % 16, pos % DEPTH_UNIT)
  }

  /**
   * vvp_pgcache_id_pack for a depth below 16 (the only depths unpack and the
   * walk produce): the fields then occupy disjoint bits, so the or of the
   * shifted fields is their sum, and the bits of the bucket shifted past
   * bit 63 are lost.
   */
  function Pack(id: PgcacheId): (pos: nat)
    requires Fits(id) && id.depth < 16
    ensures pos < U64_LIMIT
  {
    id.index + id.depth * DEPTH_UNIT + (id.bucket % BUCKET_LIMIT) * OBJ_UNIT
  }

  /** Every position is the packing of its unpacking. */
  lemma PackUnpack(pos: nat)
    requires pos < U64_LIMIT
    ensures Pack(Unpack(pos)) == pos
  {
    var q := pos / DEPTH_UNIT;
    assert pos == q * DEPTH_UNIT + pos % DEPTH_UNIT;
    assert q == (q / 16) * 16 + q % 16;
    assert pos / OBJ_UNIT == q / 16;
  }

  /** Unpacking a packed identifier gives it back exactly when its bucket fits the 28 bucket bits. */
  lemma UnpackPack(id: PgcacheId)
    requires Fits(id) && id.depth < 16
    ensures Unpack(Pack(id)) == id <==> id.bucket < BUCKET_LIMIT
  {
    var b := id.bucket % BUCKET_LIMIT;
    var pos := Pack(id);
    var q := b * 16 + id.depth;
    assert pos == q * DEPTH_UNIT + id.index;
    assert pos / DEPTH_UNIT == q;
    assert pos % DEPTH_UNIT == id.index;
    assert q / 16 == b && q % 16 == id.depth;
    assert pos / OBJ_UNIT == b;
  }

  /** The place of an object in the walk order: buckets in order, depths in order within a bucket. */
  function Key(id: PgcacheId): int
  {
    id.bucket * 16 + id.depth
  }

  /** One more than the largest key the walk can hold. */
  const KEY_LIMIT: int := U32_LIMIT * 16

  /**
   * The advance step of vvp_pgcache_find: the next depth modulo 16 and, when
   * it wraps, the next bucket; the page index restarts at 0. None when the
   * 32-bit bucket counter wraps, which ends the walk.
   */
  function Advance(id: PgcacheId): (r: Option<PgcacheId>)
    requires Fits(id) && id.depth < 16
    ensures r.None? <==> id.depth == 15 && id.bucket == U32_LIMIT - 1
    ensures r.Some? ==> Fits(r.value) && Key(r.value) == Key(id) + 1 && r.value.depth < 16 && r.value.index == 0
  {
    var depth := (id.depth + 1) % 16;
    var bucket := if depth == 0 then (id.bucket + 1) % U32_LIMIT else id.bucket;
    if depth == 0 && bucket == 0 then None
    else Some(PgcacheId(bucket, depth, 0))
  }

  /**
   * What vvp_pgcache_obj finds at a (bucket, depth): a live object of this
   * device, nothing, or nothing with its depth counter left above 0, after
   * which it moves the depth to the last one so that the walk goes on with
   * the next bucket. The counter is left above 0 by a chain shorter than the
   * depth, and also by a dying object at the depth: the test
   * `vpi_curdep-- > 0` that fails at that object wraps the unsigned counter
   * (ObjAsWritten below).
   */
  datatype ObjLookup = Object | NoObject | ChainEnded

  /**
   * The walk of vvp_pgcache_find from `id` as a function: `nhlist` is the
   * number of hash chains, `obj` the object lookup and `page` the index of
   * the page find_get_pages_contig returns for an object from a page index,
   * if any. The result is the identifier of the page found, None at the end.
   */
  function FindFrom(id: PgcacheId, nhlist: nat, obj: PgcacheId -> ObjLookup, page: PgcacheId -> Option<nat>): Option<PgcacheId>
    requires Fits(id) && id.depth < 16
    decreases KEY_LIMIT - Key(id)
  {
    if id.bucket >= nhlist then None
    else
      var look := obj(id);
      var hit := if look == Object then page(id) else None;
      if hit.Some? && hit.value <= 0xffff_ffff then Some(id.(index := hit.value))
      else
        var next := Advance(if look == ChainEnded then id.(depth := 15) else id);
        if next.None? then None else FindFrom(next.value, nhlist, obj, page)
  }

  /**
   * What a found identifier satisfies: a bucket that exists, a place in the
   * walk no earlier than the start, a live object there and a page at the
   * index it records.
   */
  lemma {:induction false} FindFromFound(id: PgcacheId, nhlist: nat, obj: PgcacheId -> ObjLookup, page: PgcacheId -> Option<nat>)
    requires Fits(id) && id.depth < 16
    ensures var r := FindFrom(id, nhlist, obj, page);
      r.Some? ==>
        && Fits(r.value) && r.value.bucket < nhlist && r.value.depth < 16 && Key(r.value) >= Key(id)
        && obj(r.value.(index := if Key(r.value) == Key(id) then id.index else 0)) == Object
        && page(r.value.(index := if Key(r.value) == Key(id) then id.index else 0)) == Some(r.value.index as nat)
    decreases KEY_LIMIT - Key(id)
  {
    if id.bucket < nhlist {
      var look := obj(id);
      var hit := if look == Object then page(id) else None;
      if !(hit.Some? && hit.value <= 0xffff_ffff) {
        var next := Advance(if look == ChainEnded then id.(depth := 15) else id);
        if next.Some? {
          FindFromFound(next.value, nhlist, obj, page);
        }
      }
    }
  }

  /** The identifier the walk from `id` looks up at the place of `q`: the start's page index at the start, 0 after it. */
  function Probe(id: PgcacheId, q: PgcacheId): PgcacheId
  {
    q.(index := if Key(q) == Key(id) then id.index else 0)
  }

  /** Whether the lookups at `p` find a live object with a page whose index fits 32 bits. */
  predicate HitAt(p: PgcacheId, obj: PgcacheId -> ObjLookup, page: PgcacheId -> Option<nat>)
  {
    obj(p) == Object && page(p).Some? && page(p).value <= 0xffff_ffff
  }

  /**
   * The hash chains as vvp_pgcache_obj sees them: once a chain has ended at
   * some depth, no deeper place in the same bucket holds an object.
   */
  ghost predicate ChainsEnd(obj: PgcacheId -> ObjLookup)
  {
    forall p: PgcacheId, p': PgcacheId | p.bucket == p'.bucket && p.depth < p'.depth < 16 && obj(p) == ChainEnded ::
      obj(p') != Object
  }

  /**
   * An object of a hash chain as vvp_pgcache_obj_get sees it: whether it is
   * dying, and whether lu_object_locate finds in it a slice of this
   * device's type.
   */
  datatype ChainObject = ChainObject(dying: bool, ours: bool)

  /**
   * vvp_pgcache_obj as written, for the hash chains `chains`: the depth is
   * masked to 4 bits and counted down over the objects before it. At the
   * object at the depth the failing `vpi_curdep-- > 0` leaves the counter
   * at UINT_MAX, so a dying object there ends the bucket as a chain of fewer
   * objects than the depth does; a chain of exactly that many objects
   * leaves the counter at 0 and the walk takes the next depth.
   */
  function ObjAsWritten(chains: nat -> seq<ChainObject>, p: PgcacheId): ObjLookup
  {
    var c, d := chains(p.bucket), p.depth % 16;
    if d < |c| then
      if c[d].dying then ChainEnded else if c[d].ours then Object else NoObject
    else if d == |c| then NoObject
    else ChainEnded
  }

  /**
   * vvp_pgcache_obj as evidently intended: a dying object is passed over
   * like an object of another device, and only a chain shorter than the
   * depth ends the bucket.
   */
  function ObjFixed(chains: nat -> seq<ChainObject>, p: PgcacheId): ObjLookup
  {
    var c, d := chains(p.bucket), p.depth % 16;
    if d < |c| then
      if c[d].ours && !c[d].dying then Object else NoObject
    else if d == |c| then NoObject
    else ChainEnded
  }

  /** The corrected lookup ends a bucket only where its chain has ended. */
  lemma ObjFixedChainsEnd(chains: nat -> seq<ChainObject>)
    ensures ChainsEnd(p => ObjFixed(chains, p))
  {
    forall p: PgcacheId, p': PgcacheId | p.bucket == p'.bucket && p.depth < p'.depth < 16 && ObjFixed(chains, p) == ChainEnded
      ensures ObjFixed(chains, p') != Object
    {
      assert p.depth % 16 == p.depth && p'.depth % 16 == p'.depth;
    }
  }

  /** With no dying object the lookup as written is the corrected one, so its chains end as ChainsEnd says. */
  lemma AsWrittenChainsEndWithoutDying(chains: nat -> seq<ChainObject>)
    requires forall b: nat, i :: 0 <= i < |chains(b)| ==> !chains(b)[i].dying
    ensures ChainsEnd(p => ObjAsWritten(chains, p))
  {
    ObjFixedChainsEnd(chains);
    forall p: PgcacheId ensures ObjAsWritten(chains, p) == ObjFixed(chains, p) {
    }
  }

  /**
   * The walk as written gives up the rest of a bucket at a ChainEnded
   * place: it never reports a deeper place of that bucket.
   */
  lemma ChainEndedSkipsBucket(id: PgcacheId, nhlist: nat, obj: PgcacheId -> ObjLookup,
                              page: PgcacheId -> Option<nat>, q: PgcacheId)
    requires Fits(id) && id.depth < 16 && obj(id) == ChainEnded
    requires q.bucket == id.bucket && id.depth < q.depth < 16
    ensures var r := FindFrom(id, nhlist, obj, page); r.None? || Key(q) < Key(r.value)
  {
    if id.bucket < nhlist {
      var next := Advance(id.(depth := 15));
      if next.Some? {
        FindFromFound(next.value, nhlist, obj, page);
      }
    }
  }

  /** A bucket of one chain: a dying object of this device, then a live one. */
  function DyingFirstChains(b: nat): seq<ChainObject>
  {
    if b == 0 then [ChainObject(true, true), ChainObject(false, true)] else []
  }

  /** Every object has a page at index 0. */
  function PageZero(p: PgcacheId): Option<nat>
  {
    Some(0)
  }

  /**
   * A dying object hides the rest of its bucket: with one hash chain whose
   * first object is dying and whose second is live with a page, the walk
   * as written from position 0 finds nothing, though the second object has
   * a page to report; the corrected lookup finds it.
   */
  lemma DyingObjectHidesPage()
    ensures HitAt(PgcacheId(0, 1, 0), p => ObjAsWritten(DyingFirstChains, p), PageZero)
    ensures FindFrom(PgcacheId(0, 0, 0), 1, p => ObjAsWritten(DyingFirstChains, p), PageZero) == None
    ensures FindFrom(PgcacheId(0, 0, 0), 1, p => ObjFixed(DyingFirstChains, p), PageZero) == Some(PgcacheId(0, 1, 0))
  {
    var asWritten := (p: PgcacheId) => ObjAsWritten(DyingFirstChains, p);
    var fixed := (p: PgcacheId) => ObjFixed(DyingFirstChains, p);
    var c := DyingFirstChains(0);
    assert c[0].dying && c[1].ours && !c[1].dying;
    assert asWritten(PgcacheId(0, 1, 0)) == Object;
    assert asWritten(PgcacheId(0, 0, 0)) == ChainEnded;
    assert Advance(PgcacheId(0, 15, 0)) == Some(PgcacheId(1, 0, 0));
    assert FindFrom(PgcacheId(1, 0, 0), 1, asWritten, PageZero) == None;
    assert fixed(PgcacheId(0, 0, 0)) == NoObject && fixed(PgcacheId(0, 1, 0)) == Object;
    assert Advance(PgcacheId(0, 0, 0)) == Some(PgcacheId(0, 1, 0));
    assert FindFrom(PgcacheId(0, 1, 0), 1, fixed, PageZero) == Some(PgcacheId(0, 1, 0));
  }

  /**
   * The corrected walk skips no page, whatever the hash chains hold: no
   * place of an existing bucket from the start up to the page found, or
   * anywhere after the start when nothing is found, has a page to report.
   */
  lemma FixedWalkComplete(id: PgcacheId, nhlist: nat, chains: nat -> seq<ChainObject>,
                          page: PgcacheId -> Option<nat>, q: PgcacheId)
    requires Fits(id) && id.depth < 16 && Fits(q) && q.depth < 16
    requires Key(id) <= Key(q) && q.bucket < nhlist
    requires var r := FindFrom(id, nhlist, p => ObjFixed(chains, p), page); r.None? || Key(q) < Key(r.value)
    ensures !HitAt(Probe(id, q), p => ObjFixed(chains, p), page)
  {
    ObjFixedChainsEnd(chains);
    FindFromComplete(id, nhlist, p => ObjFixed(chains, p), page, q);
  }

  /** Places in the walk order compare by bucket first. */
  lemma KeyOrder(a: PgcacheId, b: PgcacheId)
    requires a.depth < 16 && b.depth < 16
    ensures Key(a) <= Key(b) ==> a.bucket <= b.bucket
    ensures Key(a) == Key(b) ==> a.bucket == b.bucket && a.depth == b.depth
    ensures a.bucket == b.bucket ==> (Key(a) < Key(b) <==> a.depth < b.depth)
  {
  }

  /**
   * The walk skips no page: with hash chains that end as ChainsEnd says,
   * every place of an existing bucket from the start up to (not including)
   * the page found, or every such place at all when nothing is found, has
   * no page to report.
   */
  lemma {:induction false} FindFromComplete(id: PgcacheId, nhlist: nat, obj: PgcacheId -> ObjLookup,
                                            page: PgcacheId -> Option<nat>, q: PgcacheId)
    requires Fits(id) && id.depth < 16 && Fits(q) && q.depth < 16 && ChainsEnd(obj)
    requires Key(id) <= Key(q) && q.bucket < nhlist
    requires var r := FindFrom(id, nhlist, obj, page); r.None? || Key(q) < Key(r.value)
    ensures !HitAt(Probe(id, q), obj, page)
    decreases KEY_LIMIT - Key(id)
  {
    KeyOrder(id, q);
    var look := obj(id);
    if Key(q) == Key(id) {
      assert Probe(id, q) == id;
      return;
    }
    var m := if look == ChainEnded then id.(depth := 15) else id;
    if Key(q) <= Key(m) {
      KeyOrder(id, q);
      assert obj(Probe(id, q)) != Object;
      return;
    }
    var next := Advance(m);
    var n := next.value;
    KeyOrder(n, q);
    assert Probe(n, q) == Probe(id, q);
    FindFromComplete(n, nhlist, obj, page, q);
  }

  /**
   * With at most 2^28 hash chains (what vvp_pgcache_start guarantees), the
   * position the search stores for the next call decodes to the page it found.
   */
  lemma FoundPositionDecodes(id: PgcacheId, nhlist: nat, obj: PgcacheId -> ObjLookup, page: PgcacheId -> Option<nat>)
    requires Fits(id) && id.depth < 16 && nhlist <= BUCKET_LIMIT
    ensures var r := FindFrom(id, nhlist, obj, page);
      r.Some? ==> Fits(r.value) && r.value.depth < 16 && Unpack(Pack(r.value)) == r.value
  {
    FindFromFound(id, nhlist, obj, page);
    var r := FindFrom(id, nhlist, obj, page);
    if r.Some? {
      UnpackPack(r.value);
    }
  }

  /**
   * vvp_pgcache_find: the walk from the identifier `pos` encodes. On success
   * `pos2` is the position of the page found; otherwise `pos` is kept.
   */
  method Find(pos: nat, nhlist: nat, obj: PgcacheId -> ObjLookup, page: PgcacheId -> Option<nat>)
    returns (found: Option<PgcacheId>, pos2: nat)
    requires pos < U64_LIMIT
    ensures found == FindFrom(Unpack(pos), nhlist, obj, page)
    ensures found.Some? ==> Fits(found.value) && found.value.depth < 16 && pos2 == Pack(found.value)
    ensures found.None? ==> pos2 == pos
  {
    var id := Unpack(pos);
    pos2 := pos;
    while true
      invariant Fits(id) && id.depth < 16
      invariant FindFrom(id, nhlist, obj, page) == FindFrom(Unpack(pos), nhlist, obj, page)
      decreases KEY_LIMIT - Key(id)
    {
      if id.bucket >= nhlist {
        return None, pos;
      }
      var look := obj(id);
      if look == Object {
        var hit := page(id);
        if hit.Some? && hit.value <= 0xffff_ffff {
          id := id.(index := hit.value);
          return Some(id), Pack(id);
        }
      }
      var next := Advance(if look == ChainEnded then id.(depth := 15) else id);
      if next.None? {
        return None, pos;
      }
      id := next.value;
    }
  }

  /** The error of vvp_pgcache_start when the hash table has too many chains for the 28 bucket bits. */
  const EFBIG: int := 27

  /** The outcome of vvp_pgcache_start: an error, or the page found (None at the end of the dump). */
  datatype StartResult = Error(errno: int) | Page(found: Option<PgcacheId>)

  /**
   * vvp_pgcache_start: refuses with -EFBIG a hash table of more than 2^28
   * chains (`curBits` is its current number of bits); otherwise searches from
   * `pos`.
   */
  method Start(curBits: nat, pos: nat, obj: PgcacheId -> ObjLookup, page: PgcacheId -> Option<nat>)
    returns (r: StartResult, pos2: nat)
    requires pos < U64_LIMIT
    ensures curBits > 64 - 36 ==> r == Error(-EFBIG) && pos2 == pos
    ensures curBits <= 64 - 36 ==> r.Page? && r.found == FindFrom(Unpack(pos), Pow2(curBits), obj, page)
    ensures r.Page? && r.found.Some? ==>
      Fits(r.found.value) && r.found.value.depth < 16 && pos2 == Pack(r.found.value) && Unpack(pos2) == r.found.value
  {
    if curBits > 64 - 36 {
      return Error(-EFBIG), pos;
    }
    Pow2Bound(curBits);
    FoundPositionDecodes(Unpack(pos), Pow2(curBits), obj, page);
    var found;
    found, pos2 := Find(pos, Pow2(curBits), obj, page);
    r := Page(found);
  }

  /**
   * vvp_pgcache_next: the search goes on from the position after the last
   * one shown (the 64-bit offset wraps).
   */
  method Next(pos: nat, nhlist: nat, obj: PgcacheId -> ObjLookup, page: PgcacheId -> Option<nat>)
    returns (found: Option<PgcacheId>, pos2: nat)
    requires pos < U64_LIMIT
    ensures found == FindFrom(Unpack((pos + 1) % U64_LIMIT), nhlist, obj, page)
    ensures found.Some? ==> Fits(found.value) && found.value.depth < 16 && pos2 == Pack(found.value)
    ensures found.None? ==> pos2 == (pos + 1) % U64_LIMIT
  {
    found, pos2 := Find((pos + 1) % U64_LIMIT, nhlist, obj, page);
  }

  /**
   * The position after that of a page found is the next page index of the
   * same object, so the dump resumes right after the page it showed.
   */
  lemma NextResumesAfter(id: PgcacheId)
    requires Fits(id) && id.depth < 16 && id.bucket < BUCKET_LIMIT && id.index < 0xffff_ffff
    ensures Pack(id) + 1 < U64_LIMIT && Unpack(Pack(id) + 1) == id.(index := id.index + 1)
  {
    var id' := id.(index := id.index + 1);
    assert Pack(id') == Pack(id) + 1;
    UnpackPack(id');
  }

  lemma {:induction false} Pow2Bound(n: nat)
    requires n <= 28
    ensures Pow2(n) <= BUCKET_LIMIT
  {
    assert Pow2(28) == BUCKET_LIMIT by {
      assert Pow2(14) == 0x4000;
    }
    Pow2Monotone(n, 28);
  }
}
