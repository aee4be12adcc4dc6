/**
 * The display-list manager of the Renesas R-Car VSP1 video processor.
 *
 * A display list is a buffer of (register, value) pairs that the VSP1 loads
 * by DMA. A manager owns a fixed pool of lists created up front. Each list
 * moves between the free queue, the caller, the three pipeline slots
 * (active, queued, pending) and the chain of another list. In header mode
 * every list also carries a header that tells the hardware where its bodies
 * are and which header to load next.
 *
 * Lists are numbered by their position in the pool (`Manager.lists`); the
 * kernel's intrusive linked lists become sequences of those numbers.
 */
module Vsp1Dl {
  import opened Common

  /** Entries of the primary body of every list. */
  const NUM_ENTRIES: nat := 256
  /** Bytes of one (reg, data) entry, and of one body descriptor in a header. */
  const ENTRY_BYTES: nat := 8
  /** Body descriptors in a header. */
  const HEADER_LISTS: nat := 8
  /** Packed size of a header: num_lists, eight descriptors, next_header, flags. */
  const HEADER_BYTES: nat := 4 + HEADER_LISTS * 8 + 4 + 4
  /** Offset of the header from the start of the primary body's memory. */
  const HEADER_OFFSET: nat := NUM_ENTRIES * ENTRY_BYTES

  const DLH_INT_ENABLE: bv32 := 1 << 1
  const DLH_AUTO_START: bv32 := 1 << 0

  /** Bits returned by the frame-end handler. */
  const FRAME_END_COMPLETED: bv32 := 1 << 0
  const FRAME_END_INTERNAL: bv32 := 1 << 1

  /* ---------------------------------------------------------------------
   * Bodies
   */

  datatype Entry = Entry(addr: U32, data: U32)

  /**
   * A display-list body: DMA memory holding up to `entries.Length` entries,
   * of which the first `numEntries` have been written.
   */
  class Body {
    const dma: nat
    const size: nat
    const entries: array<Entry>
    var numEntries: nat

    ghost predicate Valid()
      reads this
    {
      numEntries <= entries.Length
    }

    /** The entries written so far, in order. */
    ghost function Contents(): seq<Entry>
      reads this, entries
      requires Valid()
    {
      entries[..numEntries]
    }

    /** DMA memory for `capacity` entries followed by `extra` bytes. */
    constructor (dma: nat, capacity: nat, extra: nat)
      ensures Valid() && fresh(entries)
      ensures this.dma == dma && entries.Length == capacity && numEntries == 0
      ensures size == capacity * ENTRY_BYTES + extra
    {
      this.dma := dma;
      size := capacity * ENTRY_BYTES + extra;
      entries := new Entry[capacity](_ => Entry(0, 0));
      numEntries := 0;
    }

    /** vsp1_dl_fragment_write: store one register write after the others. */
    method Write(reg: U32, data: U32)
      requires Valid() && numEntries < entries.Length
      modifies this, entries
      ensures Valid()
      ensures numEntries == old(numEntries) + 1
      ensures Contents() == old(Contents()) + [Entry(reg, data)]
    {
      StoreEntry(entries, numEntries, reg, data);
      numEntries := numEntries + 1;
    }
  }

  /**
   * The store of vsp1_dl_fragment_write: entry `n` of a body's buffer
   * becomes (reg, data), after the `n` entries already written.
   */
  method StoreEntry(entries: array<Entry>, n: nat, reg: U32, data: U32)
    requires n < entries.Length
    modifies entries
    ensures entries[..n + 1] == old(entries[..n]) + [Entry(reg, data)]
  {
    entries[n] := Entry(reg, data);
    assert entries[..n + 1] == entries[..n] + [entries[n]];
  }

  /**
   * The primary body a list embeds: the fields of its vsp1_dl_body, around
   * the DMA buffer `entries`.
   */
  datatype Body0 = Body0(entries: array<Entry>, dma: nat, size: nat, numEntries: nat)

  /** The entries written to a primary body so far, in order. */
  ghost function Body0Contents(b: Body0): seq<Entry>
    reads b.entries
    requires b.numEntries <= b.entries.Length
  {
    b.entries[..b.numEntries]
  }

  /* ---------------------------------------------------------------------
   * Headers
   */

  datatype HeaderList = HeaderList(numBytes: nat, addr: nat)
  datatype Header = Header(numLists: nat, lists: seq<HeaderList>, nextHeader: nat, flags: bv32)

  /** A header as left by the allocation: zeroed, descriptor 0 pointing at the primary body. */
  function InitialHeader(body0Dma: nat): (h: Header)
    ensures |h.lists| == HEADER_LISTS && h.numLists == 0
    ensures h.lists[0] == HeaderList(0, body0Dma)
    ensures h.nextHeader == 0 && h.flags == 0
  {
    Header(0, seq(HEADER_LISTS, j => if j == 0 then HeaderList(0, body0Dma) else HeaderList(0, 0)), 0, 0)
  }

  /** Where a body lives and how many entries it holds. */
  datatype Extent = Extent(dma: nat, numEntries: nat)

  ghost function ExtentOf(b: Body): Extent
    reads b
  {
    Extent(b.dma, b.numEntries)
  }

  ghost function Extents(bs: seq<Body>): (r: seq<Extent>)
    reads set b | b in bs
    ensures |r| == |bs|
    ensures forall k :: 0 <= k < |bs| ==> r[k] == ExtentOf(bs[k])
  {
    if bs == [] then [] else Extents(bs[..|bs| - 1]) + [ExtentOf(bs[|bs| - 1])]
  }

  /** How a header continues: the next header to load (None: leave the field as it is) and the flags. */
  datatype Link = Link(next: Option<nat>, flags: bv32)

  /**
   * The link fill_header writes. `succ` is the header address of the list that
   * follows in the chain, None when the list is in no chain.
   */
  function LinkFor(succ: Option<nat>, isLast: bool, singleshot: bool, ownDma: nat): (k: Link)
    ensures k.flags & DLH_INT_ENABLE != 0 <==> (isLast || succ.None?)
    ensures k.flags & DLH_AUTO_START != 0 <==> !(singleshot && (isLast || succ.None?))
    ensures succ.Some? && !isLast ==> k.next == succ
    ensures !singleshot && (isLast || succ.None?) ==> k.next == Some(ownDma)
    ensures singleshot && (isLast || succ.None?) ==> k.next.None?
  {
    if succ.Some? && !isLast then Link(succ, DLH_AUTO_START)
    else if !singleshot then Link(Some(ownDma), DLH_INT_ENABLE | DLH_AUTO_START)
    else Link(None, DLH_INT_ENABLE)
  }

  /**
   * The header fill_header leaves: descriptor 0 holds the primary body's byte
   * count (its address was set at allocation), descriptor k + 1 the k-th
   * fragment, num_lists the number of fragments, then the link. Descriptors
   * past the last fragment keep their previous contents.
   */
  function Filled(h: Header, body0Entries: nat, frags: seq<Extent>, link: Link): (r: Header)
    requires |h.lists| == HEADER_LISTS && |frags| < HEADER_LISTS
    ensures |r.lists| == HEADER_LISTS && r.lists[0].addr == h.lists[0].addr
  {
    Header(|frags|,
           seq(HEADER_LISTS, j requires 0 <= j < HEADER_LISTS =>
                 if j == 0 then HeaderList(body0Entries * ENTRY_BYTES, h.lists[0].addr)
                 else if j <= |frags| then HeaderList(frags[j - 1].numEntries * ENTRY_BYTES, frags[j - 1].dma)
                 else h.lists[j]),
           if link.next.Some? then link.next.value else h.nextHeader,
           link.flags)
  }

  /** How the hardware reads a header: the bodies of descriptors 0 to num_lists. */
  function Described(h: Header): (r: seq<Extent>)
    requires h.numLists < |h.lists|
    ensures |r| == h.numLists + 1
  {
    seq(h.numLists + 1, j requires 0 <= j <= h.numLists =>
          Extent(h.lists[j].addr, h.lists[j].numBytes / ENTRY_BYTES))
  }

  /**
   * Reading back a filled header yields exactly the primary body followed by
   * the fragments in the order they were added.
   */
  lemma FilledDescribesBodies(h: Header, body0Entries: nat, frags: seq<Extent>, link: Link)
    requires |h.lists| == HEADER_LISTS && |frags| < HEADER_LISTS
    ensures Filled(h, body0Entries, frags, link).numLists < HEADER_LISTS
    ensures Described(Filled(h, body0Entries, frags, link)) == [Extent(h.lists[0].addr, body0Entries)] + frags
  {
    var r := Filled(h, body0Entries, frags, link);
    var d := Described(r);
    var e := [Extent(h.lists[0].addr, body0Entries)] + frags;
    forall j | 0 <= j < |d|
      ensures d[j] == e[j]
    {
      if j == 0 {
        assert body0Entries * ENTRY_BYTES / ENTRY_BYTES == body0Entries;
      } else {
        assert frags[j - 1].numEntries * ENTRY_BYTES / ENTRY_BYTES == frags[j - 1].numEntries;
      }
    }
  }

  /** The header `h` of list `l` once fill_header has written it with link `link`. */
  ghost function FilledFor(h: Header, l: ListState, link: Link): (r: Header)
    reads set b | b in l.fragments
    requires |h.lists| == HEADER_LISTS && |l.fragments| < HEADER_LISTS
  {
    Filled(h, l.body0.numEntries, Extents(l.fragments), link)
  }

  /** The lists commit fills headers for: list `id`, then its chain in order. */
  function Ring(ls: seq<ListState>, id: nat): seq<nat>
    requires id < |ls|
  {
    [id] + ls[id].chain
  }

  /**
   * The link commit gives list j of a ring: the header of the next list of
   * the ring, and for the last list of the ring (the head alone, when its
   * chain is empty) the end-of-chain link.
   */
  function RingLink(ls: seq<ListState>, ring: seq<nat>, j: nat, singleshot: bool): Link
    requires j < |ring| && ring[j] < |ls|
  {
    var succ := if j + 1 < |ring| && ring[j + 1] < |ls| then Some(ls[ring[j + 1]].dma) else None;
    LinkFor(succ, j + 1 == |ring|, singleshot, ls[ring[j]].dma)
  }

  /**
   * The headers of a ring run its lists in ring order: each list but the
   * last starts the next one, and only the last raises the completion
   * interrupt and, in continuous mode, loads itself again.
   */
  lemma RingLinks(ls: seq<ListState>, ring: seq<nat>, j: nat, singleshot: bool)
    requires j < |ring| && forall k :: 0 <= k < |ring| ==> ring[k] < |ls|
    ensures var k := RingLink(ls, ring, j, singleshot);
            && (j + 1 < |ring| ==> k == Link(Some(ls[ring[j + 1]].dma), DLH_AUTO_START))
            && (k.flags & DLH_INT_ENABLE != 0 <==> j + 1 == |ring|)
            && (j + 1 == |ring| && !singleshot ==> k == Link(Some(ls[ring[j]].dma), DLH_INT_ENABLE | DLH_AUTO_START))
            && (j + 1 == |ring| && singleshot ==> k == Link(None, DLH_INT_ENABLE))
  {
  }

  /* ---------------------------------------------------------------------
   * The pipeline
   */

  datatype Pipeline = Pipeline(active: Option<nat>, queued: Option<nat>, pending: Option<nat>)

  /** The list an optional slot holds, as a multiset. */
  function InSlot(o: Option<nat>): multiset<nat>
  {
    if o.Some? then multiset{o.value} else multiset{}
  }

  /** The lists a pipeline holds. */
  function SlotLists(p: Pipeline): multiset<nat>
  {
    InSlot(p.active) + InSlot(p.queued) + InSlot(p.pending)
  }

  /** Result of a transition: new slots, the list given back to the free pool, the list programmed into the hardware, the frame-end flags. */
  datatype Step = Step(slots: Pipeline, released: Option<nat>, programmed: Option<nat>, flags: bv32)

  /**
   * vsp1_dl_list_hw_update_pending: whether the hardware has not yet taken the
   * queued list. `bit` is the UPD/UPDHDR register bit; with nothing queued the
   * register is not read.
   */
  function UpdatePending(p: Pipeline, bit: bool): bool
  {
    p.queued.Some? && bit
  }

  /** The three commit routines, on the slots. */
  function CommitStep(p: Pipeline, dl: nat, singleshot: bool, bit: bool): Step
  {
    if singleshot then Step(p.(active := Some(dl)), None, Some(dl), 0)
    else if UpdatePending(p, bit) then Step(p.(pending := Some(dl)), p.pending, None, 0)
    else Step(p.(queued := Some(dl)), p.queued, Some(dl), 0)
  }

  /**
   * vsp1_dlm_irq_frame_end, on the slots. `queuedInternal` is the internal flag
   * of the queued list.
   */
  function FrameEndStep(p: Pipeline, singleshot: bool, bit: bool, queuedInternal: bool): Step
  {
    if singleshot then Step(p.(active := None), p.active, None, FRAME_END_COMPLETED)
    else if UpdatePending(p, bit) then Step(p, None, None, 0)
    else
      var promoted := if p.queued.Some? then p.(active := p.queued, queued := None) else p;
      var released := if p.queued.Some? then p.active else None;
      var flags := if p.queued.Some? then FRAME_END_COMPLETED | (if queuedInternal then FRAME_END_INTERNAL else 0) else 0;
      if promoted.pending.Some? then
        Step(promoted.(queued := promoted.pending, pending := None), released, promoted.pending, flags)
      else Step(promoted, released, None, flags)
  }

  /** What the slots of a well-run manager satisfy: single-shot managers use only `active`, and a pending list always waits behind a queued one. */
  predicate Ordered(p: Pipeline, singleshot: bool)
  {
    && (singleshot ==> p.queued.None? && p.pending.None?)
    && (p.pending.Some? ==> p.queued.Some?)
  }

  /**
   * Commit keeps the slots ordered and loses no list: the lists in the new
   * slots plus the released one are the old ones plus the committed one.
   * (Single-shot commit requires an idle pipeline.) The hardware is only
   * programmed when it has taken the previous update.
   */
  lemma CommitConserves(p: Pipeline, dl: nat, singleshot: bool, bit: bool)
    requires Ordered(p, singleshot)
    requires singleshot ==> p.active.None?
    ensures var s := CommitStep(p, dl, singleshot, bit);
            && Ordered(s.slots, singleshot)
            && SlotLists(s.slots) + InSlot(s.released) == SlotLists(p) + multiset{dl}
            && (s.programmed.Some? <==> !UpdatePending(p, bit) || singleshot)
            && (s.programmed.Some? ==> s.programmed == Some(dl))
  {
  }

  /** Frame end keeps the slots ordered and loses no list. */
  lemma FrameEndConserves(p: Pipeline, singleshot: bool, bit: bool, queuedInternal: bool)
    requires Ordered(p, singleshot)
    ensures var s := FrameEndStep(p, singleshot, bit, queuedInternal);
            && Ordered(s.slots, singleshot)
            && SlotLists(s.slots) + InSlot(s.released) == SlotLists(p)
  {
  }

  /**
   * In continuous mode frame end reports COMPLETED exactly when a queued list
   * became active, and INTERNAL exactly when that list was marked internal;
   * single-shot frame end always reports COMPLETED alone.
   */
  lemma FrameEndFlags(p: Pipeline, singleshot: bool, bit: bool, queuedInternal: bool)
    ensures var s := FrameEndStep(p, singleshot, bit, queuedInternal);
            && (singleshot ==> s.flags == FRAME_END_COMPLETED)
            && (!singleshot ==> (s.flags & FRAME_END_COMPLETED != 0 <==> !UpdatePending(p, bit) && p.queued.Some?))
            && (!singleshot ==> (s.flags & FRAME_END_INTERNAL != 0 <==> !UpdatePending(p, bit) && p.queued.Some? && queuedInternal))
  {
    var s := FrameEndStep(p, singleshot, bit, queuedInternal);
    if !singleshot && !UpdatePending(p, bit) && p.queued.Some? {
      if queuedInternal {
        assert s.flags == FRAME_END_COMPLETED | FRAME_END_INTERNAL;
        assert (FRAME_END_COMPLETED | FRAME_END_INTERNAL) & FRAME_END_COMPLETED != 0;
        assert (FRAME_END_COMPLETED | FRAME_END_INTERNAL) & FRAME_END_INTERNAL != 0;
      } else {
        assert s.flags == FRAME_END_COMPLETED | 0;
      }
    }
  }

  /**
   * Frame end programs the hardware only in continuous mode once the update
   * has been taken, and then with the pending list; the list it releases is
   * the previously active one, and only when a queued list replaced it.
   */
  lemma FrameEndPrograms(p: Pipeline, singleshot: bool, bit: bool, queuedInternal: bool)
    ensures var s := FrameEndStep(p, singleshot, bit, queuedInternal);
            && (s.programmed.Some? <==> !singleshot && !UpdatePending(p, bit) && p.pending.Some?)
            && (s.programmed.Some? ==> s.programmed == p.pending)
            && (!singleshot ==> s.released == (if !UpdatePending(p, bit) && p.queued.Some? then p.active else None))
            && (singleshot ==> s.released == p.active)
  {
  }

  /**
   * The race the update-pending bit resolves: a list committed while the
   * hardware still holds an untaken update waits in `pending`, the next frame
   * end that finds the update taken makes the old queued list active and
   * programs the new one, and the frame end after that makes it active.
   */
  lemma CommitRaceResolves(a: Option<nat>, q: nat, dl: nat)
    requires a != Some(q) && q != dl && a != Some(dl)
    ensures var p0 := Pipeline(a, Some(q), None);
            var c := CommitStep(p0, dl, false, true);
            var f1 := FrameEndStep(c.slots, false, false, false);
            var f2 := FrameEndStep(f1.slots, false, false, false);
            && c.slots == Pipeline(a, Some(q), Some(dl)) && c.programmed.None?
            && f1.slots == Pipeline(Some(q), Some(dl), None) && f1.programmed == Some(dl) && f1.released == a
            && f2.slots == Pipeline(Some(dl), None, None) && f2.released == Some(q)
            && f2.flags == FRAME_END_COMPLETED
  {
  }

  /* ---------------------------------------------------------------------
   * Lists and their places
   */

  /** Where a list of the pool is. */
  datatype Place = Free | Active | Queued | Pending | Held | Chained(head: nat)

  /** Places whose list may head a chain: the pipeline slots and the caller. */
  predicate IsHead(p: Place)
  {
    p.Active? || p.Queued? || p.Pending? || p.Held?
  }

  /** The state of a vsp1_dl_list (its primary body is the object `body0`). */
  datatype ListState = ListState(
    body0: Body0,
    dma: nat,
    fragments: seq<Body>,
    hasChain: bool,
    chain: seq<nat>,
    internal: bool)

  /** The lists a put of `l` releases besides `l` itself. */
  function ChainOf(l: ListState): seq<nat>
  {
    if l.hasChain then l.chain else []
  }

  /** A list as put leaves it: no chain flag, no fragments, an empty primary body. */
  function Released(l: ListState): ListState
  {
    l.(hasChain := false, fragments := [], body0 := l.body0.(numEntries := 0))
  }

  /**
   * The fragments of the lists `ids` as releasing them in that order leaves
   * them at the head of the garbage-collection queue: each release splices
   * its list's fragments in front, so the last list's come first.
   */
  function FragmentsOf(ls: seq<ListState>, ids: seq<nat>): seq<Body>
  {
    if ids == [] then []
    else (if ids[|ids| - 1] < |ls| then ls[ids[|ids| - 1]].fragments else []) + FragmentsOf(ls, ids[..|ids| - 1])
  }

  /** The lists a put of `o` returns to the free queue, in order (None: the NULL list). */
  function Freed(ls: seq<ListState>, o: Option<nat>): seq<nat>
  {
    if o.Some? && o.value < |ls| then ChainOf(ls[o.value]) + [o.value] else []
  }

  /**
   * The fragments a put of `o` moves to the head of the garbage-collection
   * queue, in queue order: the list's own, then those of its chain from the
   * last chained list to the first.
   */
  function GcOf(ls: seq<ListState>, o: Option<nat>): seq<Body>
  {
    if o.Some? && o.value < |ls| then ls[o.value].fragments + FragmentsOf(ls, ChainOf(ls[o.value])) else []
  }

  /** The lists after releasing the lists `ids` one after the other. */
  function ReleasedAll(ls: seq<ListState>, ids: seq<nat>): (r: seq<ListState>)
    requires forall k :: 0 <= k < |ids| ==> ids[k] < |ls|
    ensures |r| == |ls|
    decreases |ids|
  {
    if ids == [] then ls
    else
      var r := ReleasedAll(ls, ids[..|ids| - 1]);
      r[ids[|ids| - 1] := Released(r[ids[|ids| - 1]])]
  }

  /** Releasing lists one after the other releases each of them once, in any order. */
  lemma {:induction false} ReleasedAllAt(ls: seq<ListState>, ids: seq<nat>, i: nat)
    requires forall k :: 0 <= k < |ids| ==> ids[k] < |ls|
    requires i < |ls|
    ensures ReleasedAll(ls, ids)[i] == if i in ids then Released(ls[i]) else ls[i]
    decreases |ids|
  {
    if ids != [] {
      var front := ids[..|ids| - 1];
      ReleasedAllAt(ls, front, i);
      assert i in ids <==> i in front || i == ids[|ids| - 1] by {
        assert ids == front + [ids[|ids| - 1]];
      }
    }
  }

  /** Releasing the next list of a chain of distinct lists extends the releases and the collected fragments by that list's. */
  lemma ReleaseStep(ls: seq<ListState>, chain: seq<nat>, k: nat)
    requires Distinct(chain) && k < |chain| && forall j :: 0 <= j < |chain| ==> chain[j] < |ls|
    ensures chain[..k + 1] == chain[..k] + [chain[k]]
    ensures ReleasedAll(ls, chain[..k])[chain[k]] == ls[chain[k]]
    ensures ReleasedAll(ls, chain[..k + 1]) == ReleasedAll(ls, chain[..k])[chain[k] := Released(ls[chain[k]])]
  {
    var c := chain[k];
    var pre, post := chain[..k], chain[..k + 1];
    assert post == pre + [c];
    assert post[..|post| - 1] == pre;
    assert c !in pre by {
      assert forall j :: 0 <= j < k ==> chain[j] != chain[k];
    }
    ReleasedAllAt(ls, pre, c);
  }

  /** Releasing a chain's first k + 1 lists puts the next list's fragments in front of those of its first k. */
  lemma FragmentsStep(ls: seq<ListState>, chain: seq<nat>, k: nat)
    requires k < |chain| && chain[k] < |ls|
    ensures FragmentsOf(ls, chain[..k + 1]) == ls[chain[k]].fragments + FragmentsOf(ls, chain[..k])
  {
    var post := chain[..k + 1];
    assert post[..|post| - 1] == chain[..k];
  }

  /** The lists after a put of `o`: the lists it frees are released in turn. */
  ghost function PutLists(ls: seq<ListState>, o: Option<nat>): (r: seq<ListState>)
    ensures |r| == |ls|
  {
    var ids := Freed(ls, o);
    if forall k :: 0 <= k < |ids| ==> ids[k] < |ls| then ReleasedAll(ls, ids) else ls
  }

  /** A put releases the list and the lists of its chain, and leaves every other list as it was. */
  lemma PutListsAt(ls: seq<ListState>, id: nat, i: nat)
    requires id < |ls| && i < |ls|
    requires forall k :: 0 <= k < |ChainOf(ls[id])| ==> ChainOf(ls[id])[k] < |ls|
    ensures PutLists(ls, Some(id))[i] == if i == id || i in ChainOf(ls[id]) then Released(ls[i]) else ls[i]
  {
    ReleasedAllAt(ls, ChainOf(ls[id]) + [id], i);
  }

  /** The places after freeing the lists `ids` one after the other. */
  function FreedWhere(where: seq<Place>, ids: seq<nat>): (r: seq<Place>)
    ensures |r| == |where|
    decreases |ids|
  {
    if ids == [] then where
    else
      var w := FreedWhere(where, ids[..|ids| - 1]);
      if ids[|ids| - 1] < |w| then w[ids[|ids| - 1] := Free] else w
  }

  lemma {:induction false} FreedWhereAt(where: seq<Place>, ids: seq<nat>, i: nat)
    requires i < |where|
    ensures FreedWhere(where, ids)[i] == if i in ids then Free else where[i]
    decreases |ids|
  {
    if ids != [] {
      var front := ids[..|ids| - 1];
      FreedWhereAt(where, front, i);
      assert i in ids <==> i in front || i == ids[|ids| - 1] by {
        assert ids == front + [ids[|ids| - 1]];
      }
    }
  }

  /** The places after a put of `o`: the lists it frees are free. */
  function PutWhere(where: seq<Place>, ls: seq<ListState>, o: Option<nat>): (r: seq<Place>)
    ensures |r| == |where|
  {
    FreedWhere(where, Freed(ls, o))
  }

  /** A put frees the list and the lists of its chain, and leaves every other place as it was. */
  lemma PutWhereAt(where: seq<Place>, ls: seq<ListState>, id: nat, i: nat)
    requires id < |ls| && i < |where|
    ensures PutWhere(where, ls, Some(id))[i] == if i == id || i in ChainOf(ls[id]) then Free else where[i]
  {
    FreedWhereAt(where, ChainOf(ls[id]) + [id], i);
  }

  predicate SlotOk(where: seq<Place>, s: Option<nat>, p: Place)
  {
    && (s.Some? ==> s.value < |where|)
    && (forall i :: 0 <= i < |where| ==> (where[i] == p <==> s == Some(i)))
  }

  /** A list heading a chain owns exactly the lists chained to it. */
  ghost predicate HeadOk(ls: seq<ListState>, where: seq<Place>, h: nat)
    requires h < |ls|
  {
    && (ls[h].hasChain <==> ls[h].chain != [])
    && Distinct(ls[h].chain)
    && (forall k :: 0 <= k < |ls[h].chain| ==>
          ls[h].chain[k] < |where| && where[ls[h].chain[k]] == Chained(h))
  }

  /** A chained list belongs to the chain of a list that may head one. */
  ghost predicate ChainedOk(ls: seq<ListState>, where: seq<Place>, i: nat)
    requires i < |where|
  {
    where[i].Chained? ==>
      where[i].head < |ls| && where[i].head < |where| && IsHead(where[where[i].head]) && i in ls[where[i].head].chain
  }

  /**
   * Every list is in exactly one place, and the places agree with the free
   * queue, the pipeline slots and the chains.
   */
  ghost predicate PlacesOk(ls: seq<ListState>, free: seq<nat>, where: seq<Place>, p: Pipeline)
  {
    && |where| == |ls|
    && (forall k :: 0 <= k < |free| ==> free[k] < |ls|)
    && Distinct(free)
    && (forall i :: 0 <= i < |where| ==> (where[i] == Free <==> i in free))
    && SlotOk(where, p.active, Active) && SlotOk(where, p.queued, Queued) && SlotOk(where, p.pending, Pending)
    && (forall i {:trigger ChainedOk(ls, where, i)} :: 0 <= i < |where| ==> ChainedOk(ls, where, i))
    && (forall h {:trigger HeadOk(ls, where, h)} :: 0 <= h < |where| && IsHead(where[h]) ==> HeadOk(ls, where, h))
    && (forall i :: 0 <= i < |where| && !IsHead(where[i]) ==> !ls[i].hasChain)
    && (forall i :: 0 <= i < |where| && where[i] == Free ==> ls[i].fragments == [] && ls[i].body0.numEntries == 0)
  }

  /** Changes to a list that leave its chain alone keep every list in its place. */
  lemma {:induction false} ChainsFrame(ls: seq<ListState>, ls2: seq<ListState>, free: seq<nat>, where: seq<Place>, p: Pipeline)
    requires PlacesOk(ls, free, where, p) && |ls2| == |ls|
    requires forall i :: 0 <= i < |ls| ==> ls2[i].hasChain == ls[i].hasChain && ls2[i].chain == ls[i].chain
    requires forall i :: 0 <= i < |ls| && where[i] == Free ==> ls2[i] == ls[i]
    ensures PlacesOk(ls2, free, where, p)
  {
    forall i | 0 <= i < |where|
      ensures ChainedOk(ls2, where, i)
    {
      assert ChainedOk(ls, where, i);
    }
    forall h | 0 <= h < |where| && IsHead(where[h])
      ensures HeadOk(ls2, where, h)
    {
      assert HeadOk(ls, where, h);
    }
  }

  /** Adding a fresh list to the tail of the free queue keeps every list in one place. */
  lemma AppendKeepsPlaces(ls: seq<ListState>, free: seq<nat>, where: seq<Place>, p: Pipeline, l: ListState)
    requires PlacesOk(ls, free, where, p) && !l.hasChain && l.fragments == [] && l.body0.numEntries == 0
    ensures PlacesOk(ls + [l], free + [|ls|], where + [Free], p)
  {
    var ls2, free2, where2 := ls + [l], free + [|ls|], where + [Free];
    forall i | 0 <= i < |where2|
      ensures ChainedOk(ls2, where2, i)
    {
      if i < |where| {
        assert ChainedOk(ls, where, i);
      }
    }
    forall h | 0 <= h < |where2| && IsHead(where2[h])
      ensures HeadOk(ls2, where2, h)
    {
      assert HeadOk(ls, where, h);
    }
  }

  /** Handing the head of the free queue to the caller keeps every list in one place. */
  lemma GetKeepsPlaces(ls: seq<ListState>, free: seq<nat>, where: seq<Place>, p: Pipeline)
    requires PlacesOk(ls, free, where, p) && free != []
    ensures free[0] < |ls| && where[free[0]] == Free
    ensures PlacesOk(ls[free[0] := ls[free[0]].(chain := [])], free[1..], where[free[0] := Held], p)
  {
    var f := free[0];
    var ls2, free2, where2 := ls[f := ls[f].(chain := [])], free[1..], where[f := Held];
    assert f !in free2 by {
      assert forall k :: 1 <= k < |free| ==> free[k] != free[0];
    }
    forall i | 0 <= i < |where2|
      ensures ChainedOk(ls2, where2, i)
    {
      assert ChainedOk(ls, where, i);
    }
    forall h | 0 <= h < |where2| && IsHead(where2[h])
      ensures HeadOk(ls2, where2, h)
    {
      if h != f {
        assert HeadOk(ls, where, h);
      }
    }
  }

  /** The lists a caller holds can be put back: their chain is duplicate-free and heads no chain. */
  lemma HeldReleasable(ls: seq<ListState>, free: seq<nat>, where: seq<Place>, p: Pipeline, id: nat)
    requires PlacesOk(ls, free, where, p) && id < |ls| && where[id] == Held
    ensures ChainOf(ls[id]) == ls[id].chain
    ensures Distinct(ls[id].chain) && id !in ls[id].chain
    ensures forall k :: 0 <= k < |ls[id].chain| ==>
              ls[id].chain[k] < |ls| && !ls[ls[id].chain[k]].hasChain && where[ls[id].chain[k]] == Chained(id)
  {
    assert HeadOk(ls, where, id);
  }

  /** A list placed elsewhere is not in a chain all of whose lists are chained to `id`. */
  lemma NotChained(where: seq<Place>, c: seq<nat>, id: nat, x: nat)
    requires forall k :: 0 <= k < |c| ==> c[k] < |where| && where[c[k]] == Chained(id)
    requires x < |where| && where[x] != Chained(id)
    ensures x !in c
  {
  }

  /** The free queue stays duplicate-free when a held list and its chain join it. */
  lemma FreedDistinct(free: seq<nat>, where: seq<Place>, c: seq<nat>, id: nat)
    requires forall k :: 0 <= k < |free| ==> free[k] < |where| && where[free[k]] == Free
    requires Distinct(free) && Distinct(c) && id !in c && id < |where| && where[id] == Held
    requires forall k :: 0 <= k < |c| ==> c[k] < |where| && where[c[k]] == Chained(id)
    ensures Distinct(free + c + [id])
  {
    var free2 := free + c + [id];
    forall i, j | 0 <= i < j < |free2|
      ensures free2[i] != free2[j]
    {
      if j < |free| {
      } else if i < |free| {
        assert where[free2[i]] == Free;
      } else if j < |free| + |c| {
        assert free2[i] == c[i - |free|] && free2[j] == c[j - |free|];
      } else {
        assert free2[j] == id;
      }
    }
  }

  /** After a put of the held list `id` with chain `c`, the free queue agrees with the places. */
  lemma PutFreeQueueOk(ls: seq<ListState>, free: seq<nat>, where: seq<Place>, p: Pipeline, id: nat,
                       c: seq<nat>, where2: seq<Place>)
    requires PlacesOk(ls, free, where, p) && id < |ls| && where[id] == Held && c == ls[id].chain
    requires |where2| == |where|
    requires forall i :: 0 <= i < |where| ==> where2[i] == if i == id || i in c then Free else where[i]
    ensures var free2 := free + c + [id];
            && (forall k :: 0 <= k < |free2| ==> free2[k] < |ls|)
            && Distinct(free2)
            && (forall i :: 0 <= i < |where2| ==> (where2[i] == Free <==> i in free2))
  {
    HeldReleasable(ls, free, where, p, id);
    var free2 := free + c + [id];
    FreedDistinct(free, where, c, id);
    forall i | 0 <= i < |where2|
      ensures where2[i] == Free <==> i in free2
    {
      if i == id || i in c {
        assert i in free2;
      } else {
        assert i in free2 <==> i in free;
      }
    }
  }

  /** After a put of the held list `id` with chain `c`, the chains agree with the places. */
  lemma PutChainsOk(ls: seq<ListState>, free: seq<nat>, where: seq<Place>, p: Pipeline, id: nat,
                    c: seq<nat>, ls2: seq<ListState>, where2: seq<Place>)
    requires PlacesOk(ls, free, where, p) && id < |ls| && where[id] == Held && c == ls[id].chain
    requires |ls2| == |ls| && |where2| == |where|
    requires forall i :: 0 <= i < |ls| ==> ls2[i] == if i == id || i in c then Released(ls[i]) else ls[i]
    requires forall i :: 0 <= i < |where| ==> where2[i] == if i == id || i in c then Free else where[i]
    ensures forall i {:trigger ChainedOk(ls2, where2, i)} :: 0 <= i < |where2| ==> ChainedOk(ls2, where2, i)
    ensures forall h {:trigger HeadOk(ls2, where2, h)} :: 0 <= h < |where2| && IsHead(where2[h]) ==> HeadOk(ls2, where2, h)
  {
    HeldReleasable(ls, free, where, p, id);
    forall i | 0 <= i < |where2|
      ensures ChainedOk(ls2, where2, i)
    {
      assert ChainedOk(ls, where, i);
      if where2[i].Chained? {
        var h := where[i].head;
        assert h != id;
        NotChained(where, c, id, h);
      }
    }
    forall h | 0 <= h < |where2| && IsHead(where2[h])
      ensures HeadOk(ls2, where2, h)
    {
      assert h != id && h !in c;
      assert HeadOk(ls, where, h);
      assert ls2[h] == ls[h];
      forall k | 0 <= k < |ls[h].chain|
        ensures where2[ls[h].chain[k]] == Chained(h)
      {
        var x := ls[h].chain[k];
        assert where[x] == Chained(h);
        assert x != id;
        NotChained(where, c, id, x);
      }
    }
  }

  /** After a put of the held list `id` with chain `c`, the slots are untouched and the freed lists are empty. */
  lemma PutSlotsOk(ls: seq<ListState>, free: seq<nat>, where: seq<Place>, p: Pipeline, id: nat,
                   c: seq<nat>, ls2: seq<ListState>, where2: seq<Place>)
    requires PlacesOk(ls, free, where, p) && id < |ls| && where[id] == Held && c == ls[id].chain
    requires |ls2| == |ls| && |where2| == |where|
    requires forall i :: 0 <= i < |ls| ==> ls2[i] == if i == id || i in c then Released(ls[i]) else ls[i]
    requires forall i :: 0 <= i < |where| ==> where2[i] == if i == id || i in c then Free else where[i]
    ensures SlotOk(where2, p.active, Active) && SlotOk(where2, p.queued, Queued) && SlotOk(where2, p.pending, Pending)
    ensures forall i :: 0 <= i < |where2| && !IsHead(where2[i]) ==> !ls2[i].hasChain
    ensures forall i :: 0 <= i < |where2| && where2[i] == Free ==> ls2[i].fragments == [] && ls2[i].body0.numEntries == 0
  {
    HeldReleasable(ls, free, where, p, id);
  }

  /**
   * Putting back a list the caller holds frees it and its chain and keeps
   * every list in exactly one place.
   */
  lemma PutKeepsPlaces(ls: seq<ListState>, free: seq<nat>, where: seq<Place>, p: Pipeline, id: nat)
    requires PlacesOk(ls, free, where, p) && id < |ls| && where[id] == Held
    ensures PlacesOk(PutLists(ls, Some(id)), free + Freed(ls, Some(id)), PutWhere(where, ls, Some(id)), p)
  {
    HeldReleasable(ls, free, where, p, id);
    var c := ls[id].chain;
    var ls2, where2 := PutLists(ls, Some(id)), PutWhere(where, ls, Some(id));
    forall i | 0 <= i < |ls|
      ensures ls2[i] == if i == id || i in c then Released(ls[i]) else ls[i]
      ensures where2[i] == if i == id || i in c then Free else where[i]
    {
      PutListsAt(ls, id, i);
      PutWhereAt(where, ls, id, i);
    }
    PutFreeQueueOk(ls, free, where, p, id, c, where2);
    PutChainsOk(ls, free, where, p, id, c, ls2, where2);
    PutSlotsOk(ls, free, where, p, id, c, ls2, where2);
    ConcatAssoc(free, c, [id]);
  }

  /** Moving lists between the caller and the slots keeps every list in one place, once the slots agree with the new places. */
  lemma ReassignKeepsPlaces(ls: seq<ListState>, free: seq<nat>, where: seq<Place>, p: Pipeline,
                            where2: seq<Place>, p2: Pipeline)
    requires PlacesOk(ls, free, where, p) && |where2| == |where|
    requires forall i :: 0 <= i < |where| ==>
               (IsHead(where[i]) <==> IsHead(where2[i])) && (!IsHead(where[i]) ==> where2[i] == where[i])
    requires SlotOk(where2, p2.active, Active) && SlotOk(where2, p2.queued, Queued) && SlotOk(where2, p2.pending, Pending)
    ensures PlacesOk(ls, free, where2, p2)
  {
    forall i | 0 <= i < |where2|
      ensures ChainedOk(ls, where2, i)
    {
      assert ChainedOk(ls, where, i);
    }
    forall h | 0 <= h < |where2| && IsHead(where2[h])
      ensures HeadOk(ls, where2, h)
    {
      assert HeadOk(ls, where, h);
    }
  }

  /** Chaining a list the caller holds to another one it holds keeps every list in one place. */
  lemma AddChainKeepsPlaces(ls: seq<ListState>, free: seq<nat>, where: seq<Place>, p: Pipeline, head: nat, dl: nat)
    requires PlacesOk(ls, free, where, p) && head < |ls| && dl < |ls| && head != dl
    requires where[head] == Held && where[dl] == Held && !ls[dl].hasChain
    ensures PlacesOk(ls[head := ls[head].(hasChain := true, chain := ls[head].chain + [dl])], free,
                     where[dl := Chained(head)], p)
  {
    var ls2 := ls[head := ls[head].(hasChain := true, chain := ls[head].chain + [dl])];
    var where2 := where[dl := Chained(head)];
    AddChainChained(ls, free, where, p, head, dl);
    AddChainHeads(ls, free, where, p, head, dl);
    assert forall i {:trigger ChainedOk(ls2, where2, i)} :: 0 <= i < |where2| ==> ChainedOk(ls2, where2, i);
  }

  lemma AddChainChained(ls: seq<ListState>, free: seq<nat>, where: seq<Place>, p: Pipeline, head: nat, dl: nat)
    requires PlacesOk(ls, free, where, p) && head < |ls| && dl < |ls| && head != dl
    requires where[head] == Held && where[dl] == Held && !ls[dl].hasChain
    ensures var ls2, where2 := ls[head := ls[head].(hasChain := true, chain := ls[head].chain + [dl])], where[dl := Chained(head)];
            forall i :: 0 <= i < |where2| ==> ChainedOk(ls2, where2, i)
  {
    var ls2 := ls[head := ls[head].(hasChain := true, chain := ls[head].chain + [dl])];
    var where2 := where[dl := Chained(head)];
    assert HeadOk(ls, where, dl);
    forall i | 0 <= i < |where2|
      ensures ChainedOk(ls2, where2, i)
    {
      assert ChainedOk(ls, where, i);
      if i == dl {
        assert ls2[head].chain == ls[head].chain + [dl];
      } else if where[i].Chained? {
        assert where[i].head != dl;
      }
    }
  }

  lemma AddChainHeads(ls: seq<ListState>, free: seq<nat>, where: seq<Place>, p: Pipeline, head: nat, dl: nat)
    requires PlacesOk(ls, free, where, p) && head < |ls| && dl < |ls| && head != dl
    requires where[head] == Held && where[dl] == Held && !ls[dl].hasChain
    ensures var ls2, where2 := ls[head := ls[head].(hasChain := true, chain := ls[head].chain + [dl])], where[dl := Chained(head)];
            forall h :: 0 <= h < |where2| && IsHead(where2[h]) ==> HeadOk(ls2, where2, h)
  {
    var ls2 := ls[head := ls[head].(hasChain := true, chain := ls[head].chain + [dl])];
    var where2 := where[dl := Chained(head)];
    assert HeadOk(ls, where, head);
    assert dl !in ls[head].chain;
    assert HeadOk(ls, where, dl);
    forall h | 0 <= h < |where2| && IsHead(where2[h])
      ensures HeadOk(ls2, where2, h)
    {
      assert HeadOk(ls, where, h);
      if h != head {
        assert dl !in ls[h].chain;
      }
    }
  }


  /* ---------------------------------------------------------------------
   * The manager
   */

  /** No list is in two slots of `p`. */
  predicate SlotsDistinct(p: Pipeline)
  {
    && (p.active.Some? ==> p.active != p.queued && p.active != p.pending)
    && (p.queued.Some? ==> p.queued != p.pending)
  }

  /** Whether list `i` is in a slot of `p`. */
  predicate InSlots(p: Pipeline, i: nat)
  {
    p.active == Some(i) || p.queued == Some(i) || p.pending == Some(i)
  }

  /**
   * The places once the slots become `p`: the lists of `p` are in their
   * slots, and a list that was in a slot and is in none of `p` is out,
   * about to be put.
   */
  function Reslotted(where: seq<Place>, p: Pipeline): (r: seq<Place>)
    ensures |r| == |where|
  {
    seq(|where|, i requires 0 <= i < |where| =>
          if p.active == Some(i) then Active
          else if p.queued == Some(i) then Queued
          else if p.pending == Some(i) then Pending
          else if where[i].Active? || where[i].Queued? || where[i].Pending? then Held
          else where[i])
  }

  /** Moving lists in and out of the slots keeps every list in one place. */
  lemma ReslotKeepsPlaces(ls: seq<ListState>, free: seq<nat>, where: seq<Place>, p: Pipeline, p2: Pipeline)
    requires PlacesOk(ls, free, where, p) && SlotsDistinct(p2)
    requires forall i :: 0 <= i < |where| && InSlots(p2, i) ==> IsHead(where[i])
    requires p2.active.Some? ==> p2.active.value < |where|
    requires p2.queued.Some? ==> p2.queued.value < |where|
    requires p2.pending.Some? ==> p2.pending.value < |where|
    ensures PlacesOk(ls, free, Reslotted(where, p2), p2)
  {
    ReassignKeepsPlaces(ls, free, where, p, Reslotted(where, p2), p2);
  }

  /**
   * A commit keeps every list in one place: the committed list takes its
   * slot, and the list it displaces is out, ready to be put.
   */
  lemma CommitKeepsPlaces(ls: seq<ListState>, free: seq<nat>, where: seq<Place>, p: Pipeline,
                          dl: nat, singleshot: bool, bit: bool)
    requires PlacesOk(ls, free, where, p) && Ordered(p, singleshot) && (singleshot ==> p.active.None?)
    requires dl < |ls| && where[dl] == Held
    ensures var s := CommitStep(p, dl, singleshot, bit);
            && PlacesOk(ls, free, Reslotted(where, s.slots), s.slots)
            && (s.released.Some? ==> s.released.value < |ls| && Reslotted(where, s.slots)[s.released.value] == Held)
  {
    var s := CommitStep(p, dl, singleshot, bit);
    ReslotKeepsPlaces(ls, free, where, p, s.slots);
  }

  /**
   * A frame end keeps every list in one place: the lists move up the
   * slots, and the list that leaves them is out, ready to be put.
   */
  lemma FrameEndKeepsPlaces(ls: seq<ListState>, free: seq<nat>, where: seq<Place>, p: Pipeline,
                            singleshot: bool, bit: bool, queuedInternal: bool)
    requires PlacesOk(ls, free, where, p) && Ordered(p, singleshot)
    ensures var s := FrameEndStep(p, singleshot, bit, queuedInternal);
            && PlacesOk(ls, free, Reslotted(where, s.slots), s.slots)
            && (s.released.Some? ==> s.released.value < |ls| && Reslotted(where, s.slots)[s.released.value] == Held)
  {
    var s := FrameEndStep(p, singleshot, bit, queuedInternal);
    ReslotKeepsPlaces(ls, free, where, p, s.slots);
  }

  /** The list numbers 0 to n - 1, in order. */
  function Iota(n: nat): (r: seq<nat>)
    ensures |r| == n && forall k :: 0 <= k < n ==> r[k] == k
  {
    if n == 0 then [] else Iota(n - 1) + [n - 1]
  }

  /**
   * vsp1_dl_list_alloc: a fresh list and, in header mode, its header, or
   * None when the allocation of its memory fails (`dma` is the allocator's
   * answer: the bus address, or None). The header lives at HEADER_OFFSET in
   * the primary body's memory; it is zeroed but for descriptor 0, which
   * points at the primary body.
   */
  method ListAlloc(headerMode: bool, dma: Option<nat>) returns (dl: Option<ListState>, header: Option<Header>)
    ensures dma.None? <==> dl.None?
    ensures dl.Some? ==> var l := dl.value;
      && fresh(l.body0.entries) && l.body0.entries.Length == NUM_ENTRIES
      && l.body0.dma == dma.value && l.body0.numEntries == 0
      && l.body0.size == NUM_ENTRIES * ENTRY_BYTES + (if headerMode then RoundUp8(HEADER_BYTES) else 0)
      && (headerMode ==> header == Some(InitialHeader(dma.value)) && l.dma == dma.value + HEADER_OFFSET)
      && (!headerMode ==> header.None? && l.dma == 0)
      && l.fragments == [] && !l.hasChain && l.chain == [] && !l.internal
  {
    header := None;
    if dma.None? {
      return None, None;
    }
    var headerSize := if headerMode then RoundUp8(HEADER_BYTES) else 0;
    var entries := new Entry[NUM_ENTRIES](_ => Entry(0, 0));
    var body0 := Body0(entries, dma.value, NUM_ENTRIES * ENTRY_BYTES + headerSize, 0);
    if headerMode {
      dl := Some(ListState(body0, body0.dma + HEADER_OFFSET, [], false, [], false));
      header := Some(InitialHeader(body0.dma));
    } else {
      dl := Some(ListState(body0, 0, [], false, [], false));
    }
  }

  /** Shape of a list fixed at allocation. */
  ghost predicate ListOk(l: ListState, headerMode: bool)
  {
    && l.body0.entries.Length == NUM_ENTRIES && l.body0.numEntries <= NUM_ENTRIES
    && (headerMode ==> l.dma == l.body0.dma + HEADER_OFFSET)
  }

  /** Every list of a pool is well formed and has its own primary buffer. */
  ghost predicate ListsOk(ls: seq<ListState>, headerMode: bool)
  {
    && (forall i :: 0 <= i < |ls| ==> ListOk(ls[i], headerMode))
    && (forall i, j :: 0 <= i < j < |ls| ==> ls[i].body0.entries != ls[j].body0.entries)
  }

  /** Changing a list but not its primary buffer keeps the pool well formed if the list stays well formed. */
  lemma ListsOkUpdate(ls: seq<ListState>, headerMode: bool, id: nat, l: ListState)
    requires ListsOk(ls, headerMode) && id < |ls| && ListOk(l, headerMode)
    requires l.body0.entries == ls[id].body0.entries
    ensures ListsOk(ls[id := l], headerMode)
  {
  }

  /** A list has a header exactly in header mode, with eight descriptors, the first one at its primary body. */
  ghost predicate HeaderOk(h: Option<Header>, l: ListState, headerMode: bool)
  {
    && (headerMode <==> h.Some?)
    && (headerMode ==> |h.value.lists| == HEADER_LISTS && h.value.lists[0].addr == l.body0.dma)
  }

  /** The headers of a pool, one per list. */
  ghost predicate HeadersOk(hs: seq<Option<Header>>, ls: seq<ListState>, headerMode: bool)
  {
    |hs| == |ls| && forall i :: 0 <= i < |ls| ==> HeaderOk(hs[i], ls[i], headerMode)
  }

  /** Changing a list but not the address of its primary body keeps the headers well formed. */
  lemma HeadersOkUpdate(hs: seq<Option<Header>>, ls: seq<ListState>, headerMode: bool, id: nat, l: ListState)
    requires HeadersOk(hs, ls, headerMode) && id < |ls| && l.body0.dma == ls[id].body0.dma
    ensures HeadersOk(hs, ls[id := l], headerMode)
  {
    forall i | 0 <= i < |ls|
      ensures HeaderOk(hs[i], ls[id := l][i], headerMode)
    {
      assert HeaderOk(hs[i], ls[i], headerMode);
    }
  }

  /** `h2` is `h` rewritten in the same shape: present together, and a full header keeps its size and first address. */
  ghost predicate Reshaped(h: Option<Header>, h2: Option<Header>)
  {
    && (h.Some? <==> h2.Some?)
    && (h.Some? && |h.value.lists| == HEADER_LISTS ==>
          |h2.value.lists| == HEADER_LISTS && h2.value.lists[0].addr == h.value.lists[0].addr)
  }

  /** Rewriting headers in their shape keeps them well formed. */
  lemma HeadersOkReshaped(hs: seq<Option<Header>>, hs2: seq<Option<Header>>, ls: seq<ListState>, headerMode: bool)
    requires HeadersOk(hs, ls, headerMode) && |hs2| == |hs|
    requires forall i :: 0 <= i < |hs| ==> Reshaped(hs[i], hs2[i])
    ensures HeadersOk(hs2, ls, headerMode)
  {
    forall i | 0 <= i < |ls|
      ensures HeaderOk(hs2[i], ls[i], headerMode)
    {
      assert HeaderOk(hs[i], ls[i], headerMode) && Reshaped(hs[i], hs2[i]);
    }
  }

  /**
   * vsp1_dl_list_fill_header: header `h` of list `l` written from the
   * list's primary body and fragments and linked to `succ` (the header
   * address of the next list of the chain, None when its chain is empty)
   * unless the list is the last one of the chain. Eight descriptors hold
   * the primary body and at most seven fragments; the driver does not check
   * this, so it is the caller's obligation here.
   */
  method FillHeader(l: ListState, h: Header, isLast: bool, succ: Option<nat>, singleshot: bool) returns (r: Header)
    requires |h.lists| == HEADER_LISTS && |l.fragments| < HEADER_LISTS
    ensures r == FilledFor(h, l, LinkFor(succ, isLast, singleshot, l.dma))
  {
    ghost var frags := Extents(l.fragments);
    ghost var link := LinkFor(succ, isLast, singleshot, l.dma);
    var hdr := h.lists[0 := HeaderList(l.body0.numEntries * ENTRY_BYTES, h.lists[0].addr)];
    var numLists := 0;
    while numLists < |l.fragments|
      invariant 0 <= numLists <= |l.fragments|
      invariant hdr == Filled(h, l.body0.numEntries, frags[..numLists], link).lists
    {
      var dlb := l.fragments[numLists];
      numLists := numLists + 1;
      hdr := hdr[numLists := HeaderList(dlb.numEntries * ENTRY_BYTES, dlb.dma)];
    }
    var next := h.nextHeader;
    var flags: bv32;
    if succ.Some? && !isLast {
      next, flags := succ.value, DLH_AUTO_START;
    } else if !singleshot {
      next, flags := l.dma, DLH_INT_ENABLE | DLH_AUTO_START;
    } else {
      flags := DLH_INT_ENABLE;
    }
    assert frags[..numLists] == frags;
    r := Header(numLists, hdr, next, flags);
  }

  /** The ring `ring` consists of lists of the pool with full headers and room in them for their fragments. */
  ghost predicate RingFits(ls: seq<ListState>, hs: seq<Option<Header>>, ring: seq<nat>)
  {
    forall k :: 0 <= k < |ring| ==>
         && ring[k] < |ls| && ring[k] < |hs|
         && hs[ring[k]].Some? && |hs[ring[k]].value.lists| == HEADER_LISTS
         && |ls[ring[k]].fragments| < HEADER_LISTS
  }

  /** `exts[j]` describes at most seven fragments for each of the first `k` lists of a ring. */
  ghost predicate ExtentsFit(exts: seq<seq<Extent>>, k: nat)
  {
    k <= |exts| && forall j :: 0 <= j < k ==> |exts[j]| < HEADER_LISTS
  }

  /**
   * The headers once the first `k` lists of the ring have been filled, each
   * with its ring link; `exts[j]` are the fragments of the j-th list.
   */
  ghost function FilledRing(ls: seq<ListState>, hs: seq<Option<Header>>, ring: seq<nat>, exts: seq<seq<Extent>>, k: nat, singleshot: bool): (r: seq<Option<Header>>)
    requires RingFits(ls, hs, ring) && k <= |ring| && ExtentsFit(exts, k)
    ensures |r| == |hs|
  {
    if k == 0 then hs
    else
      var c := ring[k - 1];
      FilledRing(ls, hs, ring, exts, k - 1, singleshot)[c := Some(Filled(hs[c].value, ls[c].body0.numEntries, exts[k - 1], RingLink(ls, ring, k - 1, singleshot)))]
  }

  /** Filling list k of the ring with header `h` advances the pass by one list. */
  lemma FilledRingStep(ls: seq<ListState>, hs: seq<Option<Header>>, ring: seq<nat>, exts: seq<seq<Extent>>, k: nat, singleshot: bool, succ: Option<nat>, h: Header)
    requires RingFits(ls, hs, ring) && k < |ring| && ExtentsFit(exts, k + 1)
    requires succ == if k + 1 == |ring| then None else Some(ls[ring[k + 1]].dma)
    requires h == Filled(hs[ring[k]].value, ls[ring[k]].body0.numEntries, exts[k], LinkFor(succ, k + 1 == |ring|, singleshot, ls[ring[k]].dma))
    ensures FilledRing(ls, hs, ring, exts, k + 1, singleshot) == FilledRing(ls, hs, ring, exts, k, singleshot)[ring[k] := Some(h)]
  {
  }

  /** A list of the ring is filled with its own ring link once the pass has gone past it. */
  lemma {:induction false} FilledRingInside(ls: seq<ListState>, hs: seq<Option<Header>>, ring: seq<nat>, exts: seq<seq<Extent>>, k: nat, singleshot: bool, j: nat)
    requires RingFits(ls, hs, ring) && Distinct(ring) && j < k <= |ring| && ExtentsFit(exts, k)
    ensures FilledRing(ls, hs, ring, exts, k, singleshot)[ring[j]]
            == Some(Filled(hs[ring[j]].value, ls[ring[j]].body0.numEntries, exts[j], RingLink(ls, ring, j, singleshot)))
  {
    if j < k - 1 {
      FilledRingInside(ls, hs, ring, exts, k - 1, singleshot, j);
      assert ring[j] != ring[k - 1];
    }
  }

  /** A header no list of the first `k` of the ring owns is as it was. */
  lemma {:induction false} FilledRingOutside(ls: seq<ListState>, hs: seq<Option<Header>>, ring: seq<nat>, exts: seq<seq<Extent>>, k: nat, singleshot: bool, i: nat)
    requires RingFits(ls, hs, ring) && k <= |ring| && ExtentsFit(exts, k) && i < |hs|
    requires forall j :: 0 <= j < k ==> ring[j] != i
    ensures FilledRing(ls, hs, ring, exts, k, singleshot)[i] == hs[i]
  {
    if k > 0 {
      FilledRingOutside(ls, hs, ring, exts, k - 1, singleshot, i);
    }
  }

  /** Filling keeps every header in its shape. */
  lemma {:induction false} FilledRingReshaped(ls: seq<ListState>, hs: seq<Option<Header>>, ring: seq<nat>, exts: seq<seq<Extent>>, k: nat, singleshot: bool, i: nat)
    requires RingFits(ls, hs, ring) && k <= |ring| && ExtentsFit(exts, k) && i < |hs|
    ensures Reshaped(hs[i], FilledRing(ls, hs, ring, exts, k, singleshot)[i])
  {
    if k > 0 {
      FilledRingReshaped(ls, hs, ring, exts, k - 1, singleshot, i);
    }
  }

  /** What the whole pass leaves: every header in its shape, the ring's filled, the others as they were. */
  lemma FilledRingFacts(ls: seq<ListState>, hs: seq<Option<Header>>, ring: seq<nat>, exts: seq<seq<Extent>>, singleshot: bool)
    requires RingFits(ls, hs, ring) && Distinct(ring) && ExtentsFit(exts, |ring|)
    ensures var r := FilledRing(ls, hs, ring, exts, |ring|, singleshot);
      && (forall i :: 0 <= i < |hs| ==> Reshaped(hs[i], r[i]))
      && (forall j :: 0 <= j < |ring| ==>
            r[ring[j]] == Some(Filled(hs[ring[j]].value, ls[ring[j]].body0.numEntries, exts[j], RingLink(ls, ring, j, singleshot))))
      && (forall i :: 0 <= i < |hs| && i !in ring ==> r[i] == hs[i])
  {
    forall i | 0 <= i < |hs|
      ensures Reshaped(hs[i], FilledRing(ls, hs, ring, exts, |ring|, singleshot)[i])
    {
      FilledRingReshaped(ls, hs, ring, exts, |ring|, singleshot, i);
    }
    forall j | 0 <= j < |ring|
      ensures FilledRing(ls, hs, ring, exts, |ring|, singleshot)[ring[j]]
              == Some(Filled(hs[ring[j]].value, ls[ring[j]].body0.numEntries, exts[j], RingLink(ls, ring, j, singleshot)))
    {
      FilledRingInside(ls, hs, ring, exts, |ring|, singleshot, j);
    }
    forall i | 0 <= i < |hs| && i !in ring
      ensures FilledRing(ls, hs, ring, exts, |ring|, singleshot)[i] == hs[i]
    {
      FilledRingOutside(ls, hs, ring, exts, |ring|, singleshot, i);
    }
  }

  /** The fragments of the lists of a pool. */
  ghost function FragmentObjects(ls: seq<ListState>): set<object>
  {
    set i, b | 0 <= i < |ls| && b in ls[i].fragments :: b as object
  }

  /** The fragments of each list of a ring, as fill_header reads them. */
  ghost function RingExtents(ls: seq<ListState>, ring: seq<nat>): (r: seq<seq<Extent>>)
    reads FragmentObjects(ls)
    requires forall k :: 0 <= k < |ring| ==> ring[k] < |ls|
    ensures |r| == |ring|
    ensures forall j :: 0 <= j < |ring| ==> r[j] == Extents(ls[ring[j]].fragments)
  {
    if ring == [] then []
    else
      var c := ring[|ring| - 1];
      assert forall b :: b in ls[c].fragments ==> b in FragmentObjects(ls);
      RingExtents(ls, ring[..|ring| - 1]) + [Extents(ls[c].fragments)]
  }

  /** One step of the header pass: fill_header on list k of the ring, linked to list k + 1 unless it is the last. */
  method FillNext(ls: seq<ListState>, hs: seq<Option<Header>>, ring: seq<nat>, ghost exts: seq<seq<Extent>>, singleshot: bool,
                  k: nat, r: seq<Option<Header>>) returns (r2: seq<Option<Header>>)
    requires RingFits(ls, hs, ring) && Distinct(ring) && k < |ring| && ExtentsFit(exts, k + 1)
    requires exts[k] == Extents(ls[ring[k]].fragments) && r == FilledRing(ls, hs, ring, exts, k, singleshot)
    ensures r2 == FilledRing(ls, hs, ring, exts, k + 1, singleshot)
  {
    var c := ring[k];
    FilledRingOutside(ls, hs, ring, exts, k, singleshot, c);
    var last := k + 1 == |ring|;
    var succ := if last then None else Some(ls[ring[k + 1]].dma);
    var h := FillHeader(ls[c], r[c].value, last, succ, singleshot);
    FilledRingStep(ls, hs, ring, exts, k, singleshot, succ, h);
    r2 := r[c := Some(h)];
  }

  /**
   * The header pass of vsp1_dl_list_commit: the headers of list `id` and
   * of each list of its chain filled in ring order, from the fragments
   * `exts` of each, each linked to the next one and the last one to the end
   * of the chain (FilledRingFacts spells this out).
   */
  method FillRing(ls: seq<ListState>, hs: seq<Option<Header>>, id: nat, singleshot: bool, ghost exts: seq<seq<Extent>>)
    returns (r: seq<Option<Header>>)
    requires id < |ls| && RingFits(ls, hs, Ring(ls, id)) && Distinct(Ring(ls, id)) && |exts| == |Ring(ls, id)|
    requires forall j :: 0 <= j < |exts| ==> exts[j] == Extents(ls[Ring(ls, id)[j]].fragments)
    ensures ExtentsFit(exts, |exts|) && r == FilledRing(ls, hs, Ring(ls, id), exts, |exts|, singleshot)
  {
    var ring := [id] + ls[id].chain;
    assert ring == Ring(ls, id);
    assert ExtentsFit(exts, |exts|);
    r := hs;
    var k := 0;
    while k < |ring|
      invariant 0 <= k <= |ring|
      invariant r == FilledRing(ls, hs, ring, exts, k, singleshot)
    {
      r := FillNext(ls, hs, ring, exts, singleshot, k, r);
      k := k + 1;
    }
  }

  /** The whole pass keeps the pool's headers well formed. */
  lemma FilledRingHeadersOk(ls: seq<ListState>, hs: seq<Option<Header>>, ring: seq<nat>, exts: seq<seq<Extent>>, headerMode: bool, singleshot: bool)
    requires RingFits(ls, hs, ring) && Distinct(ring) && ExtentsFit(exts, |ring|) && HeadersOk(hs, ls, headerMode)
    ensures HeadersOk(FilledRing(ls, hs, ring, exts, |ring|, singleshot), ls, headerMode)
  {
    FilledRingFacts(ls, hs, ring, exts, singleshot);
    HeadersOkReshaped(hs, FilledRing(ls, hs, ring, exts, |ring|, singleshot), ls, headerMode);
  }

  /** Whether a frame end makes the queued list active: continuous mode, the update taken, a list queued. */
  function Promotes(p: Pipeline, singleshot: bool, bit: bool): bool
  {
    !singleshot && !UpdatePending(p, bit) && p.queued.Some?
  }

  /** The lists once frame end has cleared the internal flag of the queued list it makes active. */
  function FrameEndCleared(ls: seq<ListState>, p: Pipeline, singleshot: bool, bit: bool): (r: seq<ListState>)
    ensures |r| == |ls|
  {
    if Promotes(p, singleshot, bit) && p.queued.value < |ls| then
      ls[p.queued.value := ls[p.queued.value].(internal := false)]
    else ls
  }

  /** A put of one held list leaves every other held list held. */
  lemma PutKeepsOtherHeld(ls: seq<ListState>, free: seq<nat>, where: seq<Place>, p: Pipeline, id: nat, x: nat)
    requires PlacesOk(ls, free, where, p) && id < |ls| && x < |ls| && id != x
    requires where[id] == Held && where[x] == Held
    ensures PutWhere(where, ls, Some(id))[x] == Held
  {
    HeldReleasable(ls, free, where, p, id);
    PutWhereAt(where, ls, id, x);
    NotChained(where, ls[id].chain, id, x);
  }

  /** The ring of a held list consists of distinct lists: the list, then its chain. */
  lemma HeldRing(ls: seq<ListState>, free: seq<nat>, where: seq<Place>, p: Pipeline, id: nat)
    requires PlacesOk(ls, free, where, p) && id < |ls| && where[id] == Held
    ensures Distinct(Ring(ls, id)) && Ring(ls, id)[0] == id
    ensures forall k :: 0 <= k < |Ring(ls, id)| ==> Ring(ls, id)[k] < |ls| && where[Ring(ls, id)[k]] != Free
  {
    HeldReleasable(ls, free, where, p, id);
    var ring := Ring(ls, id);
    forall i, j | 0 <= i < j < |ring|
      ensures ring[i] != ring[j]
    {
      if i > 0 {
        assert ring[i] == ls[id].chain[i - 1] && ring[j] == ls[id].chain[j - 1];
      }
    }
  }

  /**
   * The lists and headers the prealloc loop of vsp1_dlm_create has made
   * from the allocator's answers `alloc`: every allocation succeeded, and
   * each list is empty, unchained, not internal, with its primary body at
   * the address the allocator gave and, in header mode, its header in the
   * state the allocation leaves.
   */
  ghost predicate Preallocated(ls: seq<ListState>, hs: seq<Option<Header>>, alloc: seq<Option<nat>>, headerMode: bool)
  {
    && |ls| <= |alloc| && |hs| == |ls|
    && forall k :: 0 <= k < |ls| ==>
         && alloc[k].Some? && ls[k].body0.dma == alloc[k].value
         && ls[k].body0.numEntries == 0 && ls[k].fragments == []
         && !ls[k].hasChain && ls[k].chain == [] && !ls[k].internal
         && hs[k] == (if headerMode then Some(InitialHeader(alloc[k].value)) else None)
  }

  /** One more successful allocation extends what the prealloc loop has made. */
  lemma PreallocatedStep(ls: seq<ListState>, hs: seq<Option<Header>>, alloc: seq<Option<nat>>, headerMode: bool, l: ListState, h: Option<Header>)
    requires Preallocated(ls, hs, alloc, headerMode) && |ls| < |alloc| && alloc[|ls|].Some?
    requires l.body0.dma == alloc[|ls|].value && l.body0.numEntries == 0 && l.fragments == []
    requires !l.hasChain && l.chain == [] && !l.internal
    requires h == (if headerMode then Some(InitialHeader(alloc[|ls|].value)) else None)
    ensures Preallocated(ls + [l], hs + [h], alloc, headerMode)
  {
    var ls2, hs2 := ls + [l], hs + [h];
    forall k | 0 <= k < |ls2|
      ensures alloc[k].Some? && ls2[k].body0.dma == alloc[k].value
    {
      if k < |ls| {
        assert ls2[k] == ls[k];
      }
    }
  }

  /** The internal flag of the queued list (false when nothing is queued). */
  function QueuedInternal(ls: seq<ListState>, p: Pipeline): bool
  {
    p.queued.Some? && p.queued.value < |ls| && ls[p.queued.value].internal
  }

  /** Re-slotting the lists with the slots they are in changes no place. */
  lemma ReslottedSame(ls: seq<ListState>, free: seq<nat>, where: seq<Place>, p: Pipeline)
    requires PlacesOk(ls, free, where, p)
    ensures Reslotted(where, p) == where
  {
    var r := Reslotted(where, p);
    forall i | 0 <= i < |where|
      ensures r[i] == where[i]
    {
      assert SlotOk(where, p.active, Active) && SlotOk(where, p.queued, Queued) && SlotOk(where, p.pending, Pending);
    }
  }

  /**
   * The effects of a manager beyond its own fields: the lists programmed
   * into the hardware (vsp1_dl_list_hw_enqueue), oldest first; whether the
   * garbage-collection work has been scheduled; whether the WARN_ON of the
   * continuous commit (a dropped pending list marked internal) has fired;
   * and the fragments whose memory has been freed, oldest first.
   */
  datatype Effects = Effects(programmed: seq<nat>, gcScheduled: bool, warned: bool, freed: seq<Body>)

  class Manager {
    const index: nat
    const headerMode: bool
    const singleshot: bool

    /** The pool, indexed by list number. */
    var lists: seq<ListState>
    var free: seq<nat>
    var active: Option<nat>
    var queued: Option<nat>
    var pending: Option<nat>
    var gcFragments: seq<Body>
    /** The headers of the pool's lists, in header mode; they live in the lists' primary-body memory. */
    var headers: seq<Option<Header>>

    /** Where each list of the pool is. */
    ghost var where: seq<Place>
    /** What the manager has done outside its own fields. */
    ghost var effects: Effects

    function Slots(): Pipeline
      reads this
    {
      Pipeline(active, queued, pending)
    }

    /** The pool's lists are well formed, each has its own primary buffer and, in header mode, its header. */
    ghost predicate Structural()
      reads this
    {
      ListsOk(lists, headerMode) && HeadersOk(headers, lists, headerMode)
    }

    ghost predicate Valid()
      reads this
    {
      Structural() && PlacesOk(lists, free, where, Slots()) && Ordered(Slots(), singleshot)
    }

    /** Whether `id` and the lists chained to it can be put back. */
    ghost predicate Releasable(id: nat)
      reads this
      requires id < |lists|
    {
      lists[id].hasChain ==>
        && Distinct(lists[id].chain) && id !in lists[id].chain
        && (forall k :: 0 <= k < |lists[id].chain| ==>
              lists[id].chain[k] < |lists| && !lists[lists[id].chain[k]].hasChain)
    }

    /** An empty manager: the allocation of vsp1_dlm_create before its prealloc loop. */
    constructor Init(index: nat, uapi: bool)
      ensures Valid()
      ensures this.index == index
      ensures headerMode == !(index == 0 && !uapi) && singleshot == uapi
      ensures lists == [] && free == [] && where == [] && Slots() == Pipeline(None, None, None) && gcFragments == []
      ensures effects == Effects([], false, false, [])
    {
      this.index := index;
      headerMode := !(index == 0 && !uapi);
      singleshot := uapi;
      lists := [];
      free := [];
      active, queued, pending := None, None, None;
      gcFragments := [];
      headers := [];
      where := [];
      effects := Effects([], false, false, []);
    }

    /**
     * vsp1_dlm_create: a manager whose free queue holds `prealloc` fresh
     * lists, or null when the manager's own allocation (`dlmOk` false) or
     * one of the list allocations fails. `alloc[i]` is what the allocator
     * returns for the i-th list.
     */
    static method Create(index: nat, uapi: bool, prealloc: nat, dlmOk: bool, alloc: seq<Option<nat>>) returns (m: Manager?)
      requires |alloc| >= prealloc
      ensures m == null <==> !dlmOk || exists i :: 0 <= i < prealloc && alloc[i].None?
      ensures m != null ==>
        && fresh(m) && m.Valid()
        && m.index == index && m.headerMode == !(index == 0 && !uapi) && m.singleshot == uapi
        && |m.lists| == prealloc && m.free == Iota(prealloc)
        && Preallocated(m.lists, m.headers, alloc, m.headerMode)
        && m.Slots() == Pipeline(None, None, None) && m.gcFragments == []
        && m.effects == Effects([], false, false, [])
    {
      if !dlmOk {
        return null;
      }
      m := new Manager.Init(index, uapi);
      var i := 0;
      while i < prealloc
        invariant 0 <= i <= prealloc
        invariant fresh(m) && m.Valid()
        invariant m.index == index && m.headerMode == !(index == 0 && !uapi) && m.singleshot == uapi
        invariant |m.lists| == i && m.free == Iota(i) && Preallocated(m.lists, m.headers, alloc, m.headerMode)
        invariant m.Slots() == Pipeline(None, None, None) && m.gcFragments == []
        invariant m.effects == Effects([], false, false, [])
        modifies m
      {
        var ok := m.Preallocate(alloc);
        if !ok {
          return null;
        }
        i := i + 1;
      }
    }

    /**
     * One round of the preallocation loop of vsp1_dlm_create: allocates the
     * next list, whose allocator answer is `alloc[|lists|]`, and adds it to
     * the pool; false when the allocation fails, changing nothing.
     */
    method Preallocate(alloc: seq<Option<nat>>) returns (ok: bool)
      requires Valid() && |lists| < |alloc| && Preallocated(lists, headers, alloc, headerMode)
      modifies this
      ensures ok == alloc[|old(lists)|].Some?
      ensures !ok ==> lists == old(lists) && free == old(free) && headers == old(headers)
      ensures ok ==> Valid() && |lists| == |old(lists)| + 1 && free == old(free) + [|old(lists)|]
                     && Preallocated(lists, headers, alloc, headerMode)
      ensures Slots() == old(Slots()) && gcFragments == old(gcFragments) && effects == old(effects)
    {
      var dl, header := ListAlloc(headerMode, alloc[|lists|]);
      if dl.None? {
        return false;
      }
      PreallocatedStep(lists, headers, alloc, headerMode, dl.value, header);
      Append(dl.value, header);
      ok := true;
    }

    /** The list_add_tail of vsp1_dlm_create: a freshly allocated list joins the pool at the tail of the free queue. */
    method Append(l: ListState, h: Option<Header>)
      requires Valid() && ListOk(l, headerMode) && HeaderOk(h, l, headerMode) && !l.hasChain && l.fragments == [] && l.body0.numEntries == 0
      requires forall i :: 0 <= i < |lists| ==> lists[i].body0.entries != l.body0.entries
      modifies this
      ensures Valid()
      ensures lists == old(lists) + [l] && headers == old(headers) + [h]
      ensures free == old(free) + [|old(lists)|] && where == old(where) + [Free]
      ensures Slots() == old(Slots()) && gcFragments == old(gcFragments)
      ensures effects == old(effects)
    {
      AppendKeepsPlaces(lists, free, where, Slots(), l);
      var n := |lists|;
      lists := lists + [l];
      headers := headers + [h];
      free := free + [n];
      where := where + [Free];
    }

    /**
     * vsp1_dl_list_get: hands the head of the free queue to the caller with an
     * empty chain, or returns None, changing nothing, when the queue is empty.
     */
    method Get() returns (dl: Option<nat>)
      requires Valid()
      modifies this
      ensures Valid()
      ensures old(free) == [] ==> dl.None? && free == old(free) && lists == old(lists) && where == old(where)
      ensures old(free) != [] ==>
        && dl == Some(old(free[0])) && free == old(free[1..])
        && lists == old(lists)[dl.value := old(lists[dl.value]).(chain := [])]
        && where == old(where)[dl.value := Held]
      ensures Slots() == old(Slots()) && gcFragments == old(gcFragments)
      ensures effects == old(effects) && headers == old(headers)
    {
      if free == [] {
        return None;
      }
      GetKeepsPlaces(lists, free, where, Slots());
      var id := free[0];
      var l2 := lists[id].(chain := []);
      ListsOkUpdate(lists, headerMode, id, l2);
      HeadersOkUpdate(headers, lists, headerMode, id, l2);
      free, lists, where := free[1..], lists[id := l2], where[id := Held];
      dl := Some(id);
    }

    /**
     * The release of one list by __vsp1_dl_list_put once its chain is
     * released: it loses its chain flag and its fragments (which move to
     * the head of the garbage-collection queue, whose work is then
     * scheduled), its primary body is emptied, and it goes to the tail of
     * the free queue.
     */
    method Release(i: nat)
      requires Structural() && i < |lists|
      modifies this
      ensures Structural()
      ensures lists == old(lists)[i := Released(old(lists[i]))]
      ensures free == old(free) + [i]
      ensures gcFragments == old(lists[i].fragments) + old(gcFragments)
      ensures effects == old(effects).(gcScheduled := old(effects.gcScheduled) || old(lists[i].fragments) != [])
      ensures where == old(where) && Slots() == old(Slots()) && headers == old(headers)
    {
      var l := lists[i];
      if l.fragments != [] {
        gcFragments := l.fragments + gcFragments;
        effects := effects.(gcScheduled := true);
      }
      ListsOkUpdate(lists, headerMode, i, Released(l));
      HeadersOkUpdate(headers, lists, headerMode, i, Released(l));
      lists := lists[i := l.(hasChain := false, fragments := [], body0 := l.body0.(numEntries := 0))];
      free := free + [i];
    }

    /** The loop of __vsp1_dl_list_put over a chain of distinct lists. */
    method ReleaseChain(chain: seq<nat>)
      requires Structural() && Distinct(chain)
      requires forall k :: 0 <= k < |chain| ==> chain[k] < |lists|
      modifies this
      ensures Structural()
      ensures lists == ReleasedAll(old(lists), chain)
      ensures free == old(free) + chain
      ensures gcFragments == FragmentsOf(old(lists), chain) + old(gcFragments)
      ensures effects == old(effects).(gcScheduled := old(effects.gcScheduled) || |gcFragments| > |old(gcFragments)|)
      ensures where == old(where) && Slots() == old(Slots()) && headers == old(headers)
    {
      var k := 0;
      while k < |chain|
        invariant 0 <= k <= |chain|
        invariant Structural() && |lists| == old(|lists|)
        invariant lists == ReleasedAll(old(lists), chain[..k])
        invariant free == old(free) + chain[..k]
        invariant gcFragments == FragmentsOf(old(lists), chain[..k]) + old(gcFragments)
        invariant effects == old(effects).(gcScheduled := old(effects.gcScheduled) || |gcFragments| > |old(gcFragments)|)
        invariant where == old(where) && Slots() == old(Slots()) && headers == old(headers)
      {
        ReleaseNext(old(lists), chain, k);
        ConcatAssoc(old(lists)[chain[k]].fragments, FragmentsOf(old(lists), chain[..k]), old(gcFragments));
        k := k + 1;
      }
      assert chain[..k] == chain;
    }

    /** One round of the loop of ReleaseChain: the release of `chain[k]` once the lists before it are released. */
    method ReleaseNext(ghost ls0: seq<ListState>, chain: seq<nat>, k: nat)
      requires Structural() && Distinct(chain) && k < |chain|
      requires forall j :: 0 <= j < |chain| ==> chain[j] < |ls0|
      requires lists == ReleasedAll(ls0, chain[..k])
      modifies this
      ensures Structural()
      ensures lists == ReleasedAll(ls0, chain[..k + 1])
      ensures free == old(free) + [chain[k]] && chain[..k + 1] == chain[..k] + [chain[k]]
      ensures gcFragments == ls0[chain[k]].fragments + old(gcFragments)
      ensures FragmentsOf(ls0, chain[..k + 1]) == ls0[chain[k]].fragments + FragmentsOf(ls0, chain[..k])
      ensures effects == old(effects).(gcScheduled := old(effects.gcScheduled) || ls0[chain[k]].fragments != [])
      ensures where == old(where) && Slots() == old(Slots()) && headers == old(headers)
    {
      ReleaseStep(ls0, chain, k);
      FragmentsStep(ls0, chain, k);
      Release(chain[k]);
    }

    /**
     * __vsp1_dl_list_put: releases the chain of list `id`, then `id` itself.
     * The lists of a chain head no chain of their own, so the recursive put
     * of each of them is the release of that one list.
     */
    method PutLocked(id: nat)
      requires Structural() && id < |lists| && Releasable(id)
      modifies this
      ensures Structural()
      ensures lists == PutLists(old(lists), Some(id))
      ensures free == old(free) + Freed(old(lists), Some(id))
      ensures gcFragments == GcOf(old(lists), Some(id)) + old(gcFragments)
      ensures effects == old(effects).(gcScheduled := old(effects.gcScheduled) || |gcFragments| > |old(gcFragments)|)
      ensures where == old(where) && Slots() == old(Slots()) && headers == old(headers)
    {
      var chain := ChainOf(lists[id]);
      var ids := chain + [id];
      assert Distinct(ids) by {
        assert forall j :: 0 <= j < |chain| ==> ids[j] == chain[j];
      }
      assert FragmentsOf(lists, ids) == lists[id].fragments + FragmentsOf(lists, chain) by {
        assert ids[..|ids| - 1] == chain;
      }
      assert Freed(lists, Some(id)) == ids;
      assert PutLists(lists, Some(id)) == ReleasedAll(lists, ids);
      ReleaseChain(ids);
    }

    /**
     * vsp1_dl_list_put: gives a list the caller holds back to the pool,
     * with its chain; nothing happens for None (the NULL list).
     */
    method Put(dl: Option<nat>)
      requires Valid() && (dl.Some? ==> dl.value < |lists| && where[dl.value] == Held)
      modifies this
      ensures Valid()
      ensures lists == PutLists(old(lists), dl)
      ensures free == old(free) + Freed(old(lists), dl)
      ensures where == PutWhere(old(where), old(lists), dl)
      ensures gcFragments == GcOf(old(lists), dl) + old(gcFragments)
      ensures effects == old(effects).(gcScheduled := old(effects.gcScheduled) || |gcFragments| > |old(gcFragments)|)
      ensures Slots() == old(Slots()) && headers == old(headers)
    {
      if dl.None? {
        return;
      }
      var id := dl.value;
      HeldReleasable(lists, free, where, Slots(), id);
      PutKeepsPlaces(lists, free, where, Slots(), id);
      where := PutWhere(where, lists, dl);
      PutLocked(id);
    }

    /**
     * vsp1_dl_list_write: appends a register write to the primary body of a
     * list the caller holds. The 256-entry capacity is not checked by the
     * driver; it is the caller's obligation here.
     */
    method ListWrite(id: nat, reg: U32, data: U32)
      requires Valid() && id < |lists| && where[id] == Held
      requires lists[id].body0.numEntries < NUM_ENTRIES
      modifies this, lists[id].body0.entries
      ensures Valid()
      ensures |lists| == |old(lists)|
      ensures lists[id] == old(lists[id]).(body0 := old(lists[id].body0).(numEntries := old(lists[id].body0.numEntries) + 1))
      ensures Body0Contents(lists[id].body0) == old(Body0Contents(lists[id].body0)) + [Entry(reg, data)]
      ensures forall j :: 0 <= j < |lists| && j != id ==>
                lists[j] == old(lists[j]) && Body0Contents(lists[j].body0) == old(Body0Contents(lists[j].body0))
      ensures free == old(free) && where == old(where) && Slots() == old(Slots()) && gcFragments == old(gcFragments)
      ensures effects == old(effects) && headers == old(headers)
    {
      var l := lists[id];
      StoreEntry(l.body0.entries, l.body0.numEntries, reg, data);
      SetList(id, l.(body0 := l.body0.(numEntries := l.body0.numEntries + 1)));
    }

    /**
     * vsp1_dl_list_add_fragment: in header mode appends a fragment to a list
     * the caller holds and returns 0; a headerless manager refuses with
     * -EINVAL and changes nothing.
     */
    method AddFragment(id: nat, b: Body) returns (r: int)
      requires Valid() && id < |lists| && where[id] == Held
      modifies this
      ensures Valid()
      ensures !headerMode ==> r == -EINVAL && lists == old(lists)
      ensures headerMode ==> r == 0 && lists == old(lists)[id := old(lists[id]).(fragments := old(lists[id].fragments) + [b])]
      ensures free == old(free) && where == old(where) && Slots() == old(Slots()) && gcFragments == old(gcFragments)
      ensures effects == old(effects) && headers == old(headers)
    {
      if !headerMode {
        return -EINVAL;
      }
      SetList(id, lists[id].(fragments := lists[id].fragments + [b]));
      r := 0;
    }

    /**
     * vsp1_dl_list_add_chain: in header mode appends list `dl` to the chain
     * of `head`, both held by the caller, sets the chain flag of `head` and
     * returns 0; a headerless manager refuses with -EINVAL and changes
     * nothing. The chain node of `dl` becomes its link in the chain of
     * `head`, so `dl` must not head a chain of its own.
     */
    method AddChain(head: nat, dl: nat) returns (r: int)
      requires Valid() && head < |lists| && dl < |lists| && head != dl
      requires where[head] == Held && where[dl] == Held && !lists[dl].hasChain
      modifies this
      ensures Valid()
      ensures !headerMode ==> r == -EINVAL && lists == old(lists) && where == old(where)
      ensures headerMode ==> && r == 0
                             && lists == old(lists)[head := old(lists[head]).(hasChain := true, chain := old(lists[head].chain) + [dl])]
                             && where == old(where)[dl := Chained(head)]
      ensures free == old(free) && Slots() == old(Slots()) && gcFragments == old(gcFragments)
      ensures effects == old(effects) && headers == old(headers)
    {
      if !headerMode {
        return -EINVAL;
      }
      var l2 := lists[head].(hasChain := true, chain := lists[head].chain + [dl]);
      AddChainKeepsPlaces(lists, free, where, Slots(), head, dl);
      ListsOkUpdate(lists, headerMode, head, l2);
      HeadersOkUpdate(headers, lists, headerMode, head, l2);
      lists, where := lists[head := l2], where[dl := Chained(head)];
      r := 0;
    }

    /** Whether every list of the ring of `id` has a full header with room in it for the list's fragments. */
    ghost predicate Fits(id: nat)
      reads this
      requires id < |lists|
    {
      RingFits(lists, headers, Ring(lists, id))
    }

    /**
     * The header pass of vsp1_dl_list_commit on the pool: fills the headers
     * of list `id`, which the caller holds, and of its chain, and nothing else.
     */
    method FillHeaders(id: nat)
      requires Valid() && headerMode && id < |lists| && where[id] == Held && Fits(id)
      modifies this
      ensures Valid()
      ensures headers == old(FilledRing(lists, headers, Ring(lists, id), RingExtents(lists, Ring(lists, id)), |Ring(lists, id)|, singleshot))
      ensures lists == old(lists) && free == old(free) && where == old(where) && Slots() == old(Slots())
      ensures gcFragments == old(gcFragments) && effects == old(effects)
    {
      HeldRing(lists, free, where, Slots(), id);
      ghost var exts := RingExtents(lists, Ring(lists, id));
      var r := FillRing(lists, headers, id, singleshot, exts);
      FilledRingHeadersOk(lists, headers, Ring(lists, id), exts, headerMode, singleshot);
      SetHeaders(r);
    }

    /** Replaces the headers of the lists by well-formed ones. */
    method SetHeaders(hs: seq<Option<Header>>)
      requires Valid() && HeadersOk(hs, lists, headerMode)
      modifies this
      ensures Valid() && headers == hs
      ensures lists == old(lists) && free == old(free) && where == old(where) && Slots() == old(Slots())
      ensures gcFragments == old(gcFragments) && effects == old(effects)
    {
      headers := hs;
    }

    /** Sets the internal flag of a list that is not on the free queue. */
    method SetInternal(id: nat, internal: bool)
      requires Valid() && id < |lists| && where[id] != Free
      modifies this
      ensures Valid()
      ensures lists == old(lists)[id := old(lists[id]).(internal := internal)]
      ensures free == old(free) && where == old(where) && Slots() == old(Slots()) && gcFragments == old(gcFragments)
      ensures effects == old(effects) && headers == old(headers)
    {
      SetList(id, lists[id].(internal := internal));
    }

    /**
     * Replaces the state of a list that is not on the free queue by one with
     * the same primary buffer and the same chain.
     */
    method SetList(id: nat, l: ListState)
      requires Valid() && id < |lists| && where[id] != Free && ListOk(l, headerMode)
      requires l.body0.entries == lists[id].body0.entries && l.body0.dma == lists[id].body0.dma
      requires l.hasChain == lists[id].hasChain && l.chain == lists[id].chain
      modifies this
      ensures Valid()
      ensures lists == old(lists)[id := l]
      ensures free == old(free) && where == old(where) && Slots() == old(Slots()) && gcFragments == old(gcFragments)
      ensures effects == old(effects) && headers == old(headers)
    {
      ChainsFrame(lists, lists[id := l], free, where, Slots());
      ListsOkUpdate(lists, headerMode, id, l);
      HeadersOkUpdate(headers, lists, headerMode, id, l);
      lists := lists[id := l];
    }

    /**
     * The assignments of the pipeline slots under the manager's lock, with
     * the places of the lists that move in or out of the slots.
     */
    method SetSlots(a: Option<nat>, q: Option<nat>, pd: Option<nat>)
      requires Structural() && Ordered(Pipeline(a, q, pd), singleshot)
      requires PlacesOk(lists, free, Reslotted(where, Pipeline(a, q, pd)), Pipeline(a, q, pd))
      modifies this
      ensures Valid() && Slots() == Pipeline(a, q, pd) && where == Reslotted(old(where), Slots())
      ensures lists == old(lists) && free == old(free) && gcFragments == old(gcFragments)
      ensures effects == old(effects) && headers == old(headers)
    {
      active, queued, pending := a, q, pd;
      where := Reslotted(where, Slots());
    }

    /**
     * vsp1_dl_list_commit_singleshot: programs the hardware with list `id`
     * and makes it active. The caller guarantees that the hardware is idle,
     * which here means that no list is active.
     */
    method CommitSingleshot(id: nat)
      requires Valid() && singleshot && active.None? && id < |lists| && where[id] == Held
      modifies this
      ensures Valid()
      ensures Slots() == CommitStep(old(Slots()), id, true, false).slots
      ensures where == Reslotted(old(where), Slots())
      ensures effects == old(effects).(programmed := old(effects.programmed) + [id])
      ensures lists == old(lists) && free == old(free) && gcFragments == old(gcFragments) && headers == old(headers)
    {
      CommitKeepsPlaces(lists, free, where, Slots(), id, true, false);
      effects := effects.(programmed := effects.programmed + [id]);
      SetSlots(Some(id), queued, pending);
    }

    /**
     * vsp1_dl_list_commit_continuous: when the hardware has not yet taken
     * the queued list (`bit` is the update bit it reports), list `id`
     * replaces the pending one, with a warning if that one was internal;
     * otherwise the hardware is programmed with `id`, which replaces the
     * queued list. The list replaced is put back to the pool.
     */
    method CommitContinuous(id: nat, bit: bool)
      requires Valid() && !singleshot && id < |lists| && where[id] == Held
      modifies this
      ensures Valid()
      ensures var s := CommitStep(old(Slots()), id, false, bit);
        && Slots() == s.slots
        && lists == PutLists(old(lists), s.released)
        && free == old(free) + Freed(old(lists), s.released)
        && where == PutWhere(Reslotted(old(where), s.slots), old(lists), s.released)
        && gcFragments == GcOf(old(lists), s.released) + old(gcFragments)
      ensures var s := CommitStep(old(Slots()), id, false, bit);
        && effects.programmed == old(effects.programmed) + OptSeq(s.programmed)
        && effects.gcScheduled == (old(effects.gcScheduled) || |gcFragments| > |old(gcFragments)|)
        && effects.warned == (old(effects.warned) || (s.released.Some? && UpdatePending(old(Slots()), bit) && old(lists[s.released.value].internal)))
        && effects.freed == old(effects.freed)
      ensures headers == old(headers)
    {
      ghost var s := CommitStep(Slots(), id, false, bit);
      CommitKeepsPlaces(lists, free, where, Slots(), id, false, bit);
      var displaced: Option<nat>;
      if queued.Some? && bit {
        if pending.Some? && lists[pending.value].internal {
          effects := effects.(warned := true);
        }
        displaced := pending;
        SetSlots(active, queued, Some(id));
      } else {
        effects := effects.(programmed := effects.programmed + [id]);
        displaced := queued;
        SetSlots(active, Some(id), pending);
      }
      assert displaced == s.released;
      Put(displaced);
    }

    /**
     * vsp1_dl_list_commit: in header mode fills the headers of list `id`,
     * which the caller holds, and of its chain; records `internal` in the
     * list; then, under the lock, commits it in single-shot or continuous
     * mode (`bit` is the update bit the hardware reports).
     */
    method Commit(id: nat, internal: bool, bit: bool)
      requires Valid() && id < |lists| && where[id] == Held
      requires singleshot ==> active.None?
      requires headerMode ==> Fits(id)
      modifies this
      ensures Valid()
      ensures headerMode ==>
        headers == old(FilledRing(lists, headers, Ring(lists, id), RingExtents(lists, Ring(lists, id)), |Ring(lists, id)|, singleshot))
      ensures !headerMode ==> headers == old(headers)
      ensures var s := CommitStep(old(Slots()), id, singleshot, bit);
              var marked := old(lists)[id := old(lists[id]).(internal := internal)];
        && Slots() == s.slots
        && lists == PutLists(marked, s.released)
        && free == old(free) + Freed(marked, s.released)
        && where == PutWhere(Reslotted(old(where), s.slots), marked, s.released)
        && gcFragments == GcOf(marked, s.released) + old(gcFragments)
      ensures var s := CommitStep(old(Slots()), id, singleshot, bit);
              var marked := old(lists)[id := old(lists[id]).(internal := internal)];
        && effects.programmed == old(effects.programmed) + OptSeq(s.programmed)
        && effects.gcScheduled == (old(effects.gcScheduled) || |gcFragments| > |old(gcFragments)|)
        && effects.warned == (old(effects.warned) || (s.released.Some? && UpdatePending(old(Slots()), bit) && marked[s.released.value].internal))
        && effects.freed == old(effects.freed)
    {
      if headerMode {
        FillHeaders(id);
      }
      CommitLocked(id, internal, bit);
    }

    /**
     * The part of vsp1_dl_list_commit after the header pass: records
     * `internal` in the list and commits it in single-shot or continuous mode.
     */
    method CommitLocked(id: nat, internal: bool, bit: bool)
      requires Valid() && id < |lists| && where[id] == Held
      requires singleshot ==> active.None?
      modifies this
      ensures Valid()
      ensures var s := CommitStep(old(Slots()), id, singleshot, bit);
              var marked := old(lists)[id := old(lists[id]).(internal := internal)];
        && Slots() == s.slots
        && lists == PutLists(marked, s.released)
        && free == old(free) + Freed(marked, s.released)
        && where == PutWhere(Reslotted(old(where), s.slots), marked, s.released)
        && gcFragments == GcOf(marked, s.released) + old(gcFragments)
      ensures var s := CommitStep(old(Slots()), id, singleshot, bit);
              var marked := old(lists)[id := old(lists[id]).(internal := internal)];
        && effects.programmed == old(effects.programmed) + OptSeq(s.programmed)
        && effects.gcScheduled == (old(effects.gcScheduled) || |gcFragments| > |old(gcFragments)|)
        && effects.warned == (old(effects.warned) || (s.released.Some? && UpdatePending(old(Slots()), bit) && marked[s.released.value].internal))
        && effects.freed == old(effects.freed)
      ensures headers == old(headers)
    {
      SetInternal(id, internal);
      if singleshot {
        CommitSingleshot(id);
      } else {
        CommitContinuous(id, bit);
      }
    }

    /** Frame end in single-shot mode: the active list is put back and the frame reported complete. */
    method FrameEndSingleshot() returns (flags: bv32)
      requires Valid() && singleshot
      modifies this
      ensures Valid()
      ensures var s := FrameEndStep(old(Slots()), true, false, false);
        && flags == s.flags && Slots() == s.slots
        && lists == PutLists(old(lists), s.released)
        && free == old(free) + Freed(old(lists), s.released)
        && where == PutWhere(Reslotted(old(where), s.slots), old(lists), s.released)
        && gcFragments == GcOf(old(lists), s.released) + old(gcFragments)
      ensures effects == old(effects).(gcScheduled := old(effects.gcScheduled) || |gcFragments| > |old(gcFragments)|)
      ensures headers == old(headers)
    {
      FrameEndKeepsPlaces(lists, free, where, Slots(), true, false, false);
      var a := active;
      SetSlots(None, queued, pending);
      Put(a);
      flags := FRAME_END_COMPLETED;
    }

    /**
     * Frame end in continuous mode once the hardware has taken the queued
     * list, whose internal flag is already cleared: the queued list becomes
     * active and the former active one is put back; a pending list is
     * programmed and becomes the queued one.
     */
    method FrameEndAdvance() returns (flags: bv32)
      requires Valid() && !singleshot
      modifies this
      ensures Valid()
      ensures var s := FrameEndStep(old(Slots()), false, false, false);
        && flags == s.flags && Slots() == s.slots
        && lists == PutLists(old(lists), s.released)
        && free == old(free) + Freed(old(lists), s.released)
        && where == PutWhere(Reslotted(old(where), s.slots), old(lists), s.released)
        && gcFragments == GcOf(old(lists), s.released) + old(gcFragments)
      ensures var s := FrameEndStep(old(Slots()), false, false, false);
        && effects.programmed == old(effects.programmed) + OptSeq(s.programmed)
        && effects.gcScheduled == (old(effects.gcScheduled) || |gcFragments| > |old(gcFragments)|)
        && effects.warned == old(effects.warned) && effects.freed == old(effects.freed)
      ensures headers == old(headers)
    {
      var released;
      released, flags := AdvanceSlots();
      Put(released);
    }

    /**
     * The slot moves of a frame end that advances the lists: the list they
     * release is left held for the caller to put back.
     */
    method AdvanceSlots() returns (released: Option<nat>, flags: bv32)
      requires Valid() && !singleshot
      modifies this
      ensures Valid()
      ensures var s := FrameEndStep(old(Slots()), false, false, false);
        && flags == s.flags && Slots() == s.slots && released == s.released
        && where == Reslotted(old(where), s.slots)
        && effects == old(effects).(programmed := old(effects.programmed) + OptSeq(s.programmed))
      ensures released.Some? ==> released.value < |lists| && where[released.value] == Held
      ensures lists == old(lists) && free == old(free) && gcFragments == old(gcFragments)
      ensures headers == old(headers)
    {
      FrameEndKeepsPlaces(lists, free, where, Slots(), false, false, false);
      flags := 0;
      released := None;
      var a, q, pd := active, queued, pending;
      if queued.Some? {
        released := active;
        a, q := queued, None;
        flags := FRAME_END_COMPLETED;
      }
      if pending.Some? {
        effects := effects.(programmed := effects.programmed + [pending.value]);
        q, pd := pending, None;
      }
      SetSlots(a, q, pd);
    }

    /**
     * vsp1_dlm_irq_frame_end: in single-shot mode puts the active list back
     * and reports completion. In continuous mode nothing happens while the
     * hardware has not taken the queued list (`bit` is the update bit it
     * reports); otherwise the queued list, its internal flag reported and
     * cleared, becomes active and the former active list is put back, and a
     * pending list is programmed into the hardware and becomes the queued one.
     */
    method FrameEnd(bit: bool) returns (flags: bv32)
      requires Valid()
      modifies this
      ensures Valid()
      ensures var s := FrameEndStep(old(Slots()), singleshot, bit, QueuedInternal(old(lists), old(Slots())));
              var cleared := FrameEndCleared(old(lists), old(Slots()), singleshot, bit);
        && flags == s.flags && Slots() == s.slots
        && lists == PutLists(cleared, s.released)
        && free == old(free) + Freed(cleared, s.released)
        && where == PutWhere(Reslotted(old(where), s.slots), cleared, s.released)
        && gcFragments == GcOf(cleared, s.released) + old(gcFragments)
      ensures var s := FrameEndStep(old(Slots()), singleshot, bit, QueuedInternal(old(lists), old(Slots())));
        && effects.programmed == old(effects.programmed) + OptSeq(s.programmed)
        && effects.gcScheduled == (old(effects.gcScheduled) || |gcFragments| > |old(gcFragments)|)
        && effects.warned == old(effects.warned) && effects.freed == old(effects.freed)
      ensures headers == old(headers)
    {
      ghost var qi := QueuedInternal(lists, Slots());
      if singleshot {
        assert FrameEndCleared(lists, Slots(), singleshot, bit) == lists;
        assert FrameEndStep(Slots(), singleshot, bit, qi) == FrameEndStep(Slots(), true, false, false);
        flags := FrameEndSingleshot();
        return;
      }
      if UpdatePending(Slots(), bit) {
        ReslottedSame(lists, free, where, Slots());
        assert FrameEndStep(Slots(), singleshot, bit, QueuedInternal(lists, Slots())) == Step(Slots(), None, None, 0);
        assert FrameEndCleared(lists, Slots(), singleshot, bit) == lists;
        assert GcOf(lists, None) + gcFragments == gcFragments;
        flags := 0;
        return;
      }
      assert FrameEndCleared(lists, Slots(), singleshot, bit) == FrameEndCleared(lists, Slots(), false, false);
      assert FrameEndStep(Slots(), singleshot, bit, qi) == FrameEndStep(Slots(), false, false, qi);
      assert FrameEndStep(Slots(), false, false, qi).programmed == FrameEndStep(Slots(), false, false, false).programmed;
      flags := FrameEndTake();
    }

    /**
     * Frame end in continuous mode once the hardware has taken the queued
     * list: that list's internal flag is reported and cleared, then the
     * lists advance through the slots.
     */
    method FrameEndTake() returns (flags: bv32)
      requires Valid() && !singleshot
      modifies this
      ensures Valid()
      ensures var s := FrameEndStep(old(Slots()), false, false, QueuedInternal(old(lists), old(Slots())));
              var cleared := FrameEndCleared(old(lists), old(Slots()), false, false);
        && flags == s.flags && Slots() == s.slots
        && lists == PutLists(cleared, s.released)
        && free == old(free) + Freed(cleared, s.released)
        && where == PutWhere(Reslotted(old(where), s.slots), cleared, s.released)
        && gcFragments == GcOf(cleared, s.released) + old(gcFragments)
      ensures var s := FrameEndStep(old(Slots()), false, false, false);
        && effects.programmed == old(effects.programmed) + OptSeq(s.programmed)
        && effects.gcScheduled == (old(effects.gcScheduled) || |gcFragments| > |old(gcFragments)|)
        && effects.warned == old(effects.warned) && effects.freed == old(effects.freed)
      ensures headers == old(headers)
    {
      var internal := ClearQueuedInternal();
      flags := FrameEndAdvance();
      flags := flags | internal;
    }

    /** Reports and clears the internal flag of the queued list, if any. */
    method ClearQueuedInternal() returns (internal: bv32)
      requires Valid() && !singleshot
      modifies this
      ensures Valid()
      ensures internal == if QueuedInternal(old(lists), old(Slots())) then FRAME_END_INTERNAL else 0
      ensures lists == FrameEndCleared(old(lists), old(Slots()), false, false)
      ensures free == old(free) && where == old(where) && Slots() == old(Slots()) && gcFragments == old(gcFragments)
      ensures effects == old(effects) && headers == old(headers)
    {
      internal := 0;
      if queued.Some? {
        if lists[queued.value].internal {
          internal := FRAME_END_INTERNAL;
        }
        SetInternal(queued.value, false);
      }
    }

    /** Puts back two distinct held lists, or fewer when either is None. */
    method PutTwo(x: Option<nat>, y: Option<nat>)
      requires Valid()
      requires x.Some? ==> x.value < |lists| && where[x.value] == Held
      requires y.Some? ==> y.value < |lists| && where[y.value] == Held
      requires x.Some? && y.Some? ==> x.value != y.value
      modifies this
      ensures Valid()
      ensures var l1 := PutLists(old(lists), x);
        && lists == PutLists(l1, y)
        && free == old(free) + Freed(old(lists), x) + Freed(l1, y)
        && where == PutWhere(PutWhere(old(where), old(lists), x), l1, y)
        && gcFragments == GcOf(l1, y) + GcOf(old(lists), x) + old(gcFragments)
      ensures effects == old(effects).(gcScheduled := old(effects.gcScheduled) || |gcFragments| > |old(gcFragments)|)
      ensures Slots() == old(Slots()) && headers == old(headers)
    {
      if x.Some? && y.Some? {
        PutKeepsOtherHeld(lists, free, where, Slots(), x.value, y.value);
      }
      ghost var l0, g0 := lists, gcFragments;
      Put(x);
      ghost var l1 := lists;
      Put(y);
      ConcatAssoc(GcOf(l1, y), GcOf(l0, x), g0);
    }

    /** Puts back three distinct held lists, or fewer when some are None. */
    method PutThree(x: Option<nat>, y: Option<nat>, z: Option<nat>)
      requires Valid()
      requires x.Some? ==> x.value < |lists| && where[x.value] == Held
      requires y.Some? ==> y.value < |lists| && where[y.value] == Held
      requires z.Some? ==> z.value < |lists| && where[z.value] == Held
      requires x.Some? && y.Some? ==> x.value != y.value
      requires x.Some? && z.Some? ==> x.value != z.value
      requires y.Some? && z.Some? ==> y.value != z.value
      modifies this
      ensures Valid()
      ensures var l1 := PutLists(old(lists), x);
              var l2 := PutLists(l1, y);
        && lists == PutLists(l2, z)
        && free == old(free) + Freed(old(lists), x) + Freed(l1, y) + Freed(l2, z)
        && where == PutWhere(PutWhere(PutWhere(old(where), old(lists), x), l1, y), l2, z)
        && gcFragments == GcOf(l2, z) + GcOf(l1, y) + GcOf(old(lists), x) + old(gcFragments)
      ensures effects == old(effects).(gcScheduled := old(effects.gcScheduled) || |gcFragments| > |old(gcFragments)|)
      ensures Slots() == old(Slots()) && headers == old(headers)
    {
      if x.Some? && y.Some? {
        PutKeepsOtherHeld(lists, free, where, Slots(), x.value, y.value);
      }
      if x.Some? && z.Some? {
        PutKeepsOtherHeld(lists, free, where, Slots(), x.value, z.value);
      }
      ghost var l0, g0 := lists, gcFragments;
      Put(x);
      ghost var l1 := lists;
      PutTwo(y, z);
      ConcatAssoc(GcOf(PutLists(l1, y), z) + GcOf(l1, y), GcOf(l0, x), g0);
    }

    /**
     * vsp1_dlm_reset: puts back the active, queued and pending lists and
     * empties the three slots.
     */
    method Reset()
      requires Valid()
      modifies this
      ensures Valid() && Slots() == Pipeline(None, None, None)
      ensures var l1 := PutLists(old(lists), old(active));
              var l2 := PutLists(l1, old(queued));
        && lists == PutLists(l2, old(pending))
        && free == old(free) + Freed(old(lists), old(active)) + Freed(l1, old(queued)) + Freed(l2, old(pending))
        && where == PutWhere(PutWhere(PutWhere(Reslotted(old(where), Slots()), old(lists), old(active)),
                                      l1, old(queued)), l2, old(pending))
        && gcFragments == GcOf(l2, old(pending)) + GcOf(l1, old(queued)) + GcOf(old(lists), old(active))
                          + old(gcFragments)
      ensures effects == old(effects).(gcScheduled := old(effects.gcScheduled) || |gcFragments| > |old(gcFragments)|)
      ensures headers == old(headers)
    {
      var a, q, pd := active, queued, pending;
      ReslotKeepsPlaces(lists, free, where, Slots(), Pipeline(None, None, None));
      SetSlots(None, None, None);
      PutThree(a, q, pd);
    }

    /**
     * vsp1_dlm_fragments_free, the garbage-collection work: frees the
     * fragments of the garbage-collection queue from its head, so the
     * fragments put back last are freed first, until the queue is empty.
     */
    method FragmentsFree()
      requires Valid()
      modifies this
      ensures Valid() && gcFragments == []
      ensures effects == old(effects).(freed := old(effects.freed) + old(gcFragments))
      ensures lists == old(lists) && free == old(free) && where == old(where) && Slots() == old(Slots())
      ensures headers == old(headers)
    {
      while gcFragments != []
        invariant Valid()
        invariant effects == old(effects).(freed := effects.freed)
        invariant effects.freed + gcFragments == old(effects.freed) + old(gcFragments)
        invariant lists == old(lists) && free == old(free) && where == old(where) && Slots() == old(Slots())
        invariant headers == old(headers)
        decreases |gcFragments|
      {
        var dlb := gcFragments[0];
        ConcatAssoc(effects.freed, [dlb], gcFragments[1..]);
        assert [dlb] + gcFragments[1..] == gcFragments;
        gcFragments := gcFragments[1..];
        effects := effects.(freed := effects.freed + [dlb]);
      }
    }
  }
}
