/**
 * The buffer handling of the Allwinner A10 CMOS sensor interface driver
 * (drivers/media/platform/sunxi/sun4i-csi/sun4i_dma.c): buffers handed in
 * by videobuf2 wait in a FIFO list, the two double-buffering slots of the
 * hardware each hold at most one of them, and completed buffers are handed
 * back to videobuf2, which the model records in a ghost log. Buffers are
 * named by numbers; register writes and the media pipeline are left out, and
 * the outcomes of the calls into other subsystems are inputs.
 */
module Sun4iDma {
  import opened Common

  /** CSI_MAX_BUFFER of sun4i_csi.h: the number of double-buffering slots. */
  const MAX_BUFFER: nat := 2

  /** ENOIOCTLCMD of include/linux/errno.h: a sub-device without the operation. */
  const ENOIOCTLCMD: int := 515

  /** The states a buffer is handed back to videobuf2 in. */
  datatype BufState = Done | Queued | Error

  /** One vb2_buffer_done call: the buffer, its state and the sequence number stamped on it, if any. */
  datatype Completion = Completion(buf: nat, state: BufState, sequence: Option<nat>)

  /** Handing back every buffer of `bufs`, in order, in `state`, without a sequence number. */
  function ReturnedAll(bufs: seq<nat>, state: BufState): (r: seq<Completion>)
    ensures |r| == |bufs|
  {
    if |bufs| == 0 then [] else ReturnedAll(bufs[..|bufs| - 1], state) + [Completion(bufs[|bufs| - 1], state, None)]
  }

  /** The buffers a list of completions hands back. */
  function BufsOf(cs: seq<Completion>): (r: seq<nat>)
    ensures |r| == |cs|
    ensures forall i :: 0 <= i < |cs| ==> r[i] == cs[i].buf
  {
    if |cs| == 0 then [] else BufsOf(cs[..|cs| - 1]) + [cs[|cs| - 1].buf]
  }

  /** Handing back a list of buffers hands back exactly those buffers, in their order. */
  lemma {:induction false} ReturnedAllBufs(bufs: seq<nat>, state: BufState)
    ensures BufsOf(ReturnedAll(bufs, state)) == bufs
    ensures forall i :: 0 <= i < |bufs| ==> ReturnedAll(bufs, state)[i] == Completion(bufs[i], state, None)
  {
    if |bufs| > 0 {
      var init := bufs[..|bufs| - 1];
      ReturnedAllBufs(init, state);
      assert ReturnedAll(bufs, state)[..|bufs| - 1] == ReturnedAll(init, state);
      assert bufs == init + [bufs[|bufs| - 1]];
    }
  }

  /**
   * The slot csi_buffer_flip completes and refills: the one the hardware is
   * not using, which the DBS bit of the buffer control register names.
   */
  function FlipSlot(dbs: bool): (next: nat)
    ensures next < MAX_BUFFER
    ensures next != (if dbs then 1 else 0)
  {
    if dbs then 0 else 1
  }

  /**
   * csi_queue_setup's buffer count: at least three buffers.
   */
  function SetupCount(nbuffers: nat): (n: nat)
    ensures n >= 3 && n >= nbuffers
    ensures nbuffers >= 3 ==> n == nbuffers
  {
    if nbuffers < 3 then 3 else nbuffers
  }

  /** The state of struct sun4i_csi this file manages. */
  class Csi {
    /** buf_list: the buffers videobuf2 queued and no slot holds yet, oldest first. */
    var bufList: seq<nat>
    /** current_buf[]: the buffer each double-buffering slot holds (an array embedded in the structure). */
    var current: seq<Option<nat>>
    /** sequence: the frame counter (an unsigned 32-bit value). */
    var sequence: nat
    /** The sizeimage of each plane of the current format (num_planes entries). */
    var sizeimage: seq<nat>
    /** Whether the capture is running (CSI_CPT_CTRL_REG). */
    ghost var capturing: bool
    /** The buffers handed back to videobuf2, oldest first. */
    ghost var returned: seq<Completion>

    ghost predicate Valid()
      reads this
    {
      |current| == MAX_BUFFER && sequence < U32_LIMIT
    }

    /** Every buffer the driver holds: the list, then the slots in order. */
    ghost function Owned(): seq<nat>
      reads this
      requires Valid()
    {
      bufList + Held(current)
    }

    /** csi_dma_register: an empty list and empty slots, for a format with the given plane sizes. */
    constructor (planeSizes: seq<nat>)
      ensures Valid() && bufList == [] && current == [None, None] && sequence == 0
      ensures sizeimage == planeSizes && returned == [] && !capturing
    {
      bufList := [];
      current := [None, None];
      sequence := 0;
      sizeimage := planeSizes;
      capturing := false;
      returned := [];
    }

    /**
     * csi_queue_setup: raises the buffer count to at least 3 and reports
     * one plane per plane of the format, each of its sizeimage.
     */
    method QueueSetup(nbuffers: nat, sizes: array<nat>) returns (nb: nat, nplanes: nat, rc: int)
      requires |sizeimage| <= sizes.Length
      modifies sizes
      ensures rc == 0 && nb == SetupCount(nbuffers) && nplanes == |sizeimage|
      ensures sizes[..nplanes] == sizeimage && sizes[nplanes..] == old(sizes[nplanes..])
    {
      nb := SetupCount(nbuffers);
      nplanes := |sizeimage|;
      for i := 0 to nplanes
        invariant sizes[..i] == sizeimage[..i] && sizes[nplanes..] == old(sizes[nplanes..])
      {
        sizes[i] := sizeimage[i];
        assert sizes[..i + 1] == sizes[..i] + [sizes[i]];
      }
      rc := 0;
    }

    /**
     * csi_buffer_prepare: `planeSize` gives the size of each plane of the
     * buffer. The planes are checked in order; the first one smaller than
     * the format's sizeimage fails with -EINVAL, and the planes before it
     * have had their payload set to their sizeimage already.
     */
    method BufferPrepare(planeSize: seq<nat>, payload: array<nat>) returns (rc: int)
      requires |sizeimage| <= |planeSize| && |sizeimage| <= payload.Length
      modifies payload
      ensures rc == 0 <==> forall i :: 0 <= i < |sizeimage| ==> planeSize[i] >= sizeimage[i]
      ensures rc == 0 ==> payload[..|sizeimage|] == sizeimage && payload[|sizeimage|..] == old(payload[|sizeimage|..])
      ensures rc != 0 ==> rc == -EINVAL && exists k :: (
        && 0 <= k < |sizeimage| && planeSize[k] < sizeimage[k]
        && (forall i :: 0 <= i < k ==> planeSize[i] >= sizeimage[i])
        && payload[..k] == sizeimage[..k] && payload[k..] == old(payload[k..]))
    {
      var n := |sizeimage|;
      for i := 0 to n
        invariant forall j :: 0 <= j < i ==> planeSize[j] >= sizeimage[j]
        invariant payload[..i] == sizeimage[..i] && payload[i..] == old(payload[i..])
      {
        if planeSize[i] < sizeimage[i] {
          return -EINVAL;
        }
        payload[i] := sizeimage[i];
        assert payload[..i + 1] == payload[..i] + [payload[i]];
      }
      rc := 0;
    }

    /**
     * csi_buffer_fill_slot: the step FillSlotStep describes. No buffer is
     * lost or duplicated.
     */
    method FillSlot(slot: nat) returns (rc: int)
      requires Valid() && slot < MAX_BUFFER
      modifies this`bufList, this`current
      ensures Valid()
      ensures Fill(rc, bufList, current) == FillSlotStep(old(bufList), old(current), slot)
      ensures multiset(Owned()) == multiset(old(Owned()))
    {
      FillSlotKeeps(bufList, current, slot);
      var f := FillSlotStep(bufList, current, slot);
      if current[slot].Some? {
        return -EINVAL;
      }
      if bufList == [] {
        current := current[slot := None];
        return -ENOMEM;
      }
      SetQueue(f.list, f.slots);
      rc := 0;
    }

    /** Replaces the list and the slots. */
    method SetQueue(list: seq<nat>, slots: seq<Option<nat>>)
      requires Valid() && |slots| == MAX_BUFFER
      modifies this`bufList, this`current
      ensures Valid() && bufList == list && current == slots && Owned() == list + Held(slots)
    {
      bufList, current := list, slots;
    }

    /** csi_buffer_fill_all: the fills FillAllStep describes. */
    method FillAll() returns (rc: int)
      requires Valid()
      modifies this`bufList, this`current
      ensures Valid()
      ensures Fill(rc, bufList, current) == FillAllStep(old(bufList), old(current))
    {
      for slot := 0 to MAX_BUFFER
        invariant Valid()
        invariant slot == 0 ==> bufList == old(bufList) && current == old(current)
        invariant slot == 1 ==> Fill(0, bufList, current) == FillSlotStep(old(bufList), old(current), 0)
        invariant slot == 2 ==> Fill(0, bufList, current) == FillAllStep(old(bufList), old(current))
      {
        rc := FillSlot(slot);
        if rc != 0 {
          return;
        }
      }
      rc := 0;
    }

    /**
     * csi_buffer_mark_done: an empty slot is left alone; otherwise its
     * buffer is handed back done, stamped with `sequence`, and the slot is
     * emptied.
     */
    method MarkDone(slot: nat, sequence: nat)
      requires Valid() && slot < MAX_BUFFER
      modifies this`current, this`returned
      ensures Valid()
      ensures old(current[slot]).None? ==> current == old(current) && returned == old(returned)
      ensures old(current[slot]).Some? ==>
        && current == old(current)[slot := None]
        && returned == old(returned) + [Completion(old(current[slot]).value, Done, Some(sequence))]
    {
      if current[slot].None? {
        return;
      }
      returned := returned + [Completion(current[slot].value, Done, Some(sequence))];
      current := current[slot := None];
    }

    /**
     * csi_buffer_flip: the slot the hardware is not using (DBS names the
     * one it is) is completed and refilled; the other slot is untouched.
     */
    method Flip(dbs: bool, sequence: nat) returns (rc: int)
      requires Valid()
      modifies this`bufList, this`current, this`returned
      ensures Valid()
      ensures var next := FlipSlot(dbs);
        && current[1 - next] == old(current[1 - next])
        && returned == old(returned) + FlipDone(old(current[next]), sequence)
        && (old(bufList) == [] ==> rc == -ENOMEM && bufList == [] && current[next].None?)
        && (old(bufList) != [] ==> rc == 0 && bufList == old(bufList)[1..] && current[next] == Some(old(bufList)[0]))
    {
      var next := FlipSlot(dbs);
      MarkDone(next, sequence);
      rc := FillSlot(next);
    }

    /** csi_buffer_queue: the buffer joins the tail of the list; a buffer not already held keeps the held ones distinct. */
    method BufferQueue(b: nat)
      requires Valid()
      modifies this`bufList
      ensures Valid() && bufList == old(bufList) + [b]
      ensures b !in old(Owned()) && Distinct(old(Owned())) ==> Distinct(Owned())
    {
      bufList := bufList + [b];
      if b !in old(Owned()) && Distinct(old(Owned())) {
        DistinctInsert(old(bufList), Held(current), b);
      }
    }

    /**
     * return_all_buffers: every waiting buffer, oldest first, then the
     * buffer of each occupied slot is handed back in `state`; the list and
     * the slots end up empty.
     */
    method ReturnAllBuffers(state: BufState)
      requires Valid()
      modifies this`bufList, this`current, this`returned
      ensures Valid() && bufList == [] && current == [None, None]
      ensures returned == old(returned) + ReturnedAll(old(Owned()), state)
    {
      ghost var r0, a, h := returned, bufList, Held(current);
      ReturnList(state);
      ReturnSlots(state);
      assert returned == (r0 + ReturnedAll(a, state)) + ReturnedAll(h, state);
      ReturnedAllAppend(a, h, state);
      assert returned == r0 + ReturnedAll(a + h, state);
    }

    /** The first loop of return_all_buffers: the waiting buffers, oldest first. */
    method ReturnList(state: BufState)
      requires Valid()
      modifies this`bufList, this`returned
      ensures Valid() && bufList == []
      ensures returned == old(returned) + ReturnedAll(old(bufList), state)
    {
      ghost var list0 := bufList;
      var k := 0;
      while bufList != []
        invariant Valid()
        invariant k <= |list0| && bufList == list0[k..]
        invariant returned == old(returned) + ReturnedAll(list0[..k], state)
        decreases |bufList|
      {
        returned := returned + [Completion(bufList[0], state, None)];
        ReturnedAllSnoc(list0[..k], bufList[0], state);
        assert list0[..k + 1] == list0[..k] + [bufList[0]];
        bufList := bufList[1..];
        k := k + 1;
      }
      assert list0[..k] == list0;
    }

    /** The second loop of return_all_buffers: the buffer of each occupied slot, in slot order. */
    method ReturnSlots(state: BufState)
      requires Valid()
      modifies this`current, this`returned
      ensures Valid() && current == [None, None]
      ensures returned == old(returned) + ReturnedAll(Held(old(current)), state)
    {
      ghost var cur0 := current;
      ghost var r0 := returned;
      for slot := 0 to MAX_BUFFER
        invariant Valid()
        invariant forall j :: 0 <= j < slot ==> current[j].None?
        invariant forall j :: slot <= j < MAX_BUFFER ==> current[j] == cur0[j]
        invariant returned == r0 + ReturnedAll(SlotBufs(cur0, slot), state)
      {
        ghost var before := returned;
        ReturnSlot(slot, state);
        ReturnedAllSlot(r0, before, returned, cur0, slot, state);
      }
      SlotBufsAll(cur0);
      assert current == [None, None];
    }

    /** One round of the second loop of return_all_buffers: an occupied slot hands its buffer back and is emptied. */
    method ReturnSlot(slot: nat, state: BufState)
      requires Valid() && slot < MAX_BUFFER
      modifies this`current, this`returned
      ensures Valid() && current == old(current)[slot := None]
      ensures returned == old(returned) + ReturnedAll(OptSeq(old(current[slot])), state)
    {
      if current[slot].None? {
        assert current == current[slot := None];
        return;
      }
      returned := returned + [Completion(current[slot].value, state, None)];
      current := current[slot := None];
    }

    /**
     * csi_start_streaming: the frame counter restarts at 0; fewer than two
     * queued buffers are refused with -ENOBUFS. `pipelineRc` and
     * `streamRc` are the results of media_pipeline_start and of the
     * sub-device's s_stream. Any failure after the count check hands every
     * held buffer back as queued; on success both slots are filled and the
     * capture runs. Once both slots are filled the capture is started before
     * s_stream is called, and a failing s_stream leaves it running.
     */
    method StartStreaming(count: nat, pipelineRc: int, streamRc: int) returns (rc: int)
      requires Valid()
      modifies this
      ensures Valid() && sequence == 0 && sizeimage == old(sizeimage)
      ensures count < 2 ==> rc == -ENOBUFS && bufList == old(bufList) && current == old(current) && returned == old(returned)
      ensures count >= 2 && pipelineRc < 0 ==>
        rc == pipelineRc && bufList == [] && current == [None, None]
        && returned == old(returned) + ReturnedAll(old(Owned()), Queued)
      ensures count >= 2 && pipelineRc >= 0 && rc == 0 ==>
        && old(current) == [None, None] && |old(bufList)| >= 2 && capturing && returned == old(returned)
        && bufList == old(bufList)[2..] && current == [Some(old(bufList)[0]), Some(old(bufList)[1])]
      ensures count >= 2 && pipelineRc >= 0 && rc != 0 ==>
        bufList == [] && current == [None, None] && HandedBack(old(returned), returned, old(Owned()), Queued)
      ensures count >= 2 && pipelineRc >= 0 ==>
        (rc == 0 <==> old(current) == [None, None] && |old(bufList)| >= 2 && (streamRc >= 0 || streamRc == -ENOIOCTLCMD))
      ensures count < 2 || pipelineRc < 0 ==> capturing == old(capturing)
      ensures count >= 2 && pipelineRc >= 0 && !(old(current) == [None, None] && |old(bufList)| >= 2) ==>
        capturing == old(capturing)
      ensures count >= 2 && pipelineRc >= 0 && old(current) == [None, None] && |old(bufList)| >= 2 ==> capturing
    {
      sequence := 0;
      if count < 2 {
        return -ENOBUFS;
      }
      if pipelineRc < 0 {
        ReturnAllBuffers(Queued);
        return pipelineRc;
      }
      rc := StartCapture(streamRc);
    }

    /**
     * csi_start_streaming from the filling of the slots on: on success
     * both slots are filled and the capture runs; on failure everything
     * held goes back as queued. A failed fill leaves the capture as it was;
     * after a good fill the capture runs even when s_stream then fails.
     */
    method StartCapture(streamRc: int) returns (rc: int)
      requires Valid()
      modifies this`bufList, this`current, this`returned, this`capturing
      ensures Valid()
      ensures rc == 0 ==>
        && old(current) == [None, None] && |old(bufList)| >= 2 && capturing && returned == old(returned)
        && bufList == old(bufList)[2..] && current == [Some(old(bufList)[0]), Some(old(bufList)[1])]
      ensures rc != 0 ==>
        bufList == [] && current == [None, None] && HandedBack(old(returned), returned, old(Owned()), Queued)
      ensures rc == 0 <==> old(current) == [None, None] && |old(bufList)| >= 2 && (streamRc >= 0 || streamRc == -ENOIOCTLCMD)
      ensures !(old(current) == [None, None] && |old(bufList)| >= 2) ==> capturing == old(capturing)
      ensures old(current) == [None, None] && |old(bufList)| >= 2 ==> capturing
    {
      FillAllCases(bufList, current);
      FillAllKeeps(bufList, current);
      ghost var owned, r0 := Owned(), returned;
      rc := FillAll();
      assert multiset(Owned()) == multiset(owned);
      if rc != 0 {
        assert returned == r0;
        FailAfterFill(Queued, owned);
        assert HandedBack(r0, returned, owned, Queued);
        return;
      }
      capturing := true;
      if streamRc < 0 && streamRc != -ENOIOCTLCMD {
        assert returned == r0;
        FailAfterFill(Queued, owned);
        assert HandedBack(r0, returned, owned, Queued);
        rc := streamRc;
        return;
      }
      rc := 0;
    }

    /**
     * StartCapture as evidently intended: a failing s_stream stops the
     * capture it has just started before the buffers go back, so no failed
     * start leaves the hardware running towards buffers it no longer holds.
     */
    method StartCaptureFixed(streamRc: int) returns (rc: int)
      requires Valid()
      modifies this`bufList, this`current, this`returned, this`capturing
      ensures Valid()
      ensures rc == 0 ==>
        && old(current) == [None, None] && |old(bufList)| >= 2 && capturing && returned == old(returned)
        && bufList == old(bufList)[2..] && current == [Some(old(bufList)[0]), Some(old(bufList)[1])]
      ensures rc != 0 ==>
        bufList == [] && current == [None, None] && HandedBack(old(returned), returned, old(Owned()), Queued)
      ensures rc == 0 <==> old(current) == [None, None] && |old(bufList)| >= 2 && (streamRc >= 0 || streamRc == -ENOIOCTLCMD)
      ensures rc != 0 ==> capturing ==> old(capturing)
    {
      FillAllCases(bufList, current);
      FillAllKeeps(bufList, current);
      ghost var owned, r0 := Owned(), returned;
      rc := FillAll();
      assert multiset(Owned()) == multiset(owned);
      if rc != 0 {
        assert returned == r0;
        FailAfterFill(Queued, owned);
        return;
      }
      capturing := true;
      if streamRc < 0 && streamRc != -ENOIOCTLCMD {
        capturing := false;
        assert returned == r0;
        FailAfterFill(Queued, owned);
        rc := streamRc;
        return;
      }
      rc := 0;
    }

    /** The error path of csi_start_streaming once the slots have been filled: everything held goes back. */
    method FailAfterFill(state: BufState, ghost owned: seq<nat>)
      requires Valid() && multiset(Owned()) == multiset(owned)
      modifies this`bufList, this`current, this`returned
      ensures Valid() && bufList == [] && current == [None, None]
      ensures HandedBack(old(returned), returned, owned, state)
    {
      ghost var filled := Owned();
      ReturnAllBuffers(state);
      ReturnedAllHandedBack(old(returned), filled, owned, state);
    }

    /** csi_stop_streaming: the capture stops and every held buffer is handed back in error. */
    method StopStreaming()
      requires Valid()
      modifies this
      ensures Valid() && !capturing && bufList == [] && current == [None, None]
      ensures sequence == old(sequence) && sizeimage == old(sizeimage)
      ensures returned == old(returned) + ReturnedAll(old(Owned()), Error)
    {
      capturing := false;
      ReturnAllBuffers(Error);
    }

    /**
     * csi_irq: every interrupt takes the next frame number (the 32-bit
     * counter wraps); a frame-done interrupt flips the buffers, and a
     * failed flip stops the capture.
     */
    method Irq(frameDone: bool, dbs: bool)
      requires Valid()
      modifies this
      ensures Valid() && sequence == (old(sequence) + 1) % U32_LIMIT && sizeimage == old(sizeimage)
      ensures !frameDone ==> bufList == old(bufList) && current == old(current) && returned == old(returned) && capturing == old(capturing)
      ensures frameDone ==> var next := FlipSlot(dbs);
        && current[1 - next] == old(current[1 - next])
        && returned == old(returned) + FlipDone(old(current[next]), old(sequence))
        && (old(bufList) == [] ==> bufList == [] && current[next].None? && !capturing)
        && (old(bufList) != [] ==> bufList == old(bufList)[1..] && current[next] == Some(old(bufList)[0]) && capturing == old(capturing))
    {
      var s := sequence;
      sequence := (sequence + 1) % U32_LIMIT;
      if !frameDone {
        return;
      }
      var rc := Flip(dbs, s);
      if rc != 0 {
        capturing := false;
      }
    }
  }

  /** What csi_buffer_mark_done hands back for a slot's content. */
  function FlipDone(slot: Option<nat>, sequence: nat): seq<Completion>
  {
    if slot.Some? then [Completion(slot.value, Done, Some(sequence))] else []
  }

  /** The result of filling slots: the code, and the list and the slots afterwards. */
  datatype Fill = Fill(rc: int, list: seq<nat>, slots: seq<Option<nat>>)

  /**
   * csi_buffer_fill_slot on a list and the slots: an occupied slot is
   * refused with -EINVAL; with no buffer waiting the slot stays empty and
   * the result is -ENOMEM; otherwise the oldest waiting buffer moves into
   * the slot.
   */
  function FillSlotStep(list: seq<nat>, slots: seq<Option<nat>>, slot: nat): Fill
    requires |slots| == MAX_BUFFER && slot < MAX_BUFFER
  {
    if slots[slot].Some? then Fill(-EINVAL, list, slots)
    else if list == [] then Fill(-ENOMEM, list, slots)
    else Fill(0, list[1..], slots[slot := Some(list[0])])
  }

  /** csi_buffer_fill_all: slot 0 then slot 1, stopping at the first failure. */
  function FillAllStep(list: seq<nat>, slots: seq<Option<nat>>): Fill
    requires |slots| == MAX_BUFFER
  {
    var f := FillSlotStep(list, slots, 0);
    if f.rc != 0 then f else FillSlotStep(f.list, f.slots, 1)
  }

  /** Filling a slot neither loses nor duplicates a buffer, and keeps two slots. */
  lemma FillSlotKeeps(list: seq<nat>, slots: seq<Option<nat>>, slot: nat)
    requires |slots| == MAX_BUFFER && slot < MAX_BUFFER
    ensures var f := FillSlotStep(list, slots, slot);
      |f.slots| == MAX_BUFFER && multiset(f.list + Held(f.slots)) == multiset(list + Held(slots))
  {
    if slots[slot].None? && list != [] {
      var x := list[0];
      assert list == [x] + list[1..];
      assert multiset(list) == multiset{x} + multiset(list[1..]);
      if slot == 0 {
        assert Held(slots[0 := Some(x)]) == [x] + OptSeq(slots[1]);
        assert Held(slots) == OptSeq(slots[1]);
      } else {
        assert Held(slots[1 := Some(x)]) == OptSeq(slots[0]) + [x];
        assert Held(slots) == OptSeq(slots[0]);
      }
    }
  }

  /** Filling both slots neither loses nor duplicates a buffer. */
  lemma FillAllKeeps(list: seq<nat>, slots: seq<Option<nat>>)
    requires |slots| == MAX_BUFFER
    ensures var f := FillAllStep(list, slots);
      |f.slots| == MAX_BUFFER && multiset(f.list + Held(f.slots)) == multiset(list + Held(slots))
  {
    FillSlotKeeps(list, slots, 0);
    var f := FillSlotStep(list, slots, 0);
    FillSlotKeeps(f.list, f.slots, 1);
  }

  /**
   * The outcomes of csi_buffer_fill_all: it succeeds exactly when both
   * slots are empty and two buffers wait, which then fill slots 0 and 1 in
   * list order; a failure at slot 1 keeps what slot 0 received.
   */
  lemma FillAllCases(list: seq<nat>, slots: seq<Option<nat>>)
    requires |slots| == MAX_BUFFER
    ensures var f := FillAllStep(list, slots);
      && (f.rc == 0 <==> slots == [None, None] && |list| >= 2)
      && (f.rc == 0 ==> f.list == list[2..] && f.slots == [Some(list[0]), Some(list[1])])
      && (slots[0].Some? ==> f == Fill(-EINVAL, list, slots))
      && (slots[0].None? && list == [] ==> f == Fill(-ENOMEM, list, slots))
      && (slots[0].None? && list != [] && slots[1].Some? ==> f == Fill(-EINVAL, list[1..], [Some(list[0]), slots[1]]))
      && (slots == [None, None] && |list| == 1 ==> f == Fill(-ENOMEM, [], [Some(list[0]), None]))
  {
    if slots[0].None? && list != [] {
      assert slots[0 := Some(list[0])] == [Some(list[0]), slots[1]];
      if |list| >= 2 {
        assert list[1..][1..] == list[2..];
      }
    }
  }

  /**
   * `r` extends the log `r0` with the buffers of `owned`, in some order, all
   * handed back in `state` without a sequence number.
   */
  ghost predicate HandedBack(r0: seq<Completion>, r: seq<Completion>, owned: seq<nat>, state: BufState)
  {
    && |r0| <= |r| && r[..|r0|] == r0
    && multiset(BufsOf(r[|r0|..])) == multiset(owned)
    && forall i :: |r0| <= i < |r| ==> r[i].state == state && r[i].sequence.None?
  }

  /** Handing back a rearrangement of the held buffers hands back the held buffers. */
  lemma ReturnedAllHandedBack(r0: seq<Completion>, order: seq<nat>, owned: seq<nat>, state: BufState)
    requires multiset(order) == multiset(owned)
    ensures HandedBack(r0, r0 + ReturnedAll(order, state), owned, state)
  {
    var r := r0 + ReturnedAll(order, state);
    assert r[..|r0|] == r0;
    assert r[|r0|..] == ReturnedAll(order, state);
    ReturnedAllBufs(order, state);
  }

  /** The buffers of the first `n` slots, in slot order. */
  function SlotBufs(slots: seq<Option<nat>>, n: nat): (r: seq<nat>)
    requires n <= |slots|
  {
    if n == 0 then [] else SlotBufs(slots, n - 1) + OptSeq(slots[n - 1])
  }

  /** The buffers the slots hold, in slot order. */
  function Held(slots: seq<Option<nat>>): seq<nat>
    requires |slots| == MAX_BUFFER
  {
    OptSeq(slots[0]) + OptSeq(slots[1])
  }

  lemma SlotBufsAll(slots: seq<Option<nat>>)
    requires |slots| == MAX_BUFFER
    ensures SlotBufs(slots, MAX_BUFFER) == Held(slots)
  {
    assert SlotBufs(slots, 1) == OptSeq(slots[0]);
  }

  lemma ReturnedAllSnoc(bufs: seq<nat>, b: nat, state: BufState)
    ensures ReturnedAll(bufs + [b], state) == ReturnedAll(bufs, state) + [Completion(b, state, None)]
  {
    assert (bufs + [b])[..|bufs|] == bufs;
  }

  /** The second loop of return_all_buffers hands back one more slot's buffer per round. */
  lemma ReturnedAllSlot(r0: seq<Completion>, before: seq<Completion>, after: seq<Completion>,
                        cur0: seq<Option<nat>>, slot: nat, state: BufState)
    requires slot < |cur0|
    requires before == r0 + ReturnedAll(SlotBufs(cur0, slot), state)
    requires after == before + ReturnedAll(OptSeq(cur0[slot]), state)
    ensures after == r0 + ReturnedAll(SlotBufs(cur0, slot + 1), state)
  {
    ReturnedAllAppend(SlotBufs(cur0, slot), OptSeq(cur0[slot]), state);
  }

  lemma {:induction false} ReturnedAllAppend(a: seq<nat>, b: seq<nat>, state: BufState)
    ensures ReturnedAll(a + b, state) == ReturnedAll(a, state) + ReturnedAll(b, state)
    decreases |b|
  {
    if |b| > 0 {
      var b0 := b[..|b| - 1];
      ReturnedAllAppend(a, b0, state);
      assert (a + b)[..|a + b| - 1] == a + b0;
      assert (a + b)[|a + b| - 1] == b[|b| - 1];
    } else {
      assert a + b == a;
    }
  }

  /** Appending a value that is absent keeps a sequence duplicate-free, wherever the rest goes. */
  lemma DistinctInsert(a: seq<nat>, b: seq<nat>, x: nat)
    requires Distinct(a + b) && x !in a + b
    ensures Distinct(a + [x] + b)
  {
    var s := a + [x] + b;
    var t := a + b;
    forall i, j | 0 <= i < j < |s|
      ensures s[i] != s[j]
    {
      if i < |a| && j < |a| {
        assert s[i] == t[i] && s[j] == t[j];
      } else if i < |a| && j == |a| {
        assert s[i] == t[i];
      } else if i < |a| {
        assert s[i] == t[i] && s[j] == t[j - 1];
      } else if i == |a| {
        assert s[j] == t[j - 1];
      } else {
        assert s[i] == t[i - 1] && s[j] == t[j - 1];
      }
    }
  }
}
