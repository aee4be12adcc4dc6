/**
 * The controller of the Freescale CAAM crypto engine (drivers/crypto/caam/ctrl.c):
 * the era lookup, the virtualisation decision, instantiation and
 * deinstantiation of the RNG4 state handles on DECO 0, the entropy-delay
 * programming of the TRNG and the retry loop of the probe routine.
 * Register reads and the outcome of running a descriptor on DECO 0 are
 * inputs; the TRNG test registers are the fields of a class.
 * The register constants are those of drivers/crypto/caam/regs.h, which is
 * not part of this model.
 */
module CaamCtrl {
  import opened Common

  // ---------------------------------------------------------------
  // Era

  /** CCBVID[31:24]: the era, zero before era 6. */
  const CCBVID_ERA_MASK: bv32 := 0xff00_0000
  const CCBVID_ERA_SHIFT: bv32 := 24
  /** SECVID_MS[31:16] and [15:8]: the IP identifier and the major revision. */
  const SECVID_MS_IPID_MASK: bv32 := 0xffff_0000
  const SECVID_MS_IPID_SHIFT: bv32 := 16
  const SECVID_MS_MAJ_REV_MASK: bv32 := 0x0000_ff00
  const SECVID_MS_MAJ_REV_SHIFT: bv32 := 8

  /** One row of the table of eras before era 6. */
  datatype EraRow = EraRow(ipId: nat, majRev: nat, era: nat)

  const ERA_TABLE: seq<EraRow> := [
    EraRow(0x0A10, 1, 1),
    EraRow(0x0A10, 2, 2),
    EraRow(0x0A12, 1, 3),
    EraRow(0x0A14, 1, 3),
    EraRow(0x0A14, 2, 4),
    EraRow(0x0A16, 1, 4),
    EraRow(0x0A10, 3, 4),
    EraRow(0x0A11, 1, 4),
    EraRow(0x0A18, 1, 4),
    EraRow(0x0A11, 2, 5),
    EraRow(0x0A12, 2, 5),
    EraRow(0x0A13, 1, 5),
    EraRow(0x0A1C, 1, 5)
  ]

  function CcbvidEra(ccbvid: bv32): (r: nat)
    ensures r < 0x100
  {
    ((ccbvid & CCBVID_ERA_MASK) >> CCBVID_ERA_SHIFT) as nat
  }

  function IpId(idMs: bv32): (r: nat)
    ensures r < 0x1_0000
  {
    ((idMs & SECVID_MS_IPID_MASK) >> SECVID_MS_IPID_SHIFT) as nat
  }

  function MajRev(idMs: bv32): (r: nat)
    ensures r < 0x100
  {
    ((idMs & SECVID_MS_MAJ_REV_MASK) >> SECVID_MS_MAJ_REV_SHIFT) as nat
  }

  predicate RowMatches(row: EraRow, ipId: nat, majRev: nat)
  {
    row.ipId == ipId && row.majRev == majRev
  }

  /** No two rows of the era table share an (IP identifier, major revision) pair. */
  lemma EraTableUnambiguous()
    ensures forall i, j :: 0 <= i < j < |ERA_TABLE| ==>
      !RowMatches(ERA_TABLE[j], ERA_TABLE[i].ipId, ERA_TABLE[i].majRev)
  {
  }

  /**
   * caam_get_era_from_hw: a nonzero CCBVID era field is the era; otherwise
   * the era of the first table row matching the IP identifier and major
   * revision of SECVID_MS, and -ENOTSUPP when no row matches.
   */
  method GetEraFromHw(ccbvid: bv32, idMs: bv32) returns (era: int)
    ensures era == -ENOTSUPP || 1 <= era < 0x100
    ensures CcbvidEra(ccbvid) != 0 ==> era == CcbvidEra(ccbvid)
    ensures CcbvidEra(ccbvid) == 0 ==>
      (era == -ENOTSUPP <==>
        forall i :: 0 <= i < |ERA_TABLE| ==> !RowMatches(ERA_TABLE[i], IpId(idMs), MajRev(idMs)))
    ensures CcbvidEra(ccbvid) == 0 && era != -ENOTSUPP ==>
      exists i :: 0 <= i < |ERA_TABLE| && RowMatches(ERA_TABLE[i], IpId(idMs), MajRev(idMs)) &&
        era == ERA_TABLE[i].era &&
        forall j :: 0 <= j < i ==> !RowMatches(ERA_TABLE[j], IpId(idMs), MajRev(idMs))
  {
    var e := CcbvidEra(ccbvid);
    if e != 0 {
      return e;
    }
    var ipId := IpId(idMs);
    var majRev := MajRev(idMs);
    for i := 0 to |ERA_TABLE|
      invariant forall j :: 0 <= j < i ==> !RowMatches(ERA_TABLE[j], ipId, majRev)
    {
      if ERA_TABLE[i].ipId == ipId && ERA_TABLE[i].majRev == majRev {
        assert 1 <= ERA_TABLE[i].era <= 5;
        return ERA_TABLE[i].era;
      }
    }
    return -ENOTSUPP;
  }

  // ---------------------------------------------------------------
  // Virtualisation

  /** CTPR_MS: virtualisation included in the design / enabled at power-on. */
  const CTPR_MS_VIRT_EN_INCL: bv32 := 0x0000_0001
  const CTPR_MS_VIRT_EN_POR: bv32 := 0x0000_0002
  /** SCFGR: virtualisation enabled by software. */
  const SCFGR_VIRT_EN: bv32 := 0x0000_8000

  /**
   * The virt_en flag of caam_probe: with virtualisation included it is on when
   * enabled at power-on or by SCFGR; without it, when enabled at power-on.
   */
  function VirtEn(compParams: bv32, scfgr: bv32): (r: nat)
    ensures r == 0 || r == 1
    ensures r == 1 <==>
      (compParams & CTPR_MS_VIRT_EN_INCL != 0 &&
        (compParams & CTPR_MS_VIRT_EN_POR != 0 || scfgr & SCFGR_VIRT_EN != 0)) ||
      (compParams & CTPR_MS_VIRT_EN_INCL == 0 && compParams & CTPR_MS_VIRT_EN_POR != 0)
  {
    if compParams & CTPR_MS_VIRT_EN_INCL != 0 then
      if compParams & CTPR_MS_VIRT_EN_POR != 0 ||
         (compParams & CTPR_MS_VIRT_EN_POR == 0 && scfgr & SCFGR_VIRT_EN != 0)
      then 1 else 0
    else
      if compParams & CTPR_MS_VIRT_EN_POR != 0 then 1 else 0
  }

  /** Power-on enablement alone decides virt_en, whether or not virtualisation is included. */
  lemma VirtEnAtPowerOn(compParams: bv32, scfgr: bv32)
    requires compParams & CTPR_MS_VIRT_EN_POR != 0
    ensures VirtEn(compParams, scfgr) == 1
  {
  }

  /** SCFGR counts only when virtualisation is included. */
  lemma VirtEnIgnoresScfgrWhenExcluded(compParams: bv32, scfgr: bv32, scfgr': bv32)
    requires compParams & CTPR_MS_VIRT_EN_INCL == 0
    ensures VirtEn(compParams, scfgr) == VirtEn(compParams, scfgr')
  {
  }

  // ---------------------------------------------------------------
  // State handles

  const RNG4_MAX_HANDLES: nat := 2
  /** RDSTA: state handles 0 and 1 instantiated; secure keys valid. */
  const RDSTA_IFMASK: bv32 := 0x0000_0003
  const RDSTA_SKVN: bv32 := 0x4000_0000
  /** The descriptor status of a halt on a jump command, which counts as success. */
  const JRSTA_SSRC_JUMP_HALT_CC: bv32 := 0x5000_0000

  /** The mask bit of state handle `i`, 1 << i. */
  function HandleBit(i: nat): bv32
    requires i < RNG4_MAX_HANDLES
  {
    if i == 0 then 1 else 2
  }

  /** Bit `i` of a state-handle mask: handle `i` is instantiated. */
  predicate HasHandle(mask: bv32, i: nat)
    requires i < RNG4_MAX_HANDLES
  {
    mask & HandleBit(i) != 0
  }

  /** A descriptor status other than 0 and a jump halt is an error. */
  predicate StatusFailed(status: bv32)
  {
    status != 0 && status != JRSTA_SSRC_JUMP_HALT_CC
  }

  /**
   * What running one descriptor on DECO 0 answers: the return of
   * run_descriptor_deco0 (0, -ENODEV or -EAGAIN), the descriptor status, and
   * the RDSTA register read after it.
   */
  datatype DecoRun = DecoRun(ret: int, status: bv32, rdsta: bv32)

  /** The descriptors the driver runs on DECO 0. */
  datatype Desc =
    | Instantiate(handle: nat, secureKeys: bool)
    | Deinstantiate(handle: nat)

  /**
   * build_instantiation_desc: state handle 0 also generates the secure keys
   * when asked to.
   */
  function InstantiationDesc(handle: nat, genSk: bool): Desc
  {
    Instantiate(handle, handle == 0 && genSk)
  }

  datatype RngResult = RngResult(ret: int, descs: seq<Desc>)

  /**
   * What one pass of a state-handle loop does for one handle: nothing, or
   * run a descriptor whose outcome is `ok` (go on to the next handle) or not
   * (stop), with `ret` the value the loop then holds.
   */
  datatype Step = Skip | Run(desc: Desc, ok: bool, ret: int)

  /** The state-handle loops of instantiate_rng and deinstantiate_rng from handle `i` on. */
  function RunSteps(steps: seq<Step>, i: nat): RngResult
    requires i <= |steps|
    decreases |steps| - i
  {
    if i == |steps| then RngResult(0, [])
    else match steps[i]
      case Skip => RunSteps(steps, i + 1)
      case Run(d, ok, ret) =>
        if !ok then RngResult(ret, [d])
        else
          var rest := RunSteps(steps, i + 1);
          RngResult(rest.ret, [d] + rest.descs)
  }

  predicate StepOk(s: Step)
  {
    s.Run? && s.ok
  }

  /** Every step that runs a descriptor runs the one of its own handle. */
  predicate OwnHandles(steps: seq<Step>)
  {
    forall h :: 0 <= h < |steps| && steps[h].Run? ==> steps[h].desc.handle == h
  }

  /** Every descriptor in `descs` is that of a `Run` step of handle `i` or later. */
  predicate FromSteps(steps: seq<Step>, descs: seq<Desc>, i: nat)
  {
    forall k :: 0 <= k < |descs| ==>
      i <= descs[k].handle < |steps| && steps[descs[k].handle].Run? && steps[descs[k].handle].desc == descs[k]
  }

  /** Descriptors in strictly increasing handle order. */
  predicate Ascending(descs: seq<Desc>)
  {
    forall k, l :: 0 <= k < l < |descs| ==> descs[k].handle < descs[l].handle
  }

  /** Every descriptor but the last is that of a step that succeeded. */
  predicate OkBeforeLast(steps: seq<Step>, descs: seq<Desc>)
  {
    forall k :: 0 <= k < |descs| - 1 ==> descs[k].handle < |steps| && StepOk(steps[descs[k].handle])
  }

  /**
   * The loops run the descriptors of `Run` steps only, each one once, in
   * handle order.
   */
  lemma {:induction false} RunStepsInOrder(steps: seq<Step>, i: nat)
    requires i <= |steps| && OwnHandles(steps)
    ensures FromSteps(steps, RunSteps(steps, i).descs, i)
    ensures Ascending(RunSteps(steps, i).descs)
    decreases |steps| - i
  {
    if i < |steps| {
      RunStepsInOrder(steps, i + 1);
      var rest := RunSteps(steps, i + 1).descs;
      var descs := RunSteps(steps, i).descs;
      match steps[i]
      case Skip =>
        assert descs == rest;
      case Run(d, ok, _) =>
        assert d.handle == i;
        if ok {
          assert descs == [d] + rest;
          forall k | 1 <= k < |descs|
            ensures descs[k] == rest[k - 1] && i < descs[k].handle
          {
          }
        } else {
          assert descs == [d];
        }
    }
  }

  /** The loops stop at the first failing descriptor: all those before it succeeded. */
  lemma {:induction false} RunStepsOkBeforeLast(steps: seq<Step>, i: nat)
    requires i <= |steps| && OwnHandles(steps)
    ensures OkBeforeLast(steps, RunSteps(steps, i).descs)
    decreases |steps| - i
  {
    if i < |steps| {
      RunStepsOkBeforeLast(steps, i + 1);
      var rest := RunSteps(steps, i + 1).descs;
      var descs := RunSteps(steps, i).descs;
      match steps[i]
      case Skip =>
        assert descs == rest;
      case Run(d, ok, _) =>
        assert d.handle == i;
        if ok {
          assert descs == [d] + rest;
          forall k | 1 <= k < |descs| ensures descs[k] == rest[k - 1] { }
        } else {
          assert descs == [d];
        }
    }
  }

  /** With a failing step ahead, the loops end on a failing descriptor. */
  lemma {:induction false} RunStepsEndOnFailure(steps: seq<Step>, i: nat, h: nat)
    requires i <= h < |steps| && OwnHandles(steps) && steps[h].Run? && !steps[h].ok
    ensures var r := RunSteps(steps, i);
      |r.descs| >= 1 && r.descs[|r.descs| - 1].handle < |steps| && !StepOk(steps[r.descs[|r.descs| - 1].handle])
    decreases |steps| - i
  {
    if i < h && StepOk(steps[i]) {
      RunStepsEndOnFailure(steps, i + 1, h);
      var rest := RunSteps(steps, i + 1);
      assert RunSteps(steps, i).descs == [steps[i].desc] + rest.descs;
    } else if i < h && steps[i].Skip? {
      RunStepsEndOnFailure(steps, i + 1, h);
    }
  }

  /** Without a failing step the loops return 0 and run every descriptor. */
  lemma {:induction false} RunStepsAllRun(steps: seq<Step>, i: nat)
    requires i <= |steps| && OwnHandles(steps)
    requires forall h :: i <= h < |steps| && steps[h].Run? ==> steps[h].ok
    ensures var r := RunSteps(steps, i);
      r.ret == 0 && forall h :: i <= h < |steps| && steps[h].Run? ==> steps[h].desc in r.descs
    decreases |steps| - i
  {
    if i < |steps| {
      RunStepsAllRun(steps, i + 1);
    }
  }

  /** When a step fails exactly when it returns nonzero, the loop returns 0 exactly when every step succeeds. */
  lemma {:induction false} RunStepsZeroIff(steps: seq<Step>, i: nat)
    requires i <= |steps|
    requires forall h :: 0 <= h < |steps| && steps[h].Run? ==> (steps[h].ok <==> steps[h].ret == 0)
    ensures RunSteps(steps, i).ret == 0 <==> forall h :: i <= h < |steps| && steps[h].Run? ==> steps[h].ok
    decreases |steps| - i
  {
    if i < |steps| {
      RunStepsZeroIff(steps, i + 1);
    }
  }

  /** A successful run of handle `i` instantiates it. */
  predicate InstantiateOk(run: DecoRun, i: nat)
    requires i < RNG4_MAX_HANDLES
  {
    run.ret == 0 && !StatusFailed(run.status) && HasHandle(run.rdsta & RDSTA_IFMASK, i)
  }

  /**
   * One pass of the instantiate_rng loop: a handle whose mask bit is set is
   * left alone; otherwise its descriptor runs, and a DECO error is returned
   * as is while an error status, or an RDSTA bit still clear, is -EAGAIN.
   */
  function InstantiateStep(mask: bv32, genSk: bool, run: DecoRun, i: nat): (s: Step)
    requires i < RNG4_MAX_HANDLES
    ensures s.Run? ==> (s.ok <==> s.ret == 0)
  {
    if HasHandle(mask, i) then Skip
    else if run.ret != 0 then Run(InstantiationDesc(i, genSk), false, run.ret)
    else if StatusFailed(run.status) || !HasHandle(run.rdsta & RDSTA_IFMASK, i) then
      Run(InstantiationDesc(i, genSk), false, -EAGAIN)
    else Run(InstantiationDesc(i, genSk), true, 0)
  }

  function InstantiateSteps(mask: bv32, genSk: bool, runs: seq<DecoRun>): (s: seq<Step>)
    requires |runs| == RNG4_MAX_HANDLES
    ensures |s| == RNG4_MAX_HANDLES && OwnHandles(s)
  {
    [InstantiateStep(mask, genSk, runs[0], 0), InstantiateStep(mask, genSk, runs[1], 1)]
  }

  /**
   * instantiate_rng: -ENOMEM when the descriptor buffer cannot be allocated;
   * otherwise the loop over the state handles.
   */
  function InstantiateSpec(mask: bv32, genSk: bool, allocOk: bool, runs: seq<DecoRun>): RngResult
    requires |runs| == RNG4_MAX_HANDLES
  {
    if allocOk then RunSteps(InstantiateSteps(mask, genSk, runs), 0) else RngResult(-ENOMEM, [])
  }

  /**
   * instantiate_rng runs descriptors only for handles whose mask bit is clear,
   * in handle order, each with the secure-key flag for handle 0 only; it
   * returns 0 exactly when every such handle was instantiated, and otherwise
   * stops at the first handle that was not.
   */
  lemma InstantiateSkipsSet(mask: bv32, genSk: bool, runs: seq<DecoRun>)
    requires |runs| == RNG4_MAX_HANDLES
    ensures var r := RunSteps(InstantiateSteps(mask, genSk, runs), 0);
      (forall k :: 0 <= k < |r.descs| ==>
        r.descs[k].handle < RNG4_MAX_HANDLES && !HasHandle(mask, r.descs[k].handle) &&
        r.descs[k] == InstantiationDesc(r.descs[k].handle, genSk)) &&
      (forall k, l :: 0 <= k < l < |r.descs| ==> r.descs[k].handle < r.descs[l].handle)
  {
    var steps := InstantiateSteps(mask, genSk, runs);
    RunStepsInOrder(steps, 0);
  }

  lemma InstantiateSucceeds(mask: bv32, genSk: bool, runs: seq<DecoRun>)
    requires |runs| == RNG4_MAX_HANDLES
    ensures RunSteps(InstantiateSteps(mask, genSk, runs), 0).ret == 0 <==>
      forall h :: 0 <= h < RNG4_MAX_HANDLES && !HasHandle(mask, h) ==> InstantiateOk(runs[h], h)
  {
    var steps := InstantiateSteps(mask, genSk, runs);
    RunStepsZeroIff(steps, 0);
    assert forall h :: 0 <= h < RNG4_MAX_HANDLES ==>
      (steps[h].Run? <==> !HasHandle(mask, h)) && (steps[h].Run? ==> (steps[h].ok <==> InstantiateOk(runs[h], h)));
  }

  lemma InstantiateStopsAtFailure(mask: bv32, genSk: bool, runs: seq<DecoRun>)
    requires |runs| == RNG4_MAX_HANDLES
    ensures var r := RunSteps(InstantiateSteps(mask, genSk, runs), 0);
      (forall k :: 0 <= k < |r.descs| - 1 ==>
        r.descs[k].handle < RNG4_MAX_HANDLES && InstantiateOk(runs[r.descs[k].handle], r.descs[k].handle)) &&
      (r.ret != 0 ==>
        |r.descs| >= 1 && r.descs[|r.descs| - 1].handle < RNG4_MAX_HANDLES &&
        !InstantiateOk(runs[r.descs[|r.descs| - 1].handle], r.descs[|r.descs| - 1].handle))
  {
    var steps := InstantiateSteps(mask, genSk, runs);
    RunStepsZeroIff(steps, 0);
    RunStepsOkBeforeLast(steps, 0);
    assert forall h :: 0 <= h < RNG4_MAX_HANDLES && steps[h].Run? ==> (steps[h].ok <==> InstantiateOk(runs[h], h));
    if RunSteps(steps, 0).ret != 0 {
      var h :| 0 <= h < RNG4_MAX_HANDLES && steps[h].Run? && !steps[h].ok;
      RunStepsEndOnFailure(steps, 0, h);
    }
  }

  /**
   * A descriptor that completes but ends with an error status, or leaves the
   * handle's RDSTA bit clear, makes instantiate_rng return -EAGAIN.
   */
  lemma InstantiateAgain(mask: bv32, genSk: bool, runs: seq<DecoRun>, i: nat)
    requires |runs| == RNG4_MAX_HANDLES && i < RNG4_MAX_HANDLES
    requires !HasHandle(mask, i) && runs[i].ret == 0
    requires StatusFailed(runs[i].status) || !HasHandle(runs[i].rdsta & RDSTA_IFMASK, i)
    requires forall h :: 0 <= h < i && !HasHandle(mask, h) ==> InstantiateOk(runs[h], h)
    ensures RunSteps(InstantiateSteps(mask, genSk, runs), 0).ret == -EAGAIN
  {
    var steps := InstantiateSteps(mask, genSk, runs);
    if i == 1 {
      assert RunSteps(steps, 1).ret == -EAGAIN;
    }
  }

  /** instantiate_rng, with the DECO 0 answers for each handle given. */
  method InstantiateRng(mask: bv32, genSk: bool, allocOk: bool, runs: seq<DecoRun>) returns (ret: int, descs: seq<Desc>)
    requires |runs| == RNG4_MAX_HANDLES
    ensures RngResult(ret, descs) == InstantiateSpec(mask, genSk, allocOk, runs)
  {
    descs := [];
    if !allocOk {
      return -ENOMEM, [];
    }
    ghost var steps := InstantiateSteps(mask, genSk, runs);
    ret := 0;
    var i := 0;
    while i < RNG4_MAX_HANDLES
      invariant 0 <= i <= RNG4_MAX_HANDLES
      invariant ret == 0
      invariant RunSteps(steps, 0) == var rest := RunSteps(steps, i); RngResult(rest.ret, descs + rest.descs)
    {
      assert steps[i] == InstantiateStep(mask, genSk, runs[i], i);
      if !HasHandle(mask, i) {
        var d := InstantiationDesc(i, genSk);
        ret := runs[i].ret;
        if ret != 0 {
          descs := descs + [d];
          return;
        }
        if StatusFailed(runs[i].status) || !HasHandle(runs[i].rdsta & RDSTA_IFMASK, i) {
          descs := descs + [d];
          return -EAGAIN, descs;
        }
        ConcatAssoc(descs, [d], RunSteps(steps, i + 1).descs);
        descs := descs + [d];
      }
      i := i + 1;
    }
  }

  predicate DeinstantiateOk(run: DecoRun)
  {
    run.ret == 0 && !StatusFailed(run.status)
  }

  /**
   * One pass of the deinstantiate_rng loop: a handle whose mask bit is clear
   * is left alone; otherwise its descriptor runs and the loop stops on a DECO
   * error or an error status, holding the DECO return value.
   */
  function DeinstantiateStep(mask: bv32, run: DecoRun, i: nat): Step
    requires i < RNG4_MAX_HANDLES
  {
    if !HasHandle(mask, i) then Skip
    else Run(Deinstantiate(i), DeinstantiateOk(run), run.ret)
  }

  function DeinstantiateSteps(mask: bv32, runs: seq<DecoRun>): (s: seq<Step>)
    requires |runs| == RNG4_MAX_HANDLES
    ensures |s| == RNG4_MAX_HANDLES && OwnHandles(s)
  {
    [DeinstantiateStep(mask, runs[0], 0), DeinstantiateStep(mask, runs[1], 1)]
  }

  /** deinstantiate_rng: -ENOMEM without a descriptor buffer, otherwise the loop. */
  function DeinstantiateSpec(mask: bv32, allocOk: bool, runs: seq<DecoRun>): RngResult
    requires |runs| == RNG4_MAX_HANDLES
  {
    if allocOk then RunSteps(DeinstantiateSteps(mask, runs), 0) else RngResult(-ENOMEM, [])
  }

  /**
   * deinstantiate_rng runs a descriptor only for handles whose mask bit is set,
   * in handle order.
   */
  lemma DeinstantiateOnlySet(mask: bv32, runs: seq<DecoRun>)
    requires |runs| == RNG4_MAX_HANDLES
    ensures var r := RunSteps(DeinstantiateSteps(mask, runs), 0);
      (forall k :: 0 <= k < |r.descs| ==>
        r.descs[k] == Deinstantiate(r.descs[k].handle) && r.descs[k].handle < RNG4_MAX_HANDLES &&
        HasHandle(mask, r.descs[k].handle)) &&
      (forall k, l :: 0 <= k < l < |r.descs| ==> r.descs[k].handle < r.descs[l].handle)
  {
    RunStepsInOrder(DeinstantiateSteps(mask, runs), 0);
  }

  /** deinstantiate_rng stops after the first handle that fails. */
  lemma DeinstantiateStopsAtFailure(mask: bv32, runs: seq<DecoRun>)
    requires |runs| == RNG4_MAX_HANDLES
    ensures var r := RunSteps(DeinstantiateSteps(mask, runs), 0);
      forall k :: 0 <= k < |r.descs| - 1 ==>
        r.descs[k].handle < RNG4_MAX_HANDLES && DeinstantiateOk(runs[r.descs[k].handle])
  {
    RunStepsOkBeforeLast(DeinstantiateSteps(mask, runs), 0);
  }

  /** With no failure every handle whose mask bit is set is deinstantiated and the result is 0. */
  lemma DeinstantiateAll(mask: bv32, runs: seq<DecoRun>)
    requires |runs| == RNG4_MAX_HANDLES
    requires forall h :: 0 <= h < RNG4_MAX_HANDLES && HasHandle(mask, h) ==> DeinstantiateOk(runs[h])
    ensures var r := RunSteps(DeinstantiateSteps(mask, runs), 0);
      r.ret == 0 && forall h :: 0 <= h < RNG4_MAX_HANDLES && HasHandle(mask, h) ==> Deinstantiate(h) in r.descs
  {
    RunStepsAllRun(DeinstantiateSteps(mask, runs), 0);
  }

  /**
   * A deinstantiation descriptor that reports an error status although DECO 0
   * ran it stops the loop, yet deinstantiate_rng still returns 0: the only
   * errors it returns are those of run_descriptor_deco0.
   */
  lemma DeinstantiateStatusErrorReturnsZero(runs: seq<DecoRun>)
    requires |runs| == RNG4_MAX_HANDLES
    requires runs[0] == DecoRun(0, 1, 0)
    ensures DeinstantiateSpec(RDSTA_IFMASK, true, runs) == RngResult(0, [Deinstantiate(0)])
  {
  }

  /**
   * The deinstantiation pass as the header comment of deinstantiate_rng
   * describes it: a descriptor that DECO 0 ran but that ends with an error
   * status gives -EAGAIN, as it does in instantiate_rng.
   */
  function DeinstantiateStepFixed(mask: bv32, run: DecoRun, i: nat): Step
    requires i < RNG4_MAX_HANDLES
  {
    if !HasHandle(mask, i) then Skip
    else Run(Deinstantiate(i), DeinstantiateOk(run),
             if run.ret != 0 then run.ret else if StatusFailed(run.status) then -EAGAIN else 0)
  }

  function DeinstantiateStepsFixed(mask: bv32, runs: seq<DecoRun>): seq<Step>
    requires |runs| == RNG4_MAX_HANDLES
  {
    [DeinstantiateStepFixed(mask, runs[0], 0), DeinstantiateStepFixed(mask, runs[1], 1)]
  }

  /**
   * With the corrected pass, deinstantiate_rng returns 0 exactly when every
   * handle whose mask bit is set was deinstantiated, so a caller can tell
   * that a handle is still instantiated.
   */
  lemma DeinstantiateFixedZeroIff(mask: bv32, runs: seq<DecoRun>)
    requires |runs| == RNG4_MAX_HANDLES
    ensures RunSteps(DeinstantiateStepsFixed(mask, runs), 0).ret == 0 <==>
      forall h :: 0 <= h < RNG4_MAX_HANDLES && HasHandle(mask, h) ==> DeinstantiateOk(runs[h])
  {
    var steps := DeinstantiateStepsFixed(mask, runs);
    RunStepsZeroIff(steps, 0);
    assert forall h :: 0 <= h < RNG4_MAX_HANDLES ==>
      (steps[h].Run? <==> HasHandle(mask, h)) && (steps[h].Run? ==> steps[h].ok == DeinstantiateOk(runs[h]));
  }

  /** deinstantiate_rng, with the DECO 0 answers for each handle given. */
  method DeinstantiateRng(mask: bv32, allocOk: bool, runs: seq<DecoRun>) returns (ret: int, descs: seq<Desc>)
    requires |runs| == RNG4_MAX_HANDLES
    ensures RngResult(ret, descs) == DeinstantiateSpec(mask, allocOk, runs)
  {
    descs := [];
    if !allocOk {
      return -ENOMEM, [];
    }
    ghost var steps := DeinstantiateSteps(mask, runs);
    ret := 0;
    var i := 0;
    while i < RNG4_MAX_HANDLES
      invariant 0 <= i <= RNG4_MAX_HANDLES
      invariant ret == 0
      invariant RunSteps(steps, 0) == var rest := RunSteps(steps, i); RngResult(rest.ret, descs + rest.descs)
    {
      assert steps[i] == DeinstantiateStep(mask, runs[i], i);
      if HasHandle(mask, i) {
        ret := runs[i].ret;
        if ret != 0 || StatusFailed(runs[i].status) {
          descs := descs + [Deinstantiate(i)];
          return;
        }
        ConcatAssoc(descs, [Deinstantiate(i)], RunSteps(steps, i + 1).descs);
        descs := descs + [Deinstantiate(i)];
      }
      i := i + 1;
    }
  }

  // ---------------------------------------------------------------
  // TRNG entropy delay

  /** RTMCTL: program mode; raw sampling in both the entropy shifter and the statistical checker. */
  const RTMCTL_PRGM: bv32 := 0x0001_0000
  const RTMCTL_SAMP_MODE_RAW_ES_SC: bv32 := 0x0000_0001
  /**
   * RTSDCTL[31:16]: the entropy delay, the length of one entropy sample in
   * clocks; RTSDCTL[15:0] is the sample size. RTSDCTL and the frequency count
   * registers are held as numbers, so that masking out the delay field is
   * `% 0x1_0000` and shifting a delay into it is `* 0x1_0000`.
   */
  const RTSDCTL_ENT_DLY_UNIT: nat := 0x1_0000
  const RTSDCTL_ENT_DLY_MIN: nat := 3200
  const RTSDCTL_ENT_DLY_MAX: nat := 12800
  /** RTFRQMAX value that disables the maximum frequency count (bit 20). */
  const RTFRQMAX_DISABLE: U32 := 0x0010_0000

  /** An entropy delay that fits its RTSDCTL field. */
  type Delay = x: nat | x < 0x1_0000

  /** The entropy delay programmed in an RTSDCTL value. */
  function EntDelay(rtsdctl: U32): (r: Delay)
  {
    rtsdctl / RTSDCTL_ENT_DLY_UNIT
  }

  /** The RNG4 test registers kick_trng touches. */
  datatype TrngRegs = TrngRegs(rtmctl: bv32, rtsdctl: U32, rtfrqmin: U32, rtfrqmax: U32)

  /** clrsetbits_32: a register value with the bits of `clear` cleared and those of `bits` set. */
  function ClrSet(x: bv32, clear: bv32, bits: bv32): bv32
  {
    (x & !clear) | bits
  }

  /** Program mode on, then off with raw sampling selected. */
  function RunMode(rtmctl: bv32): bv32
  {
    ClrSet(ClrSet(rtmctl, 0, RTMCTL_PRGM), RTMCTL_PRGM, RTMCTL_SAMP_MODE_RAW_ES_SC)
  }

  /** The TRNG ends out of program mode, in raw sampling. */
  lemma RunModeLeavesProgramMode(rtmctl: bv32)
    ensures RunMode(rtmctl) & RTMCTL_PRGM == 0
    ensures RunMode(rtmctl) & RTMCTL_SAMP_MODE_RAW_ES_SC != 0
  {
  }

  /**
   * kick_trng on register values: program mode; a delay no longer than the
   * programmed one leaves the sampling registers alone, a longer one is
   * written together with a minimum frequency count of a quarter of it and
   * no maximum; then run mode with raw sampling.
   */
  function KickRegs(r: TrngRegs, entDelay: Delay): TrngRegs
  {
    if entDelay <= r.rtsdctl / RTSDCTL_ENT_DLY_UNIT then
      r.(rtmctl := RunMode(r.rtmctl))
    else
      TrngRegs(RunMode(r.rtmctl),
        r.rtsdctl % RTSDCTL_ENT_DLY_UNIT + entDelay * RTSDCTL_ENT_DLY_UNIT,
        entDelay / 4,
        RTFRQMAX_DISABLE)
  }

  /**
   * kick_trng never lowers the programmed entropy delay and keeps the sample
   * size; a longer delay sets the minimum frequency count to a quarter of it.
   */
  lemma KickNeverLowers(r: TrngRegs, entDelay: Delay)
    ensures var r' := KickRegs(r, entDelay);
      EntDelay(r'.rtsdctl) == (if entDelay <= EntDelay(r.rtsdctl) then EntDelay(r.rtsdctl) else entDelay) &&
      r'.rtsdctl % RTSDCTL_ENT_DLY_UNIT == r.rtsdctl % RTSDCTL_ENT_DLY_UNIT &&
      (entDelay > EntDelay(r.rtsdctl) ==> r'.rtfrqmin == entDelay / 4 && r'.rtfrqmax == RTFRQMAX_DISABLE) &&
      (entDelay <= EntDelay(r.rtsdctl) ==> r'.(rtmctl := r.rtmctl) == r)
  {
    if entDelay > EntDelay(r.rtsdctl) {
      var lo := r.rtsdctl % RTSDCTL_ENT_DLY_UNIT;
      assert (lo + entDelay * RTSDCTL_ENT_DLY_UNIT) / RTSDCTL_ENT_DLY_UNIT == entDelay;
      assert (lo + entDelay * RTSDCTL_ENT_DLY_UNIT) % RTSDCTL_ENT_DLY_UNIT == lo;
    }
  }

  /** The registers after kick_trng with each of `kicks` in turn. */
  function KickAll(r: TrngRegs, kicks: seq<Delay>): TrngRegs
  {
    if |kicks| == 0 then r else KickRegs(KickAll(r, kicks[..|kicks| - 1]), kicks[|kicks| - 1])
  }

  /** The RNG4 test registers of the controller. */
  class Trng {
    var rtmctl: bv32
    var rtsdctl: U32
    var rtfrqmin: U32
    var rtfrqmax: U32

    function Regs(): TrngRegs
      reads this
    {
      TrngRegs(rtmctl, rtsdctl, rtfrqmin, rtfrqmax)
    }

    constructor (r: TrngRegs)
      ensures Regs() == r
    {
      rtmctl, rtsdctl, rtfrqmin, rtfrqmax := r.rtmctl, r.rtsdctl, r.rtfrqmin, r.rtfrqmax;
    }

    /** kick_trng. */
    method Kick(entDelay: Delay)
      modifies this
      ensures Regs() == KickRegs(old(Regs()), entDelay)
    {
      SetRtmctl(0, RTMCTL_PRGM);
      var val := rtsdctl / RTSDCTL_ENT_DLY_UNIT;
      if !(entDelay <= val) {
        rtsdctl := rtsdctl % RTSDCTL_ENT_DLY_UNIT + entDelay * RTSDCTL_ENT_DLY_UNIT;
        rtfrqmin := entDelay / 4;
        rtfrqmax := RTFRQMAX_DISABLE;
      }
      SetRtmctl(RTMCTL_PRGM, RTMCTL_SAMP_MODE_RAW_ES_SC);
    }

    /** clrsetbits_32 on RTMCTL. */
    method SetRtmctl(clear: bv32, bits: bv32)
      modifies `rtmctl
      ensures rtmctl == ClrSet(old(rtmctl), clear, bits)
    {
      rtmctl := (rtmctl & !clear) | bits;
    }
  }

  // ---------------------------------------------------------------
  // The RNG retry loop of caam_probe

  /** The step by which the entropy delay grows between attempts. */
  const ENT_DLY_STEP: nat := 400

  /**
   * The hardware's answers in one attempt of the loop: the RDSTA register
   * read at its top, and what instantiate_rng meets (the descriptor buffer
   * and the DECO 0 run of each handle).
   */
  datatype Attempt = Attempt(rdsta: bv32, allocOk: bool, runs: seq<DecoRun>)

  predicate WellFormed(attempts: seq<Attempt>)
  {
    forall k :: 0 <= k < |attempts| ==> |attempts[k].runs| == RNG4_MAX_HANDLES
  }

  /**
   * How the loop ends: with the return of the last instantiate_rng, or
   * (`None`) still retrying when the given answers run out; with the final
   * entropy delay and the delays passed to kick_trng, in order.
   */
  datatype RetryResult = RetryResult(ret: Option<int>, delay: nat, kicks: seq<Delay>)

  function PrependKicks(kicks: seq<Delay>, r: RetryResult): RetryResult
  {
    r.(kicks := kicks + r.kicks)
  }

  lemma PrependTwice(a: seq<Delay>, b: seq<Delay>, r: RetryResult)
    ensures PrependKicks(a, PrependKicks(b, r)) == PrependKicks(a + b, r)
  {
    ConcatAssoc(a, b, r.kicks);
  }

  /** The handles found instantiated at the top of an attempt. */
  function InstHandles(a: Attempt): bv32
  {
    a.rdsta & RDSTA_IFMASK
  }

  /** The TRNG is reprogrammed only while no handle is instantiated, neither at probe time nor now. */
  predicate Kicks(shInit: bv32, a: Attempt)
  {
    shInit == 0 && InstHandles(a) == 0
  }

  /** What instantiate_rng returns in an attempt. */
  function AttemptRet(genSk: bool, a: Attempt): int
    requires |a.runs| == RNG4_MAX_HANDLES
  {
    InstantiateSpec(InstHandles(a), genSk, a.allocOk, a.runs).ret
  }

  /** Whether each attempt kicks the TRNG. */
  function KickPlan(shInit: bv32, attempts: seq<Attempt>): seq<bool>
  {
    seq(|attempts|, j requires 0 <= j < |attempts| => Kicks(shInit, attempts[j]))
  }

  /** What instantiate_rng returns in each attempt. */
  function AttemptRets(genSk: bool, attempts: seq<Attempt>): seq<int>
    requires WellFormed(attempts)
  {
    seq(|attempts|, j requires 0 <= j < |attempts| && |attempts[j].runs| == RNG4_MAX_HANDLES =>
      AttemptRet(genSk, attempts[j]))
  }

  /**
   * The do-while loop of caam_probe from attempt `k` on, given for each
   * attempt whether it kicks the TRNG and what instantiate_rng returns: a
   * kick takes the current delay, which then grows by 400; another attempt
   * follows while instantiate_rng returns -EAGAIN and the delay is below the
   * maximum.
   */
  function RetryFrom(kicked: seq<bool>, rets: seq<int>, delay: nat, k: nat): RetryResult
    requires |kicked| == |rets| && k <= |rets| && delay < RTSDCTL_ENT_DLY_MAX
    decreases |rets| - k
  {
    if k == |rets| then RetryResult(None, delay, [])
    else
      var delay' := if kicked[k] then delay + ENT_DLY_STEP else delay;
      var kicks: seq<Delay> := if kicked[k] then [delay] else [];
      if rets[k] == -EAGAIN && delay' < RTSDCTL_ENT_DLY_MAX then
        PrependKicks(kicks, RetryFrom(kicked, rets, delay', k + 1))
      else RetryResult(Some(rets[k]), delay', kicks)
  }

  /**
   * The RNG set-up loop of caam_probe with `shInit` the handles instantiated
   * at probe time: it starts from the minimum entropy delay.
   */
  function Retry(shInit: bv32, genSk: bool, attempts: seq<Attempt>): RetryResult
    requires WellFormed(attempts)
  {
    RetryFrom(KickPlan(shInit, attempts), AttemptRets(genSk, attempts), RTSDCTL_ENT_DLY_MIN, 0)
  }

  /**
   * The loop ends only when instantiate_rng returns something other than
   * -EAGAIN or the delay has reached its maximum.
   */
  lemma {:induction false} RetryStops(kicked: seq<bool>, rets: seq<int>, delay: nat, k: nat)
    requires |kicked| == |rets| && k <= |rets| && delay < RTSDCTL_ENT_DLY_MAX
    ensures var r := RetryFrom(kicked, rets, delay, k);
      r.ret.Some? ==> r.ret.value != -EAGAIN || r.delay >= RTSDCTL_ENT_DLY_MAX
    decreases |rets| - k
  {
    if k < |rets| {
      var delay' := if kicked[k] then delay + ENT_DLY_STEP else delay;
      if rets[k] == -EAGAIN && delay' < RTSDCTL_ENT_DLY_MAX {
        RetryStops(kicked, rets, delay', k + 1);
      }
    }
  }

  /**
   * Each kick_trng gets the current delay, which then grows by 400: the
   * delays kicked are `delay`, `delay + 400`, ... and the final delay is 400
   * more per kick; attempts that do not kick leave the delay alone.
   */
  lemma {:induction false} RetryKickDelays(kicked: seq<bool>, rets: seq<int>, delay: nat, k: nat)
    requires |kicked| == |rets| && k <= |rets| && delay < RTSDCTL_ENT_DLY_MAX
    ensures var r := RetryFrom(kicked, rets, delay, k);
      r.delay == delay + ENT_DLY_STEP * |r.kicks| &&
      (forall j :: 0 <= j < |r.kicks| ==> r.kicks[j] == delay + ENT_DLY_STEP * j) &&
      ((forall j :: k <= j < |kicked| ==> !kicked[j]) ==> r.kicks == [])
    decreases |rets| - k
  {
    if k < |rets| {
      var delay' := if kicked[k] then delay + ENT_DLY_STEP else delay;
      if rets[k] == -EAGAIN && delay' < RTSDCTL_ENT_DLY_MAX {
        RetryKickDelays(kicked, rets, delay', k + 1);
        var rest := RetryFrom(kicked, rets, delay', k + 1);
        if kicked[k] {
          var ks := [delay as Delay] + rest.kicks;
          assert forall j :: 1 <= j < |ks| ==> ks[j] == rest.kicks[j - 1];
        }
      }
    }
  }

  /** A handle instantiated at probe time means kick_trng is never called and the delay stays at its minimum. */
  lemma NoKickWithHandles(shInit: bv32, genSk: bool, attempts: seq<Attempt>)
    requires WellFormed(attempts) && shInit != 0
    ensures Retry(shInit, genSk, attempts).kicks == []
    ensures Retry(shInit, genSk, attempts).delay == RTSDCTL_ENT_DLY_MIN
  {
    RetryKickDelays(KickPlan(shInit, attempts), AttemptRets(genSk, attempts), RTSDCTL_ENT_DLY_MIN, 0);
  }

  /**
   * While every attempt kicks the TRNG the delay grows on every attempt, so
   * the loop ends within the attempts needed to reach the maximum delay.
   */
  lemma {:induction false} RetryEndsWhenKicking(kicked: seq<bool>, rets: seq<int>, delay: nat, k: nat)
    requires |kicked| == |rets| && k < |rets| && delay < RTSDCTL_ENT_DLY_MAX
    requires forall j :: k <= j < |kicked| ==> kicked[j]
    requires delay + ENT_DLY_STEP * (|rets| - k) >= RTSDCTL_ENT_DLY_MAX
    ensures RetryFrom(kicked, rets, delay, k).ret.Some?
    decreases |rets| - k
  {
    if rets[k] == -EAGAIN && delay + ENT_DLY_STEP < RTSDCTL_ENT_DLY_MAX {
      RetryEndsWhenKicking(kicked, rets, delay + ENT_DLY_STEP, k + 1);
    }
  }

  /** With no handle ever instantiated, 24 attempts always end the loop. */
  lemma RetryEndsWithoutHandles(genSk: bool, attempts: seq<Attempt>)
    requires WellFormed(attempts) && |attempts| >= (RTSDCTL_ENT_DLY_MAX - RTSDCTL_ENT_DLY_MIN) / ENT_DLY_STEP
    requires forall j :: 0 <= j < |attempts| ==> InstHandles(attempts[j]) == 0
    ensures Retry(0, genSk, attempts).ret.Some?
  {
    RetryEndsWhenKicking(KickPlan(0, attempts), AttemptRets(genSk, attempts), RTSDCTL_ENT_DLY_MIN, 0);
  }

  /**
   * Without kicks the delay never grows, so while instantiate_rng keeps
   * returning -EAGAIN the loop does not end, however many attempts the
   * hardware answers.
   */
  lemma {:induction false} RetrySpinsWithoutKicks(kicked: seq<bool>, rets: seq<int>, delay: nat, k: nat)
    requires |kicked| == |rets| && k <= |rets| && delay < RTSDCTL_ENT_DLY_MAX
    requires forall j :: k <= j < |rets| ==> !kicked[j] && rets[j] == -EAGAIN
    ensures RetryFrom(kicked, rets, delay, k) == RetryResult(None, delay, [])
    decreases |rets| - k
  {
    if k < |rets| {
      RetrySpinsWithoutKicks(kicked, rets, delay, k + 1);
    }
  }

  /**
   * A state handle instantiated at probe time (by the boot loader, say) and
   * an instantiate_rng that keeps returning -EAGAIN keep the loop running
   * with the same delay, whatever the number of attempts.
   */
  lemma RetryDoesNotEndWithHandles(shInit: bv32, genSk: bool, attempts: seq<Attempt>)
    requires WellFormed(attempts) && shInit != 0
    requires forall j :: 0 <= j < |attempts| ==> AttemptRet(genSk, attempts[j]) == -EAGAIN
    ensures Retry(shInit, genSk, attempts) == RetryResult(None, RTSDCTL_ENT_DLY_MIN, [])
  {
    RetrySpinsWithoutKicks(KickPlan(shInit, attempts), AttemptRets(genSk, attempts), RTSDCTL_ENT_DLY_MIN, 0);
  }

  /**
   * The handles this driver instantiated, which caam_remove deinstantiates:
   * those of RDSTA_IFMASK that were not instantiated at probe time.
   */
  function OwnedHandles(shInit: bv32): bv32
  {
    !shInit & RDSTA_IFMASK
  }

  /** The handles found at probe time and those this driver owns split RDSTA_IFMASK between them. */
  lemma OwnedHandlesComplement(rdsta: bv32)
    ensures OwnedHandles(rdsta & RDSTA_IFMASK) & (rdsta & RDSTA_IFMASK) == 0
    ensures OwnedHandles(rdsta & RDSTA_IFMASK) | (rdsta & RDSTA_IFMASK) == RDSTA_IFMASK
  {
  }

  /**
   * The loop state after one more attempt, from kicks `kicks` and delay
   * `delay` before attempt `k` to `kicks'` and `delay'` after it.
   */
  lemma RetryAdvance(kicked: seq<bool>, rets: seq<int>, k: nat, kicks: seq<Delay>, delay: nat,
                     kicks': seq<Delay>, delay': nat)
    requires |kicked| == |rets| && k < |rets| && delay < RTSDCTL_ENT_DLY_MAX
    requires kicks' == if kicked[k] then kicks + [delay] else kicks
    requires delay' == if kicked[k] then delay + ENT_DLY_STEP else delay
    ensures rets[k] == -EAGAIN && delay' < RTSDCTL_ENT_DLY_MAX ==>
      PrependKicks(kicks, RetryFrom(kicked, rets, delay, k)) ==
      PrependKicks(kicks', RetryFrom(kicked, rets, delay', k + 1))
    ensures !(rets[k] == -EAGAIN && delay' < RTSDCTL_ENT_DLY_MAX) ==>
      PrependKicks(kicks, RetryFrom(kicked, rets, delay, k)) == RetryResult(Some(rets[k]), delay', kicks')
  {
    var step: seq<Delay> := if kicked[k] then [delay] else [];
    assert kicks' == kicks + step;
    if rets[k] == -EAGAIN && delay' < RTSDCTL_ENT_DLY_MAX {
      PrependTwice(kicks, step, RetryFrom(kicked, rets, delay', k + 1));
    } else {
      assert kicks' + [] == kicks';
    }
  }

  lemma KickAllAppend(r: TrngRegs, kicks: seq<Delay>, d: Delay)
    ensures KickAll(r, kicks + [d]) == KickRegs(KickAll(r, kicks), d)
  {
    assert (kicks + [d])[..|kicks|] == kicks;
  }

  /** The driver-private state the RNG set-up of caam_probe fills in. */
  class Controller {
    /** rng4_sh_init: the handles instantiated at probe time, then those this driver owns. */
    var rng4ShInit: bv32
    const trng: Trng

    constructor (trng: Trng)
      ensures this.trng == trng && rng4ShInit == 0
    {
      this.trng := trng;
      rng4ShInit := 0;
    }

    /**
     * The RNG set-up of caam_probe, from the RDSTA value read first: gen_sk
     * unless the secure keys are already valid, then the retry loop, then on
     * success the handles this driver owns.
     */
    method InstantiateAll(rdsta0: bv32, attempts: seq<Attempt>) returns (result: RetryResult, genSk: bool)
      requires WellFormed(attempts)
      modifies this, trng
      ensures genSk <==> rdsta0 & RDSTA_SKVN == 0
      ensures result == Retry(rdsta0 & RDSTA_IFMASK, genSk, attempts)
      ensures rng4ShInit ==
        if result.ret == Some(0) then OwnedHandles(rdsta0 & RDSTA_IFMASK) else rdsta0 & RDSTA_IFMASK
      ensures trng.Regs() == KickAll(old(trng.Regs()), result.kicks)
    {
      rng4ShInit := rdsta0;
      genSk := !(rng4ShInit & RDSTA_SKVN != 0);
      rng4ShInit := rng4ShInit & RDSTA_IFMASK;
      result := RetryLoop(rng4ShInit, genSk, attempts);
      if result.ret == Some(0) {
        rng4ShInit := !rng4ShInit & RDSTA_IFMASK;
      }
    }

    /** The do-while loop of caam_probe, kicking the TRNG of this controller. */
    method RetryLoop(shInit: bv32, genSk: bool, attempts: seq<Attempt>) returns (result: RetryResult)
      requires WellFormed(attempts)
      modifies trng
      ensures result == Retry(shInit, genSk, attempts)
      ensures trng.Regs() == KickAll(old(trng.Regs()), result.kicks)
    {
      ghost var regs0 := trng.Regs();
      ghost var target := Retry(shInit, genSk, attempts);
      var entDelay: nat := RTSDCTL_ENT_DLY_MIN;
      var kicks: seq<Delay> := [];
      var k := 0;
      while k < |attempts|
        invariant 0 <= k <= |attempts| && entDelay < RTSDCTL_ENT_DLY_MAX
        invariant trng.Regs() == KickAll(regs0, kicks)
        invariant target == PrependKicks(kicks, RetryFrom(KickPlan(shInit, attempts), AttemptRets(genSk, attempts), entDelay, k))
      {
        var ret;
        ret, kicks, entDelay := TryOnce(shInit, genSk, attempts, k, kicks, entDelay, regs0);
        if !(ret == -EAGAIN && entDelay < RTSDCTL_ENT_DLY_MAX) {
          return RetryResult(Some(ret), entDelay, kicks);
        }
        k := k + 1;
      }
      assert kicks + [] == kicks;
      result := RetryResult(None, entDelay, kicks);
    }

    /**
     * Attempt `k` of the loop: kick_trng when no handle is instantiated, then
     * instantiate_rng on the handles found instantiated; the loop state
     * (`kicks`, `entDelay`) moves on as the loop of the model does.
     */
    method TryOnce(shInit: bv32, genSk: bool, attempts: seq<Attempt>, k: nat, kicks: seq<Delay>, entDelay: nat,
                   ghost regs0: TrngRegs)
      returns (ret: int, kicks': seq<Delay>, entDelay': nat)
      requires WellFormed(attempts) && k < |attempts| && entDelay < RTSDCTL_ENT_DLY_MAX
      requires trng.Regs() == KickAll(regs0, kicks)
      modifies trng
      ensures trng.Regs() == KickAll(regs0, kicks')
      ensures ret == AttemptRets(genSk, attempts)[k]
      ensures ret == -EAGAIN && entDelay' < RTSDCTL_ENT_DLY_MAX ==>
        PrependKicks(kicks, RetryFrom(KickPlan(shInit, attempts), AttemptRets(genSk, attempts), entDelay, k)) ==
        PrependKicks(kicks', RetryFrom(KickPlan(shInit, attempts), AttemptRets(genSk, attempts), entDelay', k + 1))
      ensures !(ret == -EAGAIN && entDelay' < RTSDCTL_ENT_DLY_MAX) ==>
        PrependKicks(kicks, RetryFrom(KickPlan(shInit, attempts), AttemptRets(genSk, attempts), entDelay, k)) ==
        RetryResult(Some(ret), entDelay', kicks')
    {
      var a := attempts[k];
      var instHandles := a.rdsta & RDSTA_IFMASK;
      kicks', entDelay' := kicks, entDelay;
      if !(shInit != 0 || instHandles != 0) {
        trng.Kick(entDelay);
        KickAllAppend(regs0, kicks, entDelay);
        kicks' := kicks + [entDelay];
        entDelay' := entDelay + ENT_DLY_STEP;
      }
      var descs;
      ret, descs := InstantiateRng(instHandles, genSk, a.allocOk, a.runs);
      RetryAdvance(KickPlan(shInit, attempts), AttemptRets(genSk, attempts), k, kicks, entDelay, kicks', entDelay');
    }
  }
}
