/**
 * The PCI Express AER root-port service driver (drivers/pci/pcie/aer/aerdrv.c):
 * the ring of error sources that the root-port interrupt fills, the masking
 * of the uncorrectable status on error resume, and the port-type filter of
 * error-reporting control. The register meanings are those of the Advanced
 * Error Reporting capability, section 7.10 of the PCI Express Base
 * Specification 3.0; configuration reads are inputs and configuration writes
 * are recorded in a ghost log.
 */
module Aer {

  /** Size of the error-source ring (AER_ERROR_SOURCES_MAX of aerdrv.h). */
  const SOURCES_MAX: nat := 100

  /** Root Error Status bits (section 7.10.10): a correctable / an uncorrectable error message received. */
  const ROOT_COR_RCV: bv32 := 0x0000_0001
  const ROOT_UNCOR_RCV: bv32 := 0x0000_0004

  /** Device/port types of the PCI Express Capabilities register (section 7.8.2). */
  const TYPE_ROOT_PORT: nat := 0x4
  const TYPE_UPSTREAM: nat := 0x5
  const TYPE_DOWNSTREAM: nat := 0x6

  /** One recorded error: the Root Error Status and the Error Source Identification registers. */
  datatype ErrSource = ErrSource(status: bv32, id: bv32)

  /** The index after `i` in the ring. */
  function NextIndex(i: nat): (r: nat)
    requires i < SOURCES_MAX
    ensures r < SOURCES_MAX
    ensures r == (i + 1) % SOURCES_MAX
  {
    if i + 1 == SOURCES_MAX then 0 else i + 1
  }

  /** The number of entries between the consumer and the producer index. */
  function Count(prod: nat, cons: nat): (n: nat)
    requires prod < SOURCES_MAX && cons < SOURCES_MAX
    ensures n < SOURCES_MAX
    ensures (cons + n) % SOURCES_MAX == prod
  {
    if prod >= cons then prod - cons else prod + SOURCES_MAX - cons
  }

  /** The ring position `k` entries after `start`. */
  function Pos(start: nat, k: nat): nat
  {
    (start + k) % SOURCES_MAX
  }

  /** The `n` entries of the ring buffer `buf` from position `start` on, oldest first. */
  function RingSeq(buf: seq<ErrSource>, start: nat, n: nat): (r: seq<ErrSource>)
    requires |buf| == SOURCES_MAX && start < SOURCES_MAX && n <= SOURCES_MAX
    ensures |r| == n
    ensures forall k :: 0 <= k < n ==> r[k] == buf[Pos(start, k)]
  {
    if n == 0 then [] else RingSeq(buf, start, n - 1) + [buf[Pos(start, n - 1)]]
  }

  /** Writing a slot the first `n` entries do not occupy leaves them as they were. */
  lemma {:induction false} RingSeqOutside(buf: seq<ErrSource>, start: nat, n: nat, p: nat, e: ErrSource)
    requires |buf| == SOURCES_MAX && start < SOURCES_MAX && n <= SOURCES_MAX && p < SOURCES_MAX
    requires forall k :: 0 <= k < n ==> Pos(start, k) != p
    ensures RingSeq(buf[p := e], start, n) == RingSeq(buf, start, n)
  {
    if n > 0 {
      RingSeqOutside(buf, start, n - 1, p, e);
    }
  }

  /**
   * Storing an entry at the producer index of a ring that is not full
   * appends it to the recorded entries.
   */
  lemma RingPush(buf: seq<ErrSource>, prod: nat, cons: nat, e: ErrSource)
    requires |buf| == SOURCES_MAX && prod < SOURCES_MAX && cons < SOURCES_MAX
    requires NextIndex(prod) != cons
    ensures Count(NextIndex(prod), cons) == Count(prod, cons) + 1
    ensures RingSeq(buf[prod := e], cons, Count(NextIndex(prod), cons)) == RingSeq(buf, cons, Count(prod, cons)) + [e]
  {
    var n := Count(prod, cons);
    forall k | 0 <= k < n
      ensures Pos(cons, k) != prod
    {
      if cons + k < SOURCES_MAX {
        assert (cons + k) % SOURCES_MAX == cons + k;
      } else {
        assert (cons + k) % SOURCES_MAX == cons + k - SOURCES_MAX;
      }
    }
    RingSeqOutside(buf, cons, n, prod, e);
  }

  /** The outcome of an interrupt handler. */
  datatype IrqReturn = IrqNone | IrqHandled

  /** Whether a Root Error Status value reports a received error message. */
  predicate Reports(status: bv32)
  {
    status & (ROOT_UNCOR_RCV | ROOT_COR_RCV) != 0
  }

  /** struct aer_rpc: the error-source ring a root port's interrupt fills and its work handler drains. */
  class AerRpc {
    var sources: array<ErrSource>
    var prodIdx: nat
    var consIdx: nat
    /** The values written back to the Root Error Status register, oldest first. */
    ghost var statusWrites: seq<bv32>
    /** Whether the work handler (aer_isr) has been scheduled. */
    ghost var dpcScheduled: bool

    ghost predicate Valid()
      reads this
    {
      sources.Length == SOURCES_MAX && prodIdx < SOURCES_MAX && consIdx < SOURCES_MAX
    }

    /** The recorded error sources the work handler has not consumed yet, oldest first. */
    ghost function Pending(): (r: seq<ErrSource>)
      reads this, sources
      requires Valid()
      ensures |r| < SOURCES_MAX
    {
      RingSeq(sources[..], consIdx, Count(prodIdx, consIdx))
    }

    /** aer_alloc_rpc: a zeroed structure, so an empty ring. */
    constructor ()
      ensures Valid() && fresh(sources)
      ensures prodIdx == 0 && consIdx == 0 && Pending() == []
      ensures statusWrites == [] && !dpcScheduled
    {
      sources := new ErrSource[SOURCES_MAX](_ => ErrSource(0, 0));
      prodIdx, consIdx := 0, 0;
      statusWrites, dpcScheduled := [], false;
    }

    /**
     * aer_irq: `status` and `id` are the Root Error Status and Error Source
     * Identification registers. A status without a received error message
     * is not this port's interrupt. Otherwise the status is written back to
     * clear it and the source is queued for the work handler, unless the
     * ring is full, in which case the error is dropped (an error storm).
     */
    method Irq(status: bv32, id: bv32) returns (r: IrqReturn)
      requires Valid()
      modifies this, sources
      ensures Valid() && consIdx == old(consIdx)
      ensures !Reports(status) ==>
        && r == IrqNone && prodIdx == old(prodIdx) && sources[..] == old(sources[..])
        && statusWrites == old(statusWrites) && dpcScheduled == old(dpcScheduled)
      ensures Reports(status) ==> r == IrqHandled && statusWrites == old(statusWrites) + [status]
      ensures Reports(status) && NextIndex(old(prodIdx)) == consIdx ==>
        && prodIdx == old(prodIdx) && sources[..] == old(sources[..]) && dpcScheduled == old(dpcScheduled)
      ensures Reports(status) && NextIndex(old(prodIdx)) != consIdx ==>
        && sources[..] == old(sources[..])[old(prodIdx) := ErrSource(status, id)]
        && prodIdx == NextIndex(old(prodIdx)) && dpcScheduled
      ensures Reports(status) && NextIndex(old(prodIdx)) != consIdx ==> Pending() == old(Pending()) + [ErrSource(status, id)]
      ensures !(Reports(status) && NextIndex(old(prodIdx)) != consIdx) ==> Pending() == old(Pending())
    {
      if !Reports(status) {
        return IrqNone;
      }
      statusWrites := statusWrites + [status];
      var next := prodIdx + 1;
      if next == SOURCES_MAX {
        next := 0;
      }
      if next == consIdx {
        return IrqHandled;
      }
      RingPush(sources[..], prodIdx, consIdx, ErrSource(status, id));
      sources[prodIdx] := ErrSource(status, id);
      prodIdx := next;
      dpcScheduled := true;
      r := IrqHandled;
    }
  }

  /**
   * aer_error_resume: the Uncorrectable Error Status value written back,
   * given the status and the Uncorrectable Error Severity registers. Status
   * bits are write-1-to-clear, so what is written clears the non-fatal
   * errors: no bit of fatal severity is written, and together with the
   * status bits of fatal severity what is written makes up the whole status,
   * so a status bit is written exactly when it is set and not fatal.
   */
  function ResumeStatus(status: bv32, severity: bv32): (w: bv32)
    ensures w & severity == 0
    ensures w | (status & severity) == status
  {
    status & !severity
  }

  /** ResumeStatus's contract leaves one value: the status with the fatal bits cleared. */
  lemma ResumeStatusUnique(status: bv32, severity: bv32, w: bv32)
    requires w & severity == 0 && w | (status & severity) == status
    ensures w == ResumeStatus(status, severity)
  {
  }

  /** What set_device_error_reporting does to one device. */
  datatype ReportingAction = ReportingAction(toggle: bool, enable: bool, ecrc: bool)

  /**
   * set_device_error_reporting: error reporting is switched to `enable` on
   * root ports and switch ports only; ECRC checking is turned on for every
   * device when enabling. The walk always continues (the result is 0).
   */
  function SetDeviceErrorReporting(pcieType: nat, enable: bool): (a: ReportingAction)
    ensures a.toggle <==> pcieType in {TYPE_ROOT_PORT, TYPE_UPSTREAM, TYPE_DOWNSTREAM}
    ensures a.toggle ==> a.enable == enable
    ensures a.ecrc <==> enable
  {
    var port := pcieType == TYPE_ROOT_PORT || pcieType == TYPE_UPSTREAM || pcieType == TYPE_DOWNSTREAM;
    ReportingAction(port, port && enable, enable)
  }

  /** Endpoints and bridges other than ports keep their error-reporting setting whatever is requested. */
  lemma EndpointsUntouched(pcieType: nat, enable: bool)
    requires pcieType < TYPE_ROOT_PORT || pcieType > TYPE_DOWNSTREAM
    ensures !SetDeviceErrorReporting(pcieType, enable).toggle
  {
  }
}
