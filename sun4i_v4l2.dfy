/**
 * Format negotiation of the Allwinner A10 CMOS sensor interface driver
 * (drivers/media/platform/sunxi/sun4i-csi/sun4i_v4l2.c): the table of
 * supported formats, the adjustment of a requested multi-planar pixel format
 * to what the hardware can produce, and the input and buffer-type checks of
 * the V4L2 ioctls. The constants of the V4L2 interface are those of the
 * Linux userspace API header videodev2.h.
 */
module Sun4iV4l2 {
  import opened Common

  /** V4L2_BUF_TYPE_VIDEO_CAPTURE_MPLANE. */
  const BUF_TYPE_VIDEO_CAPTURE_MPLANE: nat := 9
  /** V4L2_FIELD_NONE and V4L2_COLORSPACE_SRGB. */
  const FIELD_NONE: nat := 1
  const COLORSPACE_SRGB: nat := 8
  /** VIDEO_MAX_PLANES: the plane entries of struct v4l2_pix_format_mplane. */
  const MAX_PLANES: nat := 8
  /** V4L2_PIX_FMT_YUV420M: v4l2_fourcc('Y', 'M', '1', '2'). */
  const PIX_FMT_YUV420M: nat := 0x3231_4D59
  /** CSI_MAX_WIDTH and CSI_MAX_HEIGHT. */
  const MAX_WIDTH: nat := 8192
  const MAX_HEIGHT: nat := 8192

  /** struct sun4i_csi_format without the bus code and the register values: the layout of a format. */
  datatype CsiFormat = CsiFormat(fourcc: nat, numPlanes: nat, bpp: seq<nat>, hsub: nat, vsub: nat)

  /** csi_formats[]: one planar YUV 4:2:0 format, subsampled by 2 in both directions. */
  const FORMATS: seq<CsiFormat> := [CsiFormat(PIX_FMT_YUV420M, 3, [8, 8, 8], 2, 2)]

  /** The table's formats are well formed: a bit depth per plane, at most MAX_PLANES planes, positive subsampling. */
  predicate FormatOk(f: CsiFormat)
  {
    && 1 <= f.numPlanes <= MAX_PLANES && |f.bpp| == f.numPlanes
    && f.hsub >= 1 && f.vsub >= 1 && MAX_WIDTH % f.hsub == 0 && MAX_HEIGHT % f.vsub == 0
  }

  lemma FormatsOk()
    ensures |FORMATS| >= 1 && forall i :: 0 <= i < |FORMATS| ==> FormatOk(FORMATS[i])
  {
  }

  /** The index of the first format of `table` from `from` on with this fourcc. */
  function FirstFormat(table: seq<CsiFormat>, fourcc: nat, from: nat): Option<nat>
    decreases |table| - from
  {
    if from >= |table| then None
    else if table[from].fourcc == fourcc then Some(from)
    else FirstFormat(table, fourcc, from + 1)
  }

  /** FirstFormat finds the first matching entry, and finds nothing only when no entry matches. */
  lemma {:induction false} FirstFormatFirst(table: seq<CsiFormat>, fourcc: nat, from: nat)
    ensures var r := FirstFormat(table, fourcc, from);
      && (r.Some? ==> from <= r.value < |table| && table[r.value].fourcc == fourcc
                      && forall j :: from <= j < r.value ==> table[j].fourcc != fourcc)
      && (r.None? ==> forall j :: from <= j < |table| ==> table[j].fourcc != fourcc)
    decreases |table| - from
  {
    if from < |table| && table[from].fourcc != fourcc {
      FirstFormatFirst(table, fourcc, from + 1);
    }
  }

  /** csi_get_format_by_fourcc: the index of the first table entry with this fourcc, or None. */
  method GetFormatByFourcc(fourcc: nat) returns (r: Option<nat>)
    ensures r == FirstFormat(FORMATS, fourcc, 0)
  {
    for i := 0 to |FORMATS|
      invariant FirstFormat(FORMATS, fourcc, i) == FirstFormat(FORMATS, fourcc, 0)
    {
      if FORMATS[i].fourcc == fourcc {
        return Some(i);
      }
    }
    return None;
  }

  /** The format _csi_try_fmt settles on: the requested one if known, else the first of the table. */
  function ChosenFormat(fourcc: nat): (i: nat)
    ensures i < |FORMATS|
    ensures FirstFormat(FORMATS, fourcc, 0).Some? ==> i == FirstFormat(FORMATS, fourcc, 0).value
    ensures FirstFormat(FORMATS, fourcc, 0).None? ==> i == 0
  {
    FirstFormatFirst(FORMATS, fourcc, 0);
    var r := FirstFormat(FORMATS, fourcc, 0);
    if r.Some? then r.value else 0
  }

  /**
   * ALIGN on an unsigned int: `x` rounded up to a multiple of the power of
   * two `a`, computed as (x + a - 1) & ~(a - 1) in 32 bits, so the sum wraps
   * for the largest values.
   */
  function Align(x: U32, a: nat): (r: U32)
    requires a >= 1 && U32_LIMIT % a == 0
    ensures x + a - 1 < U32_LIMIT ==> x <= r < x + a
    ensures x + a - 1 >= U32_LIMIT ==> r < a
  {
    DivisorAtMost(U32_LIMIT, a);
    var s := (x + a - 1) % U32_LIMIT;
    assert s == if x + a - 1 < U32_LIMIT then x + a - 1 else x + a - 1 - U32_LIMIT;
    ModRange(s, a);
    s - s % a
  }

  /** A positive multiple of `a` is at least `a`. */
  lemma DivisorAtMost(n: nat, a: nat)
    requires n >= 1 && a >= 1 && n % a == 0
    ensures a <= n
  {
  }

  lemma ModRange(s: int, a: int)
    requires a >= 1
    ensures 0 <= s % a < a
  {
  }

  /** For the subsampling of the table, 2, the aligned value is even. */
  lemma AlignEven(x: U32)
    ensures Align(x, 2) % 2 == 0
  {
  }

  /** One plane of struct v4l2_pix_format_mplane. */
  datatype PlaneFmt = PlaneFmt(bytesperline: nat, sizeimage: nat)

  /** The fields of struct v4l2_pix_format_mplane _csi_try_fmt reads or sets. */
  datatype PixFmt = PixFmt(width: U32, height: U32, pixelformat: nat, field: nat, colorspace: nat,
                           numPlanes: nat, planes: seq<PlaneFmt>)

  function Product(a: nat, b: nat): nat
  {
    a * b
  }

  /** The layout of plane `i` of format `f` at the given size: plane 0 is not subsampled. */
  function PlaneLayout(f: CsiFormat, i: nat, width: nat, height: nat): (p: PlaneFmt)
    requires FormatOk(f) && i < f.numPlanes
  {
    var hsub: nat := if i > 0 then f.hsub else 1;
    var vsub: nat := if i > 0 then f.vsub else 1;
    var bpl := Product(width / hsub, f.bpp[i]) / 8;
    PlaneFmt(bpl, Product(bpl, height) / vsub)
  }

  /**
   * The whole effect of _csi_try_fmt on the format: the chosen format's
   * fourcc and plane count, field NONE and colorspace SRGB, the size
   * aligned on the subsampling and clamped to [subsampling, 8192], and the
   * layout of each of the format's planes; the other plane entries keep
   * their values.
   */
  function TryFmtSpec(pix: PixFmt): (r: PixFmt)
    requires |pix.planes| == MAX_PLANES
    ensures |r.planes| == MAX_PLANES
  {
    FormatsOk();
    var f := FORMATS[ChosenFormat(pix.pixelformat)];
    var width := Clamp(Align(pix.width, f.hsub), f.hsub, MAX_WIDTH);
    var height := Clamp(Align(pix.height, f.vsub), f.vsub, MAX_HEIGHT);
    PixFmt(width, height, f.fourcc, FIELD_NONE, COLORSPACE_SRGB, f.numPlanes,
           seq(MAX_PLANES, i requires 0 <= i < MAX_PLANES =>
             if i < f.numPlanes then PlaneLayout(f, i, width, height) else pix.planes[i]))
  }

  /**
   * A format the hardware can capture: a known format, a size that is a
   * multiple of the subsampling within the hardware limits, and for each
   * plane a line length and an image size that hold the plane.
   */
  predicate Capturable(r: PixFmt)
  {
    && |r.planes| == MAX_PLANES
    && FirstFormat(FORMATS, r.pixelformat, 0).Some?
    && 2 <= r.width <= MAX_WIDTH && r.width % 2 == 0
    && 2 <= r.height <= MAX_HEIGHT && r.height % 2 == 0
    && r.numPlanes == 3 && r.field == FIELD_NONE && r.colorspace == COLORSPACE_SRGB
    && r.planes[0] == PlaneFmt(r.width, r.width * r.height)
    && r.planes[1] == PlaneFmt(r.width / 2, r.width / 2 * r.height / 2)
    && r.planes[2] == r.planes[1]
  }

  /** What _csi_try_fmt guarantees: whatever is asked for, the result is capturable. */
  lemma TryFmtBounds(pix: PixFmt)
    requires |pix.planes| == MAX_PLANES
    ensures Capturable(TryFmtSpec(pix))
  {
    var f := FORMATS[ChosenFormat(pix.pixelformat)];
    assert f == FORMATS[0];
    var r := TryFmtSpec(pix);
    AlignEven(pix.width);
    AlignEven(pix.height);
    assert r.width == Clamp(Align(pix.width, 2), 2, MAX_WIDTH);
    assert r.height == Clamp(Align(pix.height, 2), 2, MAX_HEIGHT);
    assert r.planes[0] == PlaneLayout(f, 0, r.width, r.height);
    assert r.planes[1] == PlaneLayout(f, 1, r.width, r.height);
    assert r.planes[2] == PlaneLayout(f, 2, r.width, r.height);
  }

  /** A size the hardware can capture is kept: the try step gives back any even size in [2, 8192] unchanged. */
  lemma TryFmtKeepsValid(pix: PixFmt)
    requires |pix.planes| == MAX_PLANES
    requires 2 <= pix.width <= MAX_WIDTH && pix.width % 2 == 0
    requires 2 <= pix.height <= MAX_HEIGHT && pix.height % 2 == 0
    ensures TryFmtSpec(pix).width == pix.width && TryFmtSpec(pix).height == pix.height
  {
  }

  /** Trying a format that was already tried changes nothing. */
  lemma TryFmtIdempotent(pix: PixFmt)
    requires |pix.planes| == MAX_PLANES
    ensures TryFmtSpec(TryFmtSpec(pix)) == TryFmtSpec(pix)
  {
    var r := TryFmtSpec(pix);
    TryFmtBounds(pix);
    TryFmtKeepsValid(r);
    var r2 := TryFmtSpec(r);
    assert ChosenFormat(r.pixelformat) == 0;
    assert r2.planes == r.planes;
  }

  /**
   * The wrap of ALIGN on an unsigned int: the largest width rounds up to
   * 0 and is then clamped to the minimum, 2, rather than to 8192.
   */
  lemma LargestWidthWraps(pix: PixFmt)
    requires |pix.planes| == MAX_PLANES && pix.width == U32_LIMIT - 1
    ensures TryFmtSpec(pix).width == 2
  {
    assert Align(pix.width, 2) == 0;
  }

  /** struct v4l2_pix_format_mplane, which the caller passes and _csi_try_fmt fills in. */
  class PixFormat {
    var width: U32
    var height: U32
    var pixelformat: nat
    var field: nat
    var colorspace: nat
    var numPlanes: nat
    var planes: array<PlaneFmt>

    ghost predicate Valid()
      reads this
    {
      planes.Length == MAX_PLANES
    }

    /** The fields as a value. */
    ghost function Value(): (v: PixFmt)
      reads this, planes
      requires Valid()
      ensures |v.planes| == MAX_PLANES
    {
      PixFmt(width, height, pixelformat, field, colorspace, numPlanes, planes[..])
    }

    constructor (v: PixFmt)
      requires |v.planes| == MAX_PLANES
      ensures Valid() && Value() == v && fresh(planes)
    {
      width, height, pixelformat, field, colorspace, numPlanes := v.width, v.height, v.pixelformat, v.field, v.colorspace, v.numPlanes;
      planes := new PlaneFmt[MAX_PLANES](i requires 0 <= i < MAX_PLANES => v.planes[i]);
    }
  }

  /** _csi_try_fmt: adjusts `pix` in place as TryFmtSpec says and returns the format index; the result is 0. */
  method TryFmt(pix: PixFormat) returns (rc: int, fmt: nat)
    requires pix.Valid()
    modifies pix, pix.planes
    ensures pix.Valid() && pix.planes == old(pix.planes) && rc == 0
    ensures pix.Value() == TryFmtSpec(old(pix.Value()))
    ensures fmt == ChosenFormat(old(pix.pixelformat))
  {
    ghost var v := pix.Value();
    ghost var r := TryFmtSpec(v);
    var found := GetFormatByFourcc(pix.pixelformat);
    if found.None? {
      found := GetFormatByFourcc(FORMATS[0].fourcc);
    }
    FormatsOk();
    fmt := found.value;
    assert fmt == ChosenFormat(v.pixelformat);
    var f := FORMATS[fmt];
    pix.field := FIELD_NONE;
    pix.colorspace := COLORSPACE_SRGB;
    pix.numPlanes := f.numPlanes;
    pix.pixelformat := f.fourcc;
    var width := Align(pix.width, f.hsub);
    var height := Align(pix.height, f.vsub);
    pix.width := Clamp(width, f.hsub, MAX_WIDTH);
    pix.height := Clamp(height, f.vsub, MAX_HEIGHT);
    assert pix.width == r.width && pix.height == r.height;
    LayOutPlanes(pix.planes, f, pix.width, pix.height);
    rc := 0;
    assert pix.planes[..] == r.planes;
  }

  /** The plane loop of _csi_try_fmt: the format's planes get their layout, the later entries are kept. */
  method LayOutPlanes(planes: array<PlaneFmt>, f: CsiFormat, width: nat, height: nat)
    requires FormatOk(f) && planes.Length == MAX_PLANES
    modifies planes
    ensures forall j :: 0 <= j < f.numPlanes ==> planes[j] == PlaneLayout(f, j, width, height)
    ensures forall j :: f.numPlanes <= j < MAX_PLANES ==> planes[j] == old(planes[j])
  {
    for i := 0 to f.numPlanes
      invariant forall j :: 0 <= j < i ==> planes[j] == PlaneLayout(f, j, width, height)
      invariant forall j :: i <= j < MAX_PLANES ==> planes[j] == old(planes[j])
    {
      planes[i] := PlaneLayout(f, i, width, height);
    }
  }

  /** The state of struct sun4i_csi the format ioctls use: the current format and its table entry (None for NULL). */
  class CsiFmt {
    var vFmt: PixFmt
    var pFmt: Option<nat>

    /**
     * The default format of csi_v4l2_register: YUV420M, 640x480, after the
     * try step. The table entry is not recorded; it stays NULL until the
     * first successful S_FMT.
     */
    constructor (planes: seq<PlaneFmt>)
      requires |planes| == MAX_PLANES
      ensures vFmt == TryFmtSpec(PixFmt(640, 480, PIX_FMT_YUV420M, 0, 0, 0, planes)) && pFmt == None
    {
      vFmt := TryFmtSpec(PixFmt(640, 480, PIX_FMT_YUV420M, 0, 0, 0, planes));
      pFmt := None;
    }

    /** csi_try_fmt_vid_cap: only multi-planar capture buffers, which are tried. */
    method TryFmtVidCap(bufType: nat, pix: PixFormat) returns (rc: int)
      requires pix.Valid()
      modifies pix, pix.planes
      ensures pix.Valid()
      ensures bufType != BUF_TYPE_VIDEO_CAPTURE_MPLANE ==> rc == -EINVAL && pix.Value() == old(pix.Value())
      ensures bufType == BUF_TYPE_VIDEO_CAPTURE_MPLANE ==> rc == 0 && pix.Value() == TryFmtSpec(old(pix.Value()))
    {
      if bufType != BUF_TYPE_VIDEO_CAPTURE_MPLANE {
        return -EINVAL;
      }
      var fmt;
      rc, fmt := TryFmt(pix);
    }

    /** csi_s_fmt_vid_cap: the tried format becomes the current one. */
    method SFmtVidCap(bufType: nat, pix: PixFormat) returns (rc: int)
      requires pix.Valid()
      modifies this, pix, pix.planes
      ensures pix.Valid()
      ensures bufType != BUF_TYPE_VIDEO_CAPTURE_MPLANE ==>
        rc == -EINVAL && pix.Value() == old(pix.Value()) && vFmt == old(vFmt) && pFmt == old(pFmt)
      ensures bufType == BUF_TYPE_VIDEO_CAPTURE_MPLANE ==>
        && rc == 0 && pix.Value() == TryFmtSpec(old(pix.Value())) && vFmt == pix.Value()
        && pFmt == Some(ChosenFormat(old(pix.pixelformat)))
    {
      if bufType != BUF_TYPE_VIDEO_CAPTURE_MPLANE {
        return -EINVAL;
      }
      var fmt;
      rc, fmt := TryFmt(pix);
      vFmt := PixFmt(pix.width, pix.height, pix.pixelformat, pix.field, pix.colorspace, pix.numPlanes, pix.planes[..]);
      pFmt := Some(fmt);
    }

    /** csi_g_fmt_vid_cap: the current format, for multi-planar capture buffers only. */
    method GFmtVidCap(bufType: nat) returns (rc: int, v: Option<PixFmt>)
      ensures bufType != BUF_TYPE_VIDEO_CAPTURE_MPLANE ==> rc == -EINVAL && v.None?
      ensures bufType == BUF_TYPE_VIDEO_CAPTURE_MPLANE ==> rc == 0 && v == Some(vFmt)
    {
      if bufType != BUF_TYPE_VIDEO_CAPTURE_MPLANE {
        return -EINVAL, None;
      }
      return 0, Some(vFmt);
    }
  }

  /** csi_enum_fmt_vid_cap: the fourcc of table entry `index`, -EINVAL past the table. */
  function EnumFmt(index: nat): (int, Option<nat>)
  {
    if index >= |FORMATS| then (-EINVAL, None) else (0, Some(FORMATS[index].fourcc))
  }

  /**
   * ENUM_FMT lists exactly the fourccs of the table, and the indices it
   * accepts are those below the table's size.
   */
  lemma EnumeratesTable(c: nat, index: nat)
    ensures EnumFmt(index).0 == 0 <==> index < |FORMATS|
    ensures (exists i: nat :: EnumFmt(i) == (0, Some(c))) <==> (exists j :: 0 <= j < |FORMATS| && FORMATS[j].fourcc == c)
  {
    if exists j :: 0 <= j < |FORMATS| && FORMATS[j].fourcc == c {
      var j :| 0 <= j < |FORMATS| && FORMATS[j].fourcc == c;
      assert EnumFmt(j) == (0, Some(c));
    }
  }

  /** Every format enumerated is one the try step keeps. */
  lemma EnumeratedFormatsKept(index: nat, pix: PixFmt)
    requires |pix.planes| == MAX_PLANES && EnumFmt(index).1.Some? && pix.pixelformat == EnumFmt(index).1.value
    ensures TryFmtSpec(pix).pixelformat == pix.pixelformat
  {
  }

  /** csi_enum_input and csi_s_input: a single camera input, index 0. */
  function InputCheck(index: nat): int
  {
    if index != 0 then -EINVAL else 0
  }

  /** csi_g_input: the code, and the index of the current input. */
  function GInput(): (int, nat)
  {
    (0, 0)
  }

  /**
   * The one input G_INPUT reports is the only one that ENUM_INPUT lists and
   * S_INPUT selects; every other index is refused with -EINVAL.
   */
  lemma InputsAgree(index: nat)
    ensures GInput().0 == 0
    ensures InputCheck(index) == 0 <==> index == GInput().1
    ensures InputCheck(index) != 0 ==> InputCheck(index) == -EINVAL
  {
  }
}
