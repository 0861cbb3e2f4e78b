/** Packing an image into columns as one strided copy: the gather that `lib/Transforms/ConvToImg2Col/ConvToImg2ColPass.cpp`
    emits meets everything `lib/Transforms/GatherToMemrefCopy/GatherToMemrefCopyPass.cpp` asks of one. */
module PackCopy {
  import opened Arith
  import opened Memory
  import opened MemrefCopy
  import opened GatherCopy
  import opened Odometer
  import RowMajor
  import FillToMemset

  /** A buffer of its own in the identity layout. */
  datatype Buffer = Buffer(base: nat, shifts: seq<int>)

  datatype Pack = Pack(h: nat, w: nat, c: nat, oh: nat, ow: nat, kh: nat, kw: nat, sh: nat, sw: nat, dh: nat, dw: nat,
                       image: Buffer, columns: Buffer, bits: nat, space: nat) {
    /** The window of the last output position ends inside the image. */
    predicate Valid() {
      && h > 0 && w > 0 && c > 0 && oh > 0 && ow > 0 && kh > 0 && kw > 0 && bits > 0
      && (oh - 1) * sh + (kh - 1) * dh < h && (ow - 1) * sw + (kw - 1) * dw < w
    }
    function ImageShape(): seq<nat> { [1, h, w, c] }
    function ColumnShape(): seq<nat> { [1, oh, ow, kh, kw, c] }
  }

  /** It may end where the image does. */
  lemma TightFits(p: Pack)
    requires p.oh > 0 && p.ow > 0 && p.kh > 0 && p.kw > 0 && p.c > 0 && p.bits > 0
    requires p.h == (p.oh - 1) * p.sh + (p.kh - 1) * p.dh + 1 && p.w == (p.ow - 1) * p.sw + (p.kw - 1) * p.dw + 1
    ensures p.Valid() && p.ImageShape() == [1, p.h, p.w, p.c] && p.ColumnShape() == [1, p.oh, p.ow, p.kh, p.kw, p.c]
  {
    Multiplied(p.oh - 1, p.sh);
    Multiplied(p.kh - 1, p.dh);
    Multiplied(p.ow - 1, p.sw);
    Multiplied(p.kw - 1, p.dw);
  }

  lemma Multiplied(x: nat, y: nat)
    ensures x * y >= 0
  {
  }

  function Strides(shape: seq<nat>): (s: seq<int>)
    ensures |s| == |shape|
  {
    seq(|shape|, d requires 0 <= d < |shape| => RowMajor.Volume(shape[d + 1..]))
  }

  function RefOf(b: Buffer, shape: seq<nat>, bits: nat, space: nat): Ref {
    Ref(b.base, b.shifts, 0, shape, Strides(shape), bits, space)
  }

  function Window(out: nat, stride: int, tap: nat, dilation: int): Expr {
    Add(Mul(Dim(out), Cst(stride)), Mul(Dim(tap), Cst(dilation)))
  }

  lemma WindowFacts(out: nat, stride: int, tap: nat, dilation: int, t: seq<nat>, symbols: nat -> int)
    requires out < |t| && tap < |t|
    ensures DimsBelow(Window(out, stride, tap, dilation), |t|) && Linear(Window(out, stride, tap, dilation))
    ensures Eval(Window(out, stride, tap, dilation), t, symbols) == Times(t[out], stride) + Times(t[tap], dilation)
  {
    hide Times;
    var l, r := Mul(Dim(out), Cst(stride)), Mul(Dim(tap), Cst(dilation));
    assert DimsBelow(l, |t|) && Linear(l) && Eval(l, t, symbols) == Times(t[out], stride);
    assert DimsBelow(r, |t|) && Linear(r) && Eval(r, t, symbols) == Times(t[tap], dilation);
  }

  /** The gather: `(n, y, x, i, j, c)` reads `(n, y * sh + i * dh, x * sw + j * dw, c)`. */
  function SiteOf(p: Pack): Site {
    Site(RefOf(p.image, p.ImageShape(), p.bits, p.space), RefOf(p.columns, p.ColumnShape(), p.bits, p.space),
         [Dim(0), Window(1, p.sh, 3, p.dh), Window(2, p.sw, 4, p.dw), Dim(5)], [0, 1, 2, 3, 4, 5])
  }

  /** The strides of the view of overlapping windows. */
  function ViewStrides(p: Pack): seq<int> {
    var s := Strides(p.ImageShape());
    [s[0], Times(p.sh, s[1]), Times(p.sw, s[2]), Times(p.dh, s[1]), Times(p.dw, s[2]), s[3]]
  }

  lemma StridesForward(shape: seq<nat>)
    ensures Forward(shape, Strides(shape)) && FillToMemset.PackedFrom(shape, Strides(shape), 0)
  {
    hide RowMajor.Volume;
  }

  lemma {:induction false} SiteFits(p: Pack)
    requires p.Valid()
    ensures SiteOf(p).Valid() && Permutation(SiteOf(p).write, SiteOf(p).write) && LoopsFit(SiteOf(p), p.ColumnShape())
    ensures forall r | 0 <= r < 4 :: Linear(SiteOf(p).read[r])
    ensures NoEmptyDimension(p.ImageShape()) && NoEmptyDimension(p.ColumnShape())
  {
    hide Strides;
    var site := SiteOf(p);
    assert site.read[0] == Dim(0) && site.read[3] == Dim(5);
    assert site.read[1] == Window(1, p.sh, 3, p.dh) && site.read[2] == Window(2, p.sw, 4, p.dw);
    WindowFacts(1, p.sh, 3, p.dh, site.write, _ => 0);
    WindowFacts(2, p.sw, 4, p.dw, site.write, _ => 0);
    hide Window;
  }

  lemma {:induction false} DotSix(t: seq<nat>, s: seq<int>)
    requires |t| == |s| == 6
    ensures Dot(t, s) == t[0] * s[0] + t[1] * s[1] + t[2] * s[2] + t[3] * s[3] + t[4] * s[4] + t[5] * s[5]
  {
    assert t[..0] == [];
    DotAt(t, s, 0);
    DotAt(t, s, 1);
    DotAt(t, s, 2);
    DotAt(t, s, 3);
    DotAt(t, s, 4);
    DotAt(t, s, 5);
    assert t[..6] == t;
  }

  lemma DotAt(t: seq<nat>, s: seq<int>, k: nat)
    requires k < |t| == |s|
    ensures Dot(t[..k + 1], s) == Dot(t[..k], s) + t[k] * s[k]
  {
    assert t[..k + 1] == t[..k] + [t[k]];
    DotSnoc(t[..k], t[k], s);
  }

  /** What the four results read, in elements from the image's first. */
  lemma {:induction false} ReadFour(p: Pack, t: seq<nat>, symbols: nat -> int)
    requires p.Valid() && |t| == 6 && SiteOf(p).Valid()
    ensures var s := Strides(p.ImageShape());
      ReadOffset(SiteOf(p).read, s, t, symbols)
      == Times(s[0], t[0]) + Times(s[1], Times(t[1], p.sh) + Times(t[3], p.dh))
         + Times(s[2], Times(t[2], p.sw) + Times(t[4], p.dw)) + Times(s[3], t[5])
  {
    var s, read := Strides(p.ImageShape()), SiteOf(p).read;
    hide Times, Strides;
    SiteFits(p);
    assert read[..0] == [] && s[..0] == [];
    ReadOffsetSnoc(read, s, 0, t, symbols);
    ReadOffsetSnoc(read, s, 1, t, symbols);
    ReadOffsetSnoc(read, s, 2, t, symbols);
    ReadOffsetSnoc(read, s, 3, t, symbols);
    assert read[..4] == read && s[..4] == s;
    WindowFacts(1, p.sh, 3, p.dh, t, symbols);
    WindowFacts(2, p.sw, 4, p.dw, t, symbols);
  }

  lemma Rearrange(s: int, y: int, stride: int, i: int, dilation: int)
    ensures Times(s, Times(y, stride) + Times(i, dilation)) == y * Times(stride, s) + i * Times(dilation, s)
  {
    assert s * (y * stride + i * dilation) == y * (stride * s) + i * (dilation * s);
  }

  /** The view with those strides reads at every index what the gather read there. */
  lemma {:induction false} PackReads(p: Pack, symbols: nat -> int)
    requires p.Valid() && SiteOf(p).Valid()
    ensures Reads(SiteOf(p), ViewStrides(p), 0, symbols)
  {
    var site, view, s := SiteOf(p), ViewStrides(p), Strides(p.ImageShape());
    hide ReadOffset, Dot, Strides, Times;
    forall t: seq<nat> | |t| == 6 ensures ReadsAt(site, view, 0, symbols, t) {
      assert Written(site.write, t) == t;
      DotSix(t, view);
      ReadFour(p, t, symbols);
      Rearrange(s[1], t[1], p.sh, t[3], p.dh);
      Rearrange(s[2], t[2], p.sw, t[4], p.dw);
      TimesIs(s[0], t[0]);
      TimesIs(s[3], t[5]);
    }
  }

  lemma TapBound(y: nat, oh: nat, stride: nat, i: nat, kh: nat, dilation: nat, h: nat)
    requires y < oh && i < kh && (oh - 1) * stride + (kh - 1) * dilation < h
    ensures 0 <= Times(y, stride) + Times(i, dilation) < h
  {
    MulLess(y, oh - 1, stride);
    MulLess(i, kh - 1, dilation);
  }

  /** Every tap lies in the image. */
  lemma {:induction false} PackInside(p: Pack, symbols: nat -> int)
    requires p.Valid() && SiteOf(p).Valid() && LoopsFit(SiteOf(p), p.ColumnShape())
    ensures ReadsInside(SiteOf(p), p.ColumnShape(), symbols)
  {
    var site := SiteOf(p);
    hide Strides, Times;
    forall t | IsIndex(p.ColumnShape(), t) ensures ReadsElement(site, symbols, t) {
      PackInsideAt(p, symbols, t);
    }
  }

  lemma {:induction false} PackInsideAt(p: Pack, symbols: nat -> int, t: seq<nat>)
    requires p.Valid() && SiteOf(p).Valid() && IsIndex(p.ColumnShape(), t)
    ensures |t| == 6 && ReadsElement(SiteOf(p), symbols, t)
  {
    hide Strides, Times, Eval;
    TapBound(t[1], p.oh, p.sh, t[3], p.kh, p.dh, p.h);
    TapBound(t[2], p.ow, p.sw, t[4], p.kw, p.dw, p.w);
    WindowFacts(1, p.sh, 3, p.dh, t, symbols);
    WindowFacts(2, p.sw, 4, p.dw, t, symbols);
    assert Eval(Dim(0), t, symbols) == t[0] && Eval(Dim(5), t, symbols) == t[5] by { DimsEval(t, symbols); }
    hide Window;
    var q: seq<nat> := [t[0], Times(t[1], p.sh) + Times(t[3], p.dh), Times(t[2], p.sw) + Times(t[4], p.dw), t[5]];
    assert IsIndex(p.ImageShape(), q);
    assert IsRead(SiteOf(p), symbols, t, q);
  }

  lemma DimsEval(t: seq<nat>, symbols: nat -> int)
    requires |t| == 6
    ensures Eval(Dim(0), t, symbols) == t[0] && Eval(Dim(5), t, symbols) == t[5]
  {
  }

  /** A destination in row-major order has no two elements that share a byte. */
  lemma {:induction false} PackedInjective(j: Job, strides: seq<int>)
    requires j.Valid() && |strides| == |j.sizes| && j.toStrides == Scaled(strides, j.elem) && FillToMemset.PackedFrom(j.sizes, strides, 0)
    ensures Injective(j)
  {
    hide Dot, RowMajor.Flat, RowMajor.Volume, FillToMemset.PackedFrom;
    forall p, b: nat, m, q, c: nat, n | ByteOf(j, p, b, m) && ByteOf(j, q, c, n) && m.to == n.to ensures p == q && b == c {
      DotScaled(p, strides, j.elem);
      DotScaled(q, strides, j.elem);
      FillToMemset.DotIsFlat(j.sizes, strides, p);
      FillToMemset.DotIsFlat(j.sizes, strides, q);
      DivModUnique(RowMajor.Flat(j.sizes, p), b, j.elem);
      DivModUnique(RowMajor.Flat(j.sizes, q), c, j.elem);
      RowMajor.IndexOfFlat(j.sizes, p);
      RowMajor.IndexOfFlat(j.sizes, q);
    }
  }

  lemma {:induction false} PackEligible(p: Pack)
    requires p.Valid() && p.bits % 8 == 0 && SiteOf(p).Valid() && p.image.base != p.columns.base
    ensures Eligible(SiteOf(p))
    ensures Forward(SiteOf(p).src.sizes, SiteOf(p).src.strides) && Forward(SiteOf(p).dst.sizes, SiteOf(p).dst.strides)
  {
    SiteFits(p);
    StridesForward(p.ImageShape());
    StridesForward(p.ColumnShape());
    PermutationFacts(SiteOf(p).write, SiteOf(p).write);
    hide Strides, Forward, Linear, Permutes, GatherCopy.Window;
  }

  lemma {:induction false} PackJobInjective(p: Pack, places: Places)
    requires SiteOf(p).Valid()
    ensures var job := CopyJob(SiteOf(p), ViewStrides(p), 0, places); job.Valid() && Injective(job)
  {
    StridesForward(p.ColumnShape());
    hide Strides, Times, Injective;
    PackedInjective(CopyJob(SiteOf(p), ViewStrides(p), 0, places), Strides(p.ColumnShape()));
  }

  /** For all shapes, strides and dilations whose windows fit the image, packing is the copy from the view of
      overlapping windows: memory ends exactly as the element-by-element pack leaves it. */
  lemma {:induction false} PackIsCopy(p: Pack, places: Places, symbols: nat -> int, mem: seq<byte>)
    requires p.Valid() && p.bits % 8 == 0 && SiteOf(p).Valid() && p.image.base != p.columns.base
    requires InMemory(SiteOf(p), places, |mem|) && PlacedApart(SiteOf(p), places)
    ensures Eligible(SiteOf(p)) && Reads(SiteOf(p), ViewStrides(p), 0, symbols)
    ensures var job, moves := CopyJob(SiteOf(p), ViewStrides(p), 0, places), GatherMoves(SiteOf(p), p.ColumnShape(), places, symbols);
      InBounds(moves, |mem|) && job.Safe(|mem|) && Apply(mem, moves) == Apply(mem, job.Moves())
  {
    SiteFits(p);
    PackEligible(p);
    PackReads(p, symbols);
    PackInside(p, symbols);
    PackJobInjective(p, places);
    hide SiteOf, ViewStrides, Reads, ReadsInside, InMemory, PlacedApart, Forward, Injective, GatherMoves, CopyJob, Eligible, LoopsFit;
    GatherIsCopy(SiteOf(p), p.ColumnShape(), ViewStrides(p), 0, places, symbols, mem);
  }
}
