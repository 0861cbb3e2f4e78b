/** When `FoldPaddingIntoConv` keeps the meaning of a program. Besides order and quiet, which its scan does not check,
    that depends on where the call puts its results: before the fold it reads the padded buffer, after it the source,
    and its output may share memory with either. */
module PaddingExact {
  import opened PaddingFold
  import opened Sums
  import opened Wrappers

  /** One accumulator of the call: batch, row, column, output channel. */
  datatype Out = Out(n: nat, y: nat, x: nat, k: nat)

  /** Where a result ends up in the memory the output shares, if it does, once the accumulator has been computed. */
  type Landing = Out -> Option<Place>

  /** The memory the call's output shares with another buffer. */
  datatype Shares = Apart | WithPadded(lands: Landing) | WithSource(lands: Landing)

  /** What is stored when an accumulator is the last computed: whatever bias, scale and pooling make of it and of those
      computed before it. */
  type Finish = seq<int> -> int

  /** How a call reads the buffer it is given, and what it writes there. */
  datatype Way = Way(rows: nat, cols: nat, padding: nat, spread: nat, lands: Landing)

  function Nowhere(): Landing { (o: Out) => None }

  /** The call as it was: over the padded buffer. */
  function WayBefore(g: Geometry, v: Params, shares: Shares): Way
    requires ShapeMatches(g)
  {
    Way(g.full[1], g.full[2], 0, v.inputDilation, if shares.WithPadded? then shares.lands else Nowhere())
  }

  /** The call as the fold leaves it: over the source. */
  function WayAfter(g: Geometry, shares: Shares): Way
    requires ShapeMatches(g) && g.offset[1] >= 0
  {
    Way(g.size[1], g.size[2], g.offset[1], g.stride[1], if shares.WithSource? then shares.lands else Nowhere())
  }

  function Seen(m: Image, w: Way): Image
    requires w.spread > 0
  {
    Bordered(m, Zero(), w.rows, w.cols, w.padding, w.spread)
  }

  function SumOf(a: Image, filter: Filter, v: Params, o: Out): int { Output(a, filter, v, o.n, o.y, o.x, o.k) }

  /** The buffer when these accumulators have been computed and what they give has been stored. */
  function Landed(m: Image, w: Way, order: seq<Out>, sums: seq<int>, finish: Finish): Image
    requires |sums| <= |order|
    decreases |sums|
  {
    if sums == [] then m
    else
      var earlier := Landed(m, w, order, sums[..|sums| - 1], finish);
      var at := w.lands(order[|sums| - 1]);
      if at.None? then earlier else (p: Place) => if p == at.value then finish(sums) else earlier(p)
  }

  /** The first `n` accumulators in the order they are computed, each out of the buffer as the ones before it left it. */
  function Accumulated(m: Image, w: Way, order: seq<Out>, n: nat, filter: Filter, v: Params, finish: Finish): (r: seq<int>)
    requires n <= |order| && w.spread > 0
    ensures |r| == n
  {
    if n == 0 then []
    else
      var done := Accumulated(m, w, order, n - 1, filter, v, finish);
      done + [SumOf(Seen(Landed(m, w, order, done, finish), w), filter, v, order[n - 1])]
  }

  /** The accumulators a call has to compute. */
  predicate IsOutput(g: Geometry, v: Params, o: Out)
    requires Verified(g, v)
  {
    && o.n < g.size[0] && o.k < v.outputs
    && o.y < OutExtent(Spread(g.full[1], v.inputDilation), v.kernel, v.stride, 0, v.dilation)
    && o.x < OutExtent(Spread(g.full[2], v.inputDilation), v.kernel, v.stride, 0, v.dilation)
  }

  /** Some order in which to compute them. */
  ghost predicate Complete(g: Geometry, v: Params, order: seq<Out>)
    requires Verified(g, v)
  {
    forall o: Out :: o in order <==> IsOutput(g, v, o)
  }

  /** Both calls have the same extents and compute the same, for any filter and whatever is made of the accumulators. */
  ghost predicate KeepsOutputs(end: State, g: Geometry, v: Params, order: seq<Out>, shares: Shares)
    requires Verified(g, v)
  {
    && Rows(Before(end, g, v), v) == Rows(After(end, g), v) && Cols(Before(end, g, v), v) == Cols(After(end, g), v)
    && forall filter: Filter, finish: Finish ::
         Accumulated(end.padded, WayBefore(g, v, shares), order, |order|, filter, v, finish)
         == Accumulated(end.source, WayAfter(g, shares), order, |order|, filter, v, finish)
  }

  /** Whatever the buffers hold at first, the source is given and freed memory is left with. */
  ghost predicate KeepsMeaning(ops: seq<Op>, g: Geometry, v: Params, order: seq<Out>, shares: Shares)
    requires Verified(g, v)
  {
    forall s, data :: KeepsOutputs(Run(ops, |ops|, s, g, data), g, v, order, shares)
  }

  // Which elements of its buffer an output reads.

  predicate HitsBoth(w: Way, y: nat, x: nat)
    requires w.spread > 0
  {
    Hits(y, w.padding, w.spread, w.rows) && Hits(x, w.padding, w.spread, w.cols)
  }

  /** The element of the buffer that a position of what the filter slides over shows. */
  function Behind(w: Way, n: nat, y: nat, x: nat, ch: nat): Place
    requires w.spread > 0 && HitsBoth(w, y, x)
  {
    Place(n, (y - w.padding) / w.spread, (x - w.padding) / w.spread, ch)
  }

  /** One tap of an output reads an element of the buffer. */
  predicate ReadsAt(w: Way, v: Params, o: Out, p: Place, i: nat, j: nat)
    requires w.spread > 0
  {
    && i < v.kernel && j < v.kernel && HitsBoth(w, Along(v, o.y, i), Along(v, o.x, j))
    && p == Behind(w, o.n, Along(v, o.y, i), Along(v, o.x, j), p.ch) && Uses(v, o.k, p.ch)
  }

  ghost predicate Reads(w: Way, v: Params, o: Out, p: Place)
    requires w.spread > 0
  {
    exists i, j :: ReadsAt(w, v, o, p, i, j)
  }

  /** No output reads what an earlier one has been put over. */
  ghost predicate Untroubled(w: Way, v: Params, order: seq<Out>)
    requires w.spread > 0
  {
    forall i, j | 0 <= i < j < |order| && w.lands(order[i]).Some? :: !Reads(w, v, order[j], w.lands(order[i]).value)
  }

  lemma {:induction false} ReadsDecide(m: Image, m': Image, w: Way, filter: Filter, v: Params, o: Out)
    requires w.spread > 0 && forall p | Reads(w, v, o, p) :: m(p) == m'(p)
    ensures SumOf(Seen(m, w), filter, v, o) == SumOf(Seen(m', w), filter, v, o)
  {
    hide Tap, Along, Hits;
    forall i: nat, j: nat | i < v.kernel && j < v.kernel
      ensures Tap(Seen(m, w), filter, v, o.n, Along(v, o.y, i), Along(v, o.x, j), i, j, o.k)
           == Tap(Seen(m', w), filter, v, o.n, Along(v, o.y, i), Along(v, o.x, j), i, j, o.k)
    {
      var y, x := Along(v, o.y, i), Along(v, o.x, j);
      forall ch: nat | Uses(v, o.k, ch) ensures Seen(m, w)(Place(o.n, y, x, ch)) == Seen(m', w)(Place(o.n, y, x, ch)) {
        if HitsBoth(w, y, x) {
          assert ReadsAt(w, v, o, Behind(w, o.n, y, x, ch), i, j);
        }
      }
      TapExt(Seen(m, w), Seen(m', w), filter, v, o.n, y, x, i, j, o.k);
    }
    OutputExt(Seen(m, w), Seen(m', w), filter, v, o.n, o.y, o.x, o.k);
  }

  lemma {:induction false} LandedElsewhere(m: Image, w: Way, order: seq<Out>, sums: seq<int>, finish: Finish, p: Place)
    requires |sums| <= |order| && forall i | 0 <= i < |sums| :: w.lands(order[i]) != Some(p)
    ensures Landed(m, w, order, sums, finish)(p) == m(p)
    decreases |sums|
  {
    if sums != [] {
      LandedElsewhere(m, w, order, sums[..|sums| - 1], finish, p);
    }
  }

  lemma {:induction false} AccumulatedAt(m: Image, w: Way, order: seq<Out>, n: nat, filter: Filter, v: Params, finish: Finish, t: nat)
    requires t < n <= |order| && w.spread > 0
    ensures Accumulated(m, w, order, n, filter, v, finish)[t]
         == SumOf(Seen(Landed(m, w, order, Accumulated(m, w, order, t, filter, v, finish), finish), w), filter, v, order[t])
    decreases n
  {
    hide SumOf, Seen, Landed;
    if t < n - 1 {
      AccumulatedAt(m, w, order, n - 1, filter, v, finish, t);
    }
  }

  /** Then every accumulator is what it would be if the results went elsewhere. */
  lemma {:induction false} UntroubledAt(m: Image, w: Way, order: seq<Out>, filter: Filter, v: Params, finish: Finish, t: nat)
    requires w.spread > 0 && Untroubled(w, v, order) && t < |order|
    ensures Accumulated(m, w, order, |order|, filter, v, finish)[t] == SumOf(Seen(m, w), filter, v, order[t])
  {
    hide SumOf, Seen, Reads;
    AccumulatedAt(m, w, order, |order|, filter, v, finish, t);
    var done := Accumulated(m, w, order, t, filter, v, finish);
    forall p | Reads(w, v, order[t], p) ensures Landed(m, w, order, done, finish)(p) == m(p) {
      LandedElsewhere(m, w, order, done, finish, p);
    }
    ReadsDecide(Landed(m, w, order, done, finish), m, w, filter, v, order[t]);
  }

  // When some output does.

  /** Every result is a one. */
  function Ones(): Finish { (sums: seq<int>) => 1 }

  ghost predicate Blank(m: Image) {
    forall p :: m(p) == 0
  }

  lemma {:induction false} OnesLand(m: Image, w: Way, order: seq<Out>, sums: seq<int>, p: Place)
    requires |sums| <= |order| && Blank(m)
    ensures 0 <= Landed(m, w, order, sums, Ones())(p) <= 1
    ensures (exists i :: 0 <= i < |sums| && w.lands(order[i]) == Some(p)) ==> Landed(m, w, order, sums, Ones())(p) == 1
    decreases |sums|
  {
    if sums != [] {
      OnesLand(m, w, order, sums[..|sums| - 1], p);
    }
  }

  lemma {:induction false} BlankSum(m: Image, w: Way, v: Params, o: Out, i: nat, j: nat)
    requires w.spread > 0 && Blank(m) && i < v.kernel && j < v.kernel
    ensures SumOf(Seen(m, w), Single(i, j), v, o) == 0
  {
    var y, x := Along(v, o.y, i), Along(v, o.x, j);
    hide Tap, Along, Output, Single, Hits;
    SingleOutput(Seen(m, w), v, o.n, o.y, o.x, i, j, o.k);
    forall ch: nat ensures Seen(m, w)(Place(o.n, y, x, ch)) == 0 {
      assert HitsBoth(w, y, x) ==> m(Behind(w, o.n, y, x, ch)) == 0;
    }
    BlankTap(Seen(m, w), v, o.n, y, x, i, j, o.k);
  }

  lemma {:induction false} BlankTap(a: Image, v: Params, n: nat, y: nat, x: nat, i: nat, j: nat, k: nat)
    requires forall ch: nat :: a(Place(n, y, x, ch)) == 0
    ensures Tap(a, Single(i, j), v, n, y, x, i, j, k) == 0
  {
    hide Single;
    SumZero(v.channels, (ch: nat) => a(Place(n, y, x, ch)) * Single(i, j)(i, j, ch, k));
  }

  /** A sum without negative terms is at least any of them. */
  lemma {:induction false} SumHolds(n: nat, f: nat -> int, c: nat)
    requires c < n && forall i: nat | i < n :: f(i) >= 0
    ensures Sum(n, f) >= f(c)
    decreases n
  {
    if c < n - 1 {
      SumHolds(n - 1, f, c);
    } else {
      SumPositive(n - 1, f);
    }
  }

  lemma {:induction false} SumPositive(n: nat, f: nat -> int)
    requires forall i: nat | i < n :: f(i) >= 0
    ensures Sum(n, f) >= 0
  {
    if n > 0 {
      SumPositive(n - 1, f);
    }
  }

  lemma {:induction false} TapShows(a: Image, v: Params, n: nat, y: nat, x: nat, i: nat, j: nat, k: nat, ch: nat)
    requires (forall c: nat :: a(Place(n, y, x, c)) >= 0) && a(Place(n, y, x, ch)) >= 1 && Uses(v, k, ch)
    ensures Tap(a, Single(i, j), v, n, y, x, i, j, k) >= 1
  {
    hide Single;
    assert forall c: nat :: Single(i, j)(i, j, c, k) == 1 by { SingleAt(i, j, k); }
    var f := (c: nat) => a(Place(n, y, x, c)) * Single(i, j)(i, j, c, k);
    forall c: nat ensures f(c) == a(Place(n, y, x, c)) {
      assert Single(i, j)(i, j, c, k) == 1;
    }
    if v.dense {
      SumHolds(v.channels, f, ch);
    } else {
      assert Single(i, j)(i, j, 0, k) == 1;
    }
  }

  /** From blank memory, an output that reads what an earlier one was put over shows it. */
  lemma {:induction false} TroubleShows(m: Image, w: Way, v: Params, order: seq<Out>, a: nat, b: nat, i: nat, j: nat)
    requires w.spread > 0 && Blank(m) && a < b < |order| && w.lands(order[a]).Some? && ReadsAt(w, v, order[b], w.lands(order[a]).value, i, j)
    ensures Accumulated(m, w, order, |order|, Single(i, j), v, Ones())[b] >= 1
  {
    hide Tap, Along, Output, Single, Hits, Landed, Ones;
    var o, p := order[b], w.lands(order[a]).value;
    AccumulatedAt(m, w, order, |order|, Single(i, j), v, Ones(), b);
    var done := Accumulated(m, w, order, b, Single(i, j), v, Ones());
    var now := Landed(m, w, order, done, Ones());
    var y, x := Along(v, o.y, i), Along(v, o.x, j);
    SingleOutput(Seen(now, w), v, o.n, o.y, o.x, i, j, o.k);
    forall ch: nat ensures Seen(now, w)(Place(o.n, y, x, ch)) >= 0 {
      OnesLand(m, w, order, done, Behind(w, o.n, y, x, ch));
    }
    OnesLand(m, w, order, done, p);
    assert Seen(now, w)(Place(o.n, y, x, p.ch)) == now(p);
    TapShows(Seen(now, w), v, o.n, y, x, i, j, o.k, p.ch);
  }

  lemma BorderedBlank(source: Image, background: Image, rows: nat, cols: nat, offset: nat, spread: nat)
    requires spread > 0 && Blank(source) && Blank(background)
    ensures Blank(Bordered(source, background, rows, cols, offset, spread))
  {
    forall p ensures Bordered(source, background, rows, cols, offset, spread)(p) == 0 {
      assert background(p) == 0;
      if Hits(p.y, offset, spread, rows) && Hits(p.x, offset, spread, cols) {
        assert source(Place(p.n, (p.y - offset) / spread, (p.x - offset) / spread, p.ch)) == 0;
      }
    }
  }

  lemma BlankExec(op: Op, i: nat, s: State, g: Geometry, data: nat -> State)
    requires ShapeMatches(g) && Blank(s.source) && Blank(s.padded) && Blank(data(i).source) && Blank(data(i).padded)
    ensures Blank(Exec(op, i, s, g, data).source) && Blank(Exec(op, i, s, g, data).padded)
  {
    hide Bordered;
    if op.CopyToWindow? {
      BorderedBlank(s.source, s.padded, g.size[1], g.size[2], g.offset[1], g.stride[1]);
    }
  }

  lemma {:induction false} BlankStays(ops: seq<Op>, n: nat, s: State, g: Geometry, data: nat -> State)
    requires ShapeMatches(g) && n <= |ops| && Blank(s.source) && Blank(s.padded) && forall i: nat :: Blank(data(i).source) && Blank(data(i).padded)
    ensures Blank(Run(ops, n, s, g, data).source) && Blank(Run(ops, n, s, g, data).padded)
  {
    hide Blank, Exec;
    if n > 0 {
      BlankStays(ops, n - 1, s, g, data);
      BlankExec(ops[n - 1], n - 1, Run(ops, n - 1, s, g, data), g, data);
    }
  }

  lemma NowhereUntroubled(w: Way, v: Params, order: seq<Out>)
    requires w.spread > 0 && w.lands == Nowhere()
    ensures Untroubled(w, v, order)
  {
    hide Reads;
  }

  /** Neither call reads what it has put a result over. */
  ghost predicate OutputsApart(g: Geometry, v: Params, order: seq<Out>, shares: Shares)
    requires Verified(g, v)
  {
    Untroubled(WayBefore(g, v, shares), v, order) && Untroubled(WayAfter(g, shares), v, order)
  }

  /** A call that reads what it has put a result over computes something else where it does not. */
  lemma {:induction false} TroubleBreaks(ops: seq<Op>, g: Geometry, v: Params, order: seq<Out>, shares: Shares)
    requires Verified(g, v) && !OutputsApart(g, v, order, shares)
    ensures !KeepsMeaning(ops, g, v, order, shares)
  {
    hide Run, ReadsAt, Accumulated, Before, After, Rows, Cols;
    var s, data := State(Zero(), Zero()), (i: nat) => State(Zero(), Zero());
    var end := Run(ops, |ops|, s, g, data);
    BlankStays(ops, |ops|, s, g, data);
    var before, after := WayBefore(g, v, shares), WayAfter(g, shares);
    if !Untroubled(before, v, order) {
      TroubleDiffers(end.padded, before, end.source, after, v, order);
    } else {
      TroubleDiffers(end.source, after, end.padded, before, v, order);
    }
    assert !KeepsOutputs(end, g, v, order, shares);
  }

  lemma {:induction false} TroubleDiffers(m: Image, w: Way, m': Image, w': Way, v: Params, order: seq<Out>)
    requires w.spread > 0 && w'.spread > 0 && Blank(m) && Blank(m') && !Untroubled(w, v, order) && (w.lands == Nowhere() || w'.lands == Nowhere())
    ensures exists filter: Filter, finish: Finish ::
      Accumulated(m, w, order, |order|, filter, v, finish) != Accumulated(m', w', order, |order|, filter, v, finish)
  {
    hide Accumulated, Seen, Single;
    if w.lands == Nowhere() {
      NowhereUntroubled(w, v, order);
    } else {
      NowhereUntroubled(w', v, order);
      var a, b :| 0 <= a < b < |order| && w.lands(order[a]).Some? && Reads(w, v, order[b], w.lands(order[a]).value);
      var i, j :| ReadsAt(w, v, order[b], w.lands(order[a]).value, i, j);
      TroubleShows(m, w, v, order, a, b, i, j);
      UntroubledAt(m', w', order, Single(i, j), v, Ones(), b);
      BlankSum(m', w', v, order[b], i, j);
      assert Accumulated(m, w, order, |order|, Single(i, j), v, Ones())[b] != Accumulated(m', w', order, |order|, Single(i, j), v, Ones())[b];
    }
  }

  // The equivalence.

  /** Where neither call disturbs itself, the accumulators are those of the buffers as they are at the call. */
  lemma {:induction false} ApartOutputs(end: State, g: Geometry, v: Params, order: seq<Out>, shares: Shares, filter: Filter, finish: Finish, t: nat)
    requires Verified(g, v) && OutputsApart(g, v, order, shares) && t < |order|
    ensures Accumulated(end.padded, WayBefore(g, v, shares), order, |order|, filter, v, finish)[t] == SumOf(Before(end, g, v).at, filter, v, order[t])
    ensures Accumulated(end.source, WayAfter(g, shares), order, |order|, filter, v, finish)[t] == SumOf(After(end, g).at, filter, v, order[t])
  {
    hide Accumulated, Untroubled, SumOf;
    UntroubledAt(end.padded, WayBefore(g, v, shares), order, filter, v, finish, t);
    UntroubledAt(end.source, WayAfter(g, shares), order, filter, v, finish, t);
    assert Seen(end.padded, WayBefore(g, v, shares)) == Before(end, g, v).at;
    assert Seen(end.source, WayAfter(g, shares)) == After(end, g).at;
  }

  lemma {:induction false} FoldKeeps(ops: seq<Op>, fill: nat, window: nat, copy: nat, g: Geometry, v: Params, order: seq<Out>, shares: Shares)
    requires Verified(g, v) && Scanned(ops, fill, window, copy) && Complete(g, v, order) && v.inputDilation == 1
    requires (Sound(ops, fill, copy) || Unread(g, v)) && OutputsApart(g, v, order, shares)
    ensures KeepsMeaning(ops, g, v, order, shares)
  {
    hide Foldable, Scanned, Sound, Unread, OutputsApart, Run, KeepsSums, Accumulated, Before, After, Rows, Cols;
    forall s, data ensures KeepsOutputs(Run(ops, |ops|, s, g, data), g, v, order, shares) {
      var end := Run(ops, |ops|, s, g, data);
      SoundFold(ops, fill, window, copy, s, g, v, data);
      SumsToOutputs(end, g, v, order, shares);
    }
  }

  lemma {:induction false} SumsToOutputs(end: State, g: Geometry, v: Params, order: seq<Out>, shares: Shares)
    requires Verified(g, v) && v.inputDilation == 1 && KeepsSums(end, g, v) && Complete(g, v, order) && OutputsApart(g, v, order, shares)
    ensures KeepsOutputs(end, g, v, order, shares)
  {
    hide Foldable, OutputsApart, Accumulated, Output, OutExtent, Before, After, Rows, Cols;
    SameExtents(end, g, v);
    assert Spread(g.full[1], 1) == g.full[1] && Spread(g.full[2], 1) == g.full[2];
    forall filter: Filter, finish: Finish
      ensures Accumulated(end.padded, WayBefore(g, v, shares), order, |order|, filter, v, finish)
           == Accumulated(end.source, WayAfter(g, shares), order, |order|, filter, v, finish)
    {
      forall t: nat | t < |order|
        ensures Accumulated(end.padded, WayBefore(g, v, shares), order, |order|, filter, v, finish)[t]
             == Accumulated(end.source, WayAfter(g, shares), order, |order|, filter, v, finish)[t]
      {
        ApartOutputs(end, g, v, order, shares, filter, finish, t);
        assert order[t] in order && IsOutput(g, v, order[t]);
      }
    }
  }

  /** An unsound program whose output is apart changes the output that meets source data. */
  lemma {:induction false} UnsoundBreaks(ops: seq<Op>, fill: nat, window: nat, copy: nat, g: Geometry, v: Params, order: seq<Out>, shares: Shares)
    requires Verified(g, v) && Scanned(ops, fill, window, copy) && Complete(g, v, order) && v.inputDilation == 1
    requires !Sound(ops, fill, copy) && !Unread(g, v) && OutputsApart(g, v, order, shares)
    ensures !KeepsMeaning(ops, g, v, order, shares)
  {
    hide Scanned, Sound, OutputsApart, Run, Accumulated, Before, After, Rows, Cols, Output, OutExtent, Data, Foldable, ShapeMatches, Complete;
    var oy, ox, i, j :| Meets(g, v, oy, ox, i, j);
    var s, data := UnsoundFold(ops, fill, window, copy, g, v, oy, ox, i, j);
    var end := Run(ops, |ops|, s, g, data);
    var t := PlaceOf(g, v, order, oy, ox);
    ApartOutputs(end, g, v, order, shares, Single(i, j), Ones(), t);
    assert !KeepsOutputs(end, g, v, order, shares);
  }

  /** Where an output is in the order. */
  lemma PlaceOf(g: Geometry, v: Params, order: seq<Out>, oy: nat, ox: nat) returns (t: nat)
    requires Verified(g, v) && v.inputDilation == 1 && Complete(g, v, order)
    requires oy < OutExtent(g.full[1], v.kernel, v.stride, 0, v.dilation) && ox < OutExtent(g.full[2], v.kernel, v.stride, 0, v.dilation)
    ensures t < |order| && order[t] == Out(0, oy, ox, 0)
  {
    hide OutExtent, Data, Foldable;
    assert Spread(g.full[1], 1) == g.full[1] && Spread(g.full[2], 1) == g.full[2];
    assert IsOutput(g, v, Out(0, oy, ox, 0));
    assert Out(0, oy, ox, 0) in order;
    t :| t < |order| && order[t] == Out(0, oy, ox, 0);
  }

  /** For every window and call the guards accept, dense or depthwise, every program the scan accepts, every sharing of
      the output's memory and every order in which the call works: the fold keeps the output extents and every
      output, for every filter and all contents, if and only if the call had no input dilation of its own; the fill comes
      before the copy with the source neither written nor freed after it, or else no output reads any source data;
      and neither call reads what it has put a result over. */
  lemma {:induction false} FoldExact(ops: seq<Op>, fill: nat, window: nat, copy: nat, g: Geometry, v: Params, order: seq<Out>, shares: Shares)
    requires Verified(g, v) && Scanned(ops, fill, window, copy) && Complete(g, v, order)
    ensures KeepsMeaning(ops, g, v, order, shares)
       <==> v.inputDilation == 1 && (Sound(ops, fill, copy) || Unread(g, v)) && OutputsApart(g, v, order, shares)
  {
    hide KeepsMeaning, Scanned, Verified, Complete, Sound, Unread, OutputsApart;
    if v.inputDilation != 1 {
      DilationLost(ops, g, v, order, shares);
    } else if !OutputsApart(g, v, order, shares) {
      TroubleBreaks(ops, g, v, order, shares);
    } else if Sound(ops, fill, copy) || Unread(g, v) {
      FoldKeeps(ops, fill, window, copy, g, v, order, shares);
    } else {
      UnsoundBreaks(ops, fill, window, copy, g, v, order, shares);
    }
  }

  /** An input dilation of the call's own is lost, and with it the extents. */
  lemma DilationLost(ops: seq<Op>, g: Geometry, v: Params, order: seq<Out>, shares: Shares)
    requires Verified(g, v) && v.inputDilation != 1
    ensures !KeepsMeaning(ops, g, v, order, shares)
  {
    hide Run, Before, After, Rows, Cols, Accumulated;
    var s, data := State(Zero(), Zero()), Late(0);
    SameExtents(Run(ops, |ops|, s, g, data), g, v);
    assert !KeepsOutputs(Run(ops, |ops|, s, g, data), g, v, order, shares);
  }

  // What the scan is there to refuse.

  /** An operation other than the fill and the copy changes the padded buffer, and no fill, no other such operation and no
      window with further uses comes after it. */
  ghost predicate ChangedAt(ops: seq<Op>, i: nat) {
    && i < |ops| && (ops[i].NamesPadded? || ops[i].UsesWindow?) && !Open(ops, |ops|)
    && forall j | i < j < |ops| :: Quiet(ops[j]) || ops[j].CopyToWindow?
  }

  /** A position of the padded buffer which the copy into the window, if it comes later, does not write. */
  predicate Survives(ops: seq<Op>, i: nat, g: Geometry, y: nat, x: nat)
    requires ShapeMatches(g)
  {
    y < g.full[1] && x < g.full[2] && (Data(g, y, x) ==> forall j | i < j < |ops| :: !ops[j].CopyToWindow?)
  }

  /** The change leaves ones, everything else leaves zeros. */
  function OnesAt(i: nat, k: nat): State { State(if k == i then One() else Zero(), Zero()) }

  function OnesFrom(i: nat): nat -> State { (k: nat) => OnesAt(i, k) }

  lemma {:induction false} ZeroSource(ops: seq<Op>, n: nat, i: nat, g: Geometry, p: Place)
    requires ShapeMatches(g) && n <= |ops|
    ensures Run(ops, n, State(Zero(), Zero()), g, OnesFrom(i)).source(p) == 0
  {
    hide Open;
    if n > 0 {
      ZeroSource(ops, n - 1, i, g, p);
    }
  }

  lemma {:induction false} OneStays(ops: seq<Op>, n: nat, i: nat, g: Geometry, p: Place)
    requires ShapeMatches(g) && ChangedAt(ops, i) && i < n <= |ops| && Survives(ops, i, g, p.y, p.x)
    ensures Run(ops, n, State(Zero(), Zero()), g, OnesFrom(i)).padded(p) == 1
    decreases n
  {
    hide Hits;
    assert !Open(ops, n);
    if n > i + 1 {
      OneStays(ops, n - 1, i, g, p);
    }
  }

  /** If an output reads such a position, the fold loses what the operation wrote there. */
  lemma {:induction false} ChangeLost(ops: seq<Op>, at: nat, g: Geometry, v: Params, order: seq<Out>, shares: Shares, oy: nat, ox: nat, i: nat, j: nat)
    requires Verified(g, v) && v.inputDilation == 1 && Complete(g, v, order) && OutputsApart(g, v, order, shares) && ChangedAt(ops, at)
    requires i < v.kernel && j < v.kernel && Survives(ops, at, g, Along(v, oy, i), Along(v, ox, j))
    requires oy < OutExtent(g.full[1], v.kernel, v.stride, 0, v.dilation) && ox < OutExtent(g.full[2], v.kernel, v.stride, 0, v.dilation)
    ensures !KeepsMeaning(ops, g, v, order, shares)
  {
    hide Run, Foldable, Output, Tap, OutputsApart, Accumulated, Rows, Cols, OutExtent, Along, ChangedAt, Single, Complete;
    var y, x := Along(v, oy, i), Along(v, ox, j);
    var s, data := State(Zero(), Zero()), OnesFrom(at);
    var end := Run(ops, |ops|, s, g, data);
    forall ch: nat ensures Before(end, g, v).at(Place(0, y, x, ch)) == 1 && After(end, g).at(Place(0, y, x, ch)) == 0 {
      assert at < |ops| by { ChangedInside(ops, at); }
      OneStays(ops, |ops|, at, g, Place(0, y, x, ch));
      Unspread(y, g.full[1]);
      Unspread(x, g.full[2]);
      if Data(g, y, x) {
        ZeroSource(ops, |ops|, at, g, Origin(g, Place(0, y, x, ch)));
      }
    }
    SingleOutput(Before(end, g, v).at, v, 0, oy, ox, i, j, 0);
    SingleOutput(After(end, g).at, v, 0, oy, ox, i, j, 0);
    SingleTap(Before(end, g, v).at, v, 0, y, x, i, j, 0, 1);
    SingleTap(After(end, g).at, v, 0, y, x, i, j, 0, 0);
    var t := PlaceOf(g, v, order, oy, ox);
    ApartOutputs(end, g, v, order, shares, Single(i, j), Ones(), t);
    assert !KeepsOutputs(end, g, v, order, shares);
  }

  lemma ChangedInside(ops: seq<Op>, i: nat)
    requires ChangedAt(ops, i)
    ensures i < |ops|
  {
  }

  /** The first output reads the first element: a change after the copy is always lost, and so is one between fill and copy
      when there is a border. */
  lemma {:induction false} FirstChangeLost(ops: seq<Op>, at: nat, g: Geometry, v: Params, order: seq<Out>, shares: Shares)
    requires Verified(g, v) && v.inputDilation == 1 && Complete(g, v, order) && OutputsApart(g, v, order, shares) && ChangedAt(ops, at)
    requires g.offset[1] > 0 || forall j | at < j < |ops| :: !ops[j].CopyToWindow?
    ensures !KeepsMeaning(ops, g, v, order, shares)
  {
    hide OutputsApart, ChangedAt, Complete, KeepsMeaning, OutExtent;
    assert Along(v, 0, 0) == 0;
    assert g.full[1] > 0 && g.full[2] > 0;
    ChangeLost(ops, at, g, v, order, shares, 0, 0, 0, 0);
  }

  /** What such a window is used for elsewhere is lost as well. */
  lemma {:induction false} OpenWindowLost(ops: seq<Op>, at: nat, g: Geometry, v: Params, order: seq<Out>, shares: Shares)
    requires Verified(g, v) && v.inputDilation == 1 && Complete(g, v, order) && OutputsApart(g, v, order, shares)
    requires at < |ops| && ops[at] == MakeWindow(false)
    ensures !KeepsMeaning(ops, g, v, order, shares)
  {
    hide Foldable, Output, Tap, OutputsApart, Accumulated, Rows, Cols, OutExtent, Single, Complete;
    assert Along(v, 0, 0) == 0 && g.full[1] > 0 && g.full[2] > 0;
    hide Along;
    var s, data := State(Zero(), Zero()), OnesFrom(|ops| - 1);
    var end := Run(ops, |ops|, s, g, data);
    OpenEnds(ops, s, g, data);
    hide Run;
    forall ch: nat ensures Before(end, g, v).at(Place(0, 0, 0, ch)) == 1 && After(end, g).at(Place(0, 0, 0, ch)) == 0 {
      Unspread(0, g.full[1]);
      Unspread(0, g.full[2]);
      if Data(g, 0, 0) {
        ZeroSource(ops, |ops|, |ops| - 1, g, Origin(g, Place(0, 0, 0, ch)));
      }
    }
    SingleOutput(Before(end, g, v).at, v, 0, 0, 0, 0, 0, 0);
    SingleOutput(After(end, g).at, v, 0, 0, 0, 0, 0, 0);
    SingleTap(Before(end, g, v).at, v, 0, 0, 0, 0, 0, 0, 1);
    SingleTap(After(end, g).at, v, 0, 0, 0, 0, 0, 0, 0);
    var t := PlaceOf(g, v, order, 0, 0);
    ApartOutputs(end, g, v, order, shares, Single(0, 0), Ones(), t);
    assert !KeepsOutputs(end, g, v, order, shares);
  }

  lemma OpenEnds(ops: seq<Op>, s: State, g: Geometry, data: nat -> State)
    requires ShapeMatches(g) && |ops| > 0 && exists at :: 0 <= at < |ops| && ops[at] == MakeWindow(false)
    ensures Run(ops, |ops|, s, g, data).padded == data(|ops| - 1).padded
  {
    hide Exec;
  }

  // Four programs the checks accept and the fold changes: a fill after the copy, a source freed before the call, a call
  // with an input dilation of its own, and a call into the source.

  /** One element in the middle of three by three. */
  function Centred(): Geometry {
    Geometry([1, 1, 1, 1], [1, 3, 3, 1], [0, 1, 1, 0], [1, 1, 1, 1])
  }

  function ThreeTaps(inputDilation: nat): Params { Params(true, 3, 1, 1, inputDilation, 1, 1) }

  lemma CentredMatches()
    ensures ShapeMatches(Centred()) && forall d | 0 <= d < 4 :: Centred().size[d] > 0
    ensures Centred().full[1] == Centred().full[2] == 3 && Centred().offset[1] == Centred().stride[1] == Centred().size[3] == 1
  {
  }

  lemma CentredVerified(inputDilation: nat)
    requires 1 <= inputDilation <= 2
    ensures Verified(Centred(), ThreeTaps(inputDilation))
  {
    hide Centred, ShapeMatches, OutExtent, Spread;
    CentredMatches();
    assert Spread(3, inputDilation) == 2 * inputDilation + 1 by { SpreadThree(inputDilation); }
    OneStride(2 * inputDilation + 1, 3, 1);
  }

  lemma SpreadThree(inputDilation: nat)
    ensures Spread(3, inputDilation) == 2 * inputDilation + 1
  {
  }

  lemma FilledLastScanned()
    ensures var ops := [MakeWindow(true), CopyToWindow, ZeroFill]; WellFormed(ops) && Scanned(ops, 2, 0, 1) && !Sound(ops, 2, 1)
  {
    assert [MakeWindow(true), CopyToWindow, ZeroFill][0].MakeWindow?;
  }

  lemma {:induction false} FilledLast()
    ensures var ops := [MakeWindow(true), CopyToWindow, ZeroFill];
      && WellFormed(ops) && Scanned(ops, 2, 0, 1) && Verified(Centred(), ThreeTaps(1))
      && forall order | Complete(Centred(), ThreeTaps(1), order) :: !KeepsMeaning(ops, Centred(), ThreeTaps(1), order, Apart)
  {
    hide KeepsMeaning, Verified, WellFormed, Scanned, Sound, Centred, Unread, Complete, OutputsApart;
    FilledLastScanned();
    CentredVerified(1);
    FirstMeets(Centred(), ThreeTaps(1));
    forall order | Complete(Centred(), ThreeTaps(1), order)
      ensures !KeepsMeaning([MakeWindow(true), CopyToWindow, ZeroFill], Centred(), ThreeTaps(1), order, Apart)
    {
      FoldExact([MakeWindow(true), CopyToWindow, ZeroFill], 2, 0, 1, Centred(), ThreeTaps(1), order, Apart);
    }
  }

  lemma SourceFreedScanned()
    ensures var ops := [ZeroFill, MakeWindow(true), CopyToWindow, FreeSource]; WellFormed(ops) && Scanned(ops, 0, 1, 2) && !Sound(ops, 0, 2)
  {
    var ops := [ZeroFill, MakeWindow(true), CopyToWindow, FreeSource];
    assert ops[1].MakeWindow? && Changes(ops[3]);
  }

  lemma {:induction false} SourceFreed()
    ensures var ops := [ZeroFill, MakeWindow(true), CopyToWindow, FreeSource];
      && WellFormed(ops) && Scanned(ops, 0, 1, 2) && Verified(Centred(), ThreeTaps(1))
      && forall order | Complete(Centred(), ThreeTaps(1), order) :: !KeepsMeaning(ops, Centred(), ThreeTaps(1), order, Apart)
  {
    hide KeepsMeaning, Verified, WellFormed, Scanned, Sound, Centred, Unread, Complete, OutputsApart;
    SourceFreedScanned();
    CentredVerified(1);
    FirstMeets(Centred(), ThreeTaps(1));
    forall order | Complete(Centred(), ThreeTaps(1), order)
      ensures !KeepsMeaning([ZeroFill, MakeWindow(true), CopyToWindow, FreeSource], Centred(), ThreeTaps(1), order, Apart)
    {
      FoldExact([ZeroFill, MakeWindow(true), CopyToWindow, FreeSource], 0, 1, 2, Centred(), ThreeTaps(1), order, Apart);
    }
  }

  lemma DilatedScanned()
    ensures var ops := [ZeroFill, MakeWindow(true), CopyToWindow]; WellFormed(ops) && Scanned(ops, 0, 1, 2)
  {
    assert [ZeroFill, MakeWindow(true), CopyToWindow][1].MakeWindow?;
  }

  lemma {:induction false} DilatedAlready()
    ensures var ops := [ZeroFill, MakeWindow(true), CopyToWindow];
      && WellFormed(ops) && Scanned(ops, 0, 1, 2) && Verified(Centred(), ThreeTaps(2))
      && forall order | Complete(Centred(), ThreeTaps(2), order) :: !KeepsMeaning(ops, Centred(), ThreeTaps(2), order, Apart)
  {
    hide KeepsMeaning, Verified, WellFormed, Scanned, Centred, Complete, Sound, Unread, OutputsApart;
    DilatedScanned();
    CentredVerified(2);
    forall order | Complete(Centred(), ThreeTaps(2), order)
      ensures !KeepsMeaning([ZeroFill, MakeWindow(true), CopyToWindow], Centred(), ThreeTaps(2), order, Apart)
    {
      FoldExact([ZeroFill, MakeWindow(true), CopyToWindow], 0, 1, 2, Centred(), ThreeTaps(2), order, Apart);
    }
  }

  /** Two by two in the middle of four by four: with three taps the output is as large as the source. */
  function Square(): Geometry {
    Geometry([1, 2, 2, 1], [1, 4, 4, 1], [0, 1, 1, 0], [1, 1, 1, 1])
  }

  lemma SquareMatches()
    ensures ShapeMatches(Square()) && forall d | 0 <= d < 4 :: Square().size[d] > 0
    ensures Square().full[1] == Square().full[2] == 4 && Square().size[1] == Square().size[2] == 2
    ensures Square().offset[1] == Square().stride[1] == Square().size[0] == Square().size[3] == 1
  {
  }

  lemma SquareVerified()
    ensures Verified(Square(), ThreeTaps(1))
    ensures OutExtent(Spread(Square().full[1], 1), 3, 1, 0, 1) == 2 && OutExtent(Spread(Square().full[2], 1), 3, 1, 0, 1) == 2
  {
    hide Square, ShapeMatches, OutExtent;
    SquareMatches();
    OneStride(4, 3, 1);
  }

  /** Row by row. */
  function RowByRow(): seq<Out> { [Out(0, 0, 0, 0), Out(0, 0, 1, 0), Out(0, 1, 0, 0), Out(0, 1, 1, 0)] }

  /** Each result takes the place of the source element it stands over. */
  function InPlace(): Shares { WithSource((o: Out) => Some(Place(o.n, o.y, o.x, o.k))) }

  lemma RowByRowComplete()
    ensures Verified(Square(), ThreeTaps(1)) && Complete(Square(), ThreeTaps(1), RowByRow())
  {
    hide OutExtent, Square, ShapeMatches;
    SquareVerified();
    SquareMatches();
    forall o: Out ensures o in RowByRow() <==> IsOutput(Square(), ThreeTaps(1), o) {
      assert IsOutput(Square(), ThreeTaps(1), o) <==> o.n == 0 && o.k == 0 && o.y < 2 && o.x < 2;
      assert RowByRow()[0] in RowByRow() && RowByRow()[1] in RowByRow() && RowByRow()[2] in RowByRow() && RowByRow()[3] in RowByRow();
    }
  }

  /** The second result reads where the first was put. */
  lemma NotApart()
    requires Verified(Square(), ThreeTaps(1))
    ensures !OutputsApart(Square(), ThreeTaps(1), RowByRow(), InPlace())
  {
    hide Square, Verified, ReadsAt, ThreeTaps;
    SquareMatches();
    var w := WayAfter(Square(), InPlace());
    SecondReadsFirst(w);
    assert w.lands(RowByRow()[0]) == Some(Place(0, 0, 0, 0));
    assert Reads(w, ThreeTaps(1), RowByRow()[1], Place(0, 0, 0, 0));
  }

  lemma SecondReadsFirst(w: Way)
    requires w.rows == w.cols == 2 && w.padding == w.spread == 1
    ensures ReadsAt(w, ThreeTaps(1), Out(0, 0, 1, 0), Place(0, 0, 0, 0), 1, 0)
  {
    hide Along, Hits;
    assert Along(ThreeTaps(1), 0, 1) == 1 && Along(ThreeTaps(1), 1, 0) == 1 by { FirstAlong(ThreeTaps(1)); }
    assert Hits(1, 1, 1, 2) by { FirstHits(); }
    assert (1 - 1) / 1 == 0;
  }

  lemma FirstAlong(v: Params)
    requires v.stride == 1 && v.dilation == 1
    ensures Along(v, 0, 1) == 1 && Along(v, 1, 0) == 1
  {
  }

  lemma FirstHits()
    ensures Hits(1, 1, 1, 2)
  {
  }

  lemma {:induction false} IntoSource()
    ensures var ops := [ZeroFill, MakeWindow(true), CopyToWindow];
      && WellFormed(ops) && Scanned(ops, 0, 1, 2) && Verified(Square(), ThreeTaps(1)) && Complete(Square(), ThreeTaps(1), RowByRow())
      && !KeepsMeaning(ops, Square(), ThreeTaps(1), RowByRow(), InPlace())
  {
    hide KeepsMeaning, Verified, WellFormed, Scanned, Square, Complete, Sound, Unread, OutputsApart;
    DilatedScanned();
    RowByRowComplete();
    NotApart();
    FoldExact([ZeroFill, MakeWindow(true), CopyToWindow], 0, 1, 2, Square(), ThreeTaps(1), RowByRow(), InPlace());
  }
}
