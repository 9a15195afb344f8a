/** The histograms of `histo/histo.go`: a `Data` histogram keeps its bin
    boundaries (`dividers`), its bin values, the number of points added
    and whether the bins hold counts or fractions; a `Matrix` addresses
    histograms by row and column. Float64 values are `real`s. */
module Histo {
  import opened Wrappers

  /** The state of a `Data` histogram. */
  datatype Hist = Hist(id: int, normalized: bool, total: int, dividers: seq<real>, histo: seq<real>)

  /** `floats.ScaleTo(dst, c, s)` and `floats.Scale(c, s)`: every element
      multiplied by `c`. */
  function Scale(c: real, s: seq<real>): (r: seq<real>)
    ensures |r| == |s|
  {
    seq(|s|, i requires 0 <= i < |s| => c * s[i])
  }

  function Zeros(n: nat): (r: seq<real>)
    ensures |r| == n
  {
    seq(n, i => 0.0)
  }

  // ---------------------------------------------------------------------
  // normaunnorma

  /** `normaunnorma`: nothing happens without data; otherwise the bins
      are divided by the number of points (`normalize`) or multiplied by
      it, and the flag says which. */
  function Norma(h: Hist, normalize: bool): (r: Hist)
    ensures r.id == h.id && r.total == h.total && r.dividers == h.dividers && |r.histo| == |h.histo|
    ensures h.total <= 0 ==> r == h
    ensures h.total > 0 ==> r.normalized == normalize
    ensures h.total > 0 && normalize ==> forall i :: 0 <= i < |h.histo| ==> r.histo[i] == h.histo[i] / (h.total as real)
    ensures h.total > 0 && !normalize ==> forall i :: 0 <= i < |h.histo| ==> r.histo[i] == h.histo[i] * (h.total as real)
  {
    if h.total <= 0 then h
    else if normalize then h.(normalized := true, histo := Scale(1.0 / (h.total as real), h.histo))
    else h.(normalized := false, histo := Scale(h.total as real, h.histo))
  }

  /** Normalising and un-normalising undo each other once there is data;
      without data both leave the histogram as it is. */
  lemma NormaRoundTrip(h: Hist)
    ensures h.total > 0 ==> Norma(Norma(h, true), false) == h.(normalized := false)
    ensures h.total > 0 ==> Norma(Norma(h, false), true) == h.(normalized := true)
    ensures h.total <= 0 ==> Norma(h, true) == h && Norma(h, false) == h
  {
    if h.total > 0 {
      var t := h.total as real;
      var up := Norma(Norma(h, true), false).histo;
      var down := Norma(Norma(h, false), true).histo;
      forall i | 0 <= i < |h.histo|
        ensures up[i] == h.histo[i] && down[i] == h.histo[i]
      {
        assert up[i] == t * ((1.0 / t) * h.histo[i]);
        assert down[i] == (1.0 / t) * (t * h.histo[i]);
      }
    }
  }

  // ---------------------------------------------------------------------
  // AddData

  /** Whether `v` falls in bin `j`: at least its lower divider and below
      its upper one. */
  predicate InBin(d: seq<real>, j: int, v: real)
    requires 0 <= j < |d| - 1
  {
    d[j] <= v < d[j + 1]
  }

  /** The bin `AddData` puts `v` in, looking from bin `j` on: the first
      that holds it; None when none does, so the value is dropped. */
  function BinFrom(d: seq<real>, v: real, j: nat): (r: Option<nat>)
    ensures r.Some? ==> j <= r.value < |d| - 1 && InBin(d, r.value, v)
    ensures r.Some? ==> forall k :: j <= k < r.value ==> !InBin(d, k, v)
    ensures r.None? ==> forall k :: j <= k < |d| - 1 ==> !InBin(d, k, v)
    decreases |d| - j
  {
    if j + 1 >= |d| then None
    else if d[j] <= v < d[j + 1] then Some(j)
    else BinFrom(d, v, j + 1)
  }

  function BinOf(d: seq<real>, v: real): (r: Option<nat>)
    ensures r.Some? ==> r.value < |d| - 1 && InBin(d, r.value, v) && forall k :: 0 <= k < r.value ==> !InBin(d, k, v)
    ensures r.None? ==> forall k :: 0 <= k < |d| - 1 ==> !InBin(d, k, v)
  {
    BinFrom(d, v, 0)
  }

  /** Strictly increasing dividers, as histograms have them. */
  predicate Increasing(d: seq<real>) {
    forall i, j :: 0 <= i < j < |d| ==> d[i] < d[j]
  }

  lemma {:induction false} BinFromInRange(d: seq<real>, v: real, j: nat)
    requires Increasing(d) && j < |d| - 1 && d[j] <= v < d[|d| - 1]
    ensures BinFrom(d, v, j).Some?
    decreases |d| - j
  {
    if !(v < d[j + 1]) {
      BinFromInRange(d, v, j + 1);
    }
  }

  /** With increasing dividers a value lands in a bin exactly when it is
      at least the first divider and below the last, and then in the only
      bin that holds it. */
  lemma BinOfIncreasing(d: seq<real>, v: real)
    requires Increasing(d) && |d| >= 2
    ensures BinOf(d, v).Some? <==> d[0] <= v < d[|d| - 1]
    ensures BinOf(d, v).Some? ==> forall k :: 0 <= k < |d| - 1 && InBin(d, k, v) ==> k == BinOf(d, v).value
  {
    if d[0] <= v < d[|d| - 1] {
      BinFromInRange(d, v, 0);
    }
  }

  /** The bins once the points are counted into them, one by one. */
  function Counted(histo: seq<real>, d: seq<real>, points: seq<real>): (r: seq<real>)
    requires |histo| >= |d| - 1
    ensures |r| == |histo|
  {
    if points == [] then histo
    else
      var h := Counted(histo, d, points[..|points| - 1]);
      var b := BinOf(d, points[|points| - 1]);
      if b.Some? then h[b.value := h[b.value] + 1.0] else h
  }

  /** How many of the points fall in bin `j`. */
  function Hits(d: seq<real>, points: seq<real>, j: nat): (r: nat)
    ensures r <= |points|
  {
    if points == [] then 0
    else Hits(d, points[..|points| - 1], j) + (if BinOf(d, points[|points| - 1]) == Some(j) then 1 else 0)
  }

  /** Counting adds to every bin the number of points that fall in it;
      values outside every bin are dropped. */
  lemma {:induction false} CountedBins(histo: seq<real>, d: seq<real>, points: seq<real>)
    requires |histo| >= |d| - 1
    ensures forall j :: 0 <= j < |histo| ==> Counted(histo, d, points)[j] == histo[j] + Hits(d, points, j) as real
  {
    if points != [] {
      CountedBins(histo, d, points[..|points| - 1]);
    }
  }

  /** `AddData(points...)`: a normalised histogram is un-normalised first
      and normalised again afterwards; every point counts towards the
      total, whether a bin holds it or not. */
  function AddDataOf(h: Hist, points: seq<real>): (r: Hist)
    requires |h.histo| >= |h.dividers| - 1
    ensures r.normalized == h.normalized && r.total == h.total + |points| && r.dividers == h.dividers
            && r.id == h.id && |r.histo| == |h.histo|
  {
    var u := if h.normalized then Norma(h, false) else h;
    var c := u.(histo := Counted(u.histo, u.dividers, points), total := u.total + |points|);
    if h.normalized then Norma(c, true) else c
  }

  /** Adding data keeps the normalised flag, the dividers, the id and the
      number of bins, and adds the number of points to the total. */
  lemma AddDataKeeps(h: Hist, points: seq<real>)
    requires |h.histo| >= |h.dividers| - 1
    ensures var r := AddDataOf(h, points);
      r.normalized == h.normalized && r.total == h.total + |points| && r.dividers == h.dividers
      && r.id == h.id && |r.histo| == |h.histo|
  {
  }

  /** In a histogram of counts each bin grows by the points that fall in
      it. */
  lemma AddDataCounts(h: Hist, points: seq<real>)
    requires |h.histo| >= |h.dividers| - 1 && !h.normalized
    ensures forall j :: 0 <= j < |h.histo| ==> AddDataOf(h, points).histo[j] == h.histo[j] + Hits(h.dividers, points, j) as real
  {
    CountedBins(h.histo, h.dividers, points);
  }

  /** Adding to a normalised histogram with data turns the fractions back
      into counts, counts the points (`CountedBins` says how), and divides
      by the new total. */
  lemma AddDataNormalizedShape(h: Hist, points: seq<real>)
    requires |h.histo| >= |h.dividers| - 1 && h.normalized && h.total > 0
    ensures AddDataOf(h, points).histo
      == Scale(1.0 / ((h.total + |points|) as real), Counted(Scale(h.total as real, h.histo), h.dividers, points))
  {
  }

  // ---------------------------------------------------------------------
  // Add, Sub

  /** What an `Add` or `Sub` does with each pair of bins. */
  datatype Op = Plus | Minus | AbsMinus

  function Apply(op: Op, x: real, y: real): real {
    match op
    case Plus => x + y
    case Minus => x - y
    case AbsMinus => if x - y < 0.0 then y - x else x - y
  }

  /** The receiver's bins once `Add`/`Sub` has gone over the dividers
      `ad` from `i` on, comparing them with `bd`; the flag says it
      panicked, on a divider mismatch or a bin index out of range. Bins
      before the point of the panic stay written. */
  function Binwise(dh: seq<real>, ad: seq<real>, bd: seq<real>, ah: seq<real>, bh: seq<real>, op: Op, i: nat)
    : (r: (seq<real>, bool))
    requires |ad| == |bd|
    ensures |r.0| == |dh|
    decreases |ad| - i
  {
    if i >= |ad| then (dh, false)
    else if ad[i] != bd[i] then (dh, true)
    else if i == |ad| - 1 then (dh, false)
    else if i >= |ah| || i >= |bh| || i >= |dh| then (dh, true)
    else Binwise(dh[i := Apply(op, ah[i], bh[i])], ad, bd, ah, bh, op, i + 1)
  }

  /** The receiver's dividers and bins after `Add`/`Sub`, and whether it
      panicked: `newDividers` are the receiver's new dividers, `ad` and
      `bd` those of the two operands as read after that assignment. */
  datatype Combined = Combined(dividers: seq<real>, histo: seq<real>, panicked: bool)

  function CombineOf(newDividers: seq<real>, dh: seq<real>, ad: seq<real>, bd: seq<real>, ah: seq<real>, bh: seq<real>, op: Op)
    : (r: Combined)
    ensures r.dividers == newDividers && |r.histo| == |dh|
    ensures |ad| != |bd| ==> r.panicked && r.histo == dh
    ensures !r.panicked ==> ad == bd
  {
    if |ad| != |bd| then Combined(newDividers, dh, true)
    else
      var b := Binwise(dh, ad, bd, ah, bh, op, 0);
      BinwiseAgrees(dh, ad, bd, ah, bh, op, 0);
      Combined(newDividers, b.0, b.1)
  }

  /** A bin loop that does not panic has found the two divider lists
      equal from `i` on. */
  lemma {:induction false} BinwiseAgrees(dh: seq<real>, ad: seq<real>, bd: seq<real>, ah: seq<real>, bh: seq<real>, op: Op, i: nat)
    requires |ad| == |bd|
    ensures !Binwise(dh, ad, bd, ah, bh, op, i).1 ==> forall k :: i <= k < |ad| ==> ad[k] == bd[k]
    decreases |ad| - i
  {
    if i < |ad| && ad[i] == bd[i] && i != |ad| - 1 && !(i >= |ah| || i >= |bh| || i >= |dh|) {
      BinwiseAgrees(dh[i := Apply(op, ah[i], bh[i])], ad, bd, ah, bh, op, i + 1);
    }
  }

  lemma {:induction false} BinwiseMatching(dh: seq<real>, d: seq<real>, ah: seq<real>, bh: seq<real>, op: Op, i: nat)
    requires |ah| >= |d| - 1 && |bh| >= |d| - 1 && |dh| >= |d| - 1
    ensures var r := Binwise(dh, d, d, ah, bh, op, i);
      !r.1 && forall k :: 0 <= k < |dh| ==> r.0[k] == (if i <= k < |d| - 1 then Apply(op, ah[k], bh[k]) else dh[k])
    decreases |d| - i
  {
    if i < |d| - 1 {
      BinwiseMatching(dh[i := Apply(op, ah[i], bh[i])], d, ah, bh, op, i + 1);
    }
  }

  /** Two histograms with the same dividers combine bin by bin, without a
      panic, into a receiver with at least as many bins. */
  lemma CombineMatching(dh: seq<real>, d: seq<real>, ah: seq<real>, bh: seq<real>, op: Op)
    requires |ah| >= |d| - 1 && |bh| >= |d| - 1 && |dh| >= |d| - 1
    ensures var r := CombineOf(d, dh, d, d, ah, bh, op);
      !r.panicked && r.dividers == d
      && forall k :: 0 <= k < |dh| ==> r.histo[k] == (if k < |d| - 1 then Apply(op, ah[k], bh[k]) else dh[k])
  {
    BinwiseMatching(dh, d, ah, bh, op, 0);
  }

  /** Histograms whose dividers differ in some position before the last
      bin, or in number, make `Add`/`Sub` panic. */
  lemma {:induction false} CombineMismatch(dh: seq<real>, ad: seq<real>, bd: seq<real>, ah: seq<real>, bh: seq<real>, op: Op, i: nat)
    requires |ad| == |bd| && i <= |ad| && |ah| >= |ad| - 1 && |bh| >= |ad| - 1 && |dh| >= |ad| - 1
    requires exists k :: i <= k < |ad| && ad[k] != bd[k]
    ensures Binwise(dh, ad, bd, ah, bh, op, i).1
    decreases |ad| - i
  {
    var k :| i <= k < |ad| && ad[k] != bd[k];
    if ad[i] == bd[i] {
      assert i != |ad| - 1;
      CombineMismatch(dh[i := Apply(op, ah[i], bh[i])], ad, bd, ah, bh, op, i + 1);
    }
  }

  // ---------------------------------------------------------------------
  // getCopySlice, Copy, CopyDividers

  /** `getCopySlice(N, dest...)`: the first N elements of `dest` when it is
      long enough, a new zero slice of length N otherwise. */
  function GetCopySlice(n: nat, dest: Option<seq<real>>): (r: seq<real>)
    ensures |r| == n
    ensures dest.Some? && |dest.value| >= n ==> r == dest.value[..n]
    ensures !(dest.Some? && |dest.value| >= n) ==> r == Zeros(n)
  {
    if dest.Some? && |dest.value| >= n then dest.value[..n] else Zeros(n)
  }

  /** `Copy` and `CopyDividers` as written: `floats.ScaleTo(d, 0, src)`
      fills the slice with `0 * src`. */
  function CopyAsWritten(src: seq<real>, dest: Option<seq<real>>): (r: seq<real>)
    ensures |r| == |src|
  {
    var d := GetCopySlice(|src|, dest);
    Scale(0.0, src)
  }

  /** What the copy functions return as written: zeros, whatever the
      source holds, so no non-zero histogram is ever copied. */
  lemma CopyAsWrittenZeros(src: seq<real>, dest: Option<seq<real>>)
    ensures CopyAsWritten(src, dest) == Zeros(|src|)
    ensures (exists i :: 0 <= i < |src| && src[i] != 0.0) ==> CopyAsWritten(src, dest) != src
  {
    assert forall i :: 0 <= i < |src| ==> CopyAsWritten(src, dest)[i] == 0.0;
  }

  /** `Add`/`Sub` as written: the receiver's dividers become zeros; an
      operand that is the receiver itself is then read with those zero
      dividers. */
  function CombineAsWritten(d: Hist, a: Hist, b: Hist, aIsReceiver: bool, bIsReceiver: bool, op: Op): (r: Combined)
    ensures r.dividers == Zeros(|a.dividers|)
    ensures aIsReceiver && !bIsReceiver && b.dividers != Zeros(|a.dividers|) ==> r.panicked
    ensures !aIsReceiver && bIsReceiver && a.dividers != Zeros(|a.dividers|) ==> r.panicked
  {
    CopyAsWrittenZeros(a.dividers, Some(d.dividers));
    var zero := CopyAsWritten(a.dividers, Some(d.dividers));
    var ad := if aIsReceiver then zero else a.dividers;
    var bd := if bIsReceiver then zero else b.dividers;
    CombineOf(zero, d.histo, ad, bd, a.histo, b.histo, op)
  }

  /** Accumulating a histogram into itself, `D.Add(D, x)` with equal
      non-zero dividers, panics as written; with a real copy it adds the
      bins. */
  lemma AccumulateAsWritten()
    ensures var h, x := Hist(-1, false, 1, [0.0, 1.0], [2.0]), Hist(-1, false, 1, [0.0, 1.0], [3.0]);
      CombineAsWritten(h, h, x, true, false, Plus).panicked
      && CombineOf(h.dividers, h.histo, h.dividers, x.dividers, h.histo, x.histo, Plus) == Combined([0.0, 1.0], [5.0], false)
  {
    var h, x := Hist(-1, false, 1, [0.0, 1.0], [2.0]), Hist(-1, false, 1, [0.0, 1.0], [3.0]);
    CopyAsWrittenZeros(h.dividers, Some(h.dividers));
    assert Zeros(2) == [0.0, 0.0];
    assert Binwise(h.histo, [0.0, 0.0], x.dividers, h.histo, x.histo, Plus, 1).1;
    assert Binwise(h.histo, [0.0, 0.0], x.dividers, h.histo, x.histo, Plus, 0).1;
    assert Binwise([5.0], h.dividers, x.dividers, h.histo, x.histo, Plus, 1) == ([5.0], false);
  }

  // ---------------------------------------------------------------------
  // Data

  /** A histogram (`Data`). */
  class Data {
    var id: int
    var normalized: bool
    var total: int
    var dividers: seq<real>
    var histo: seq<real>

    function State(): Hist
      reads this
    {
      Hist(id, normalized, total, dividers, histo)
    }

    /** At least one divider, and a bin for every pair of neighbouring
        dividers. */
    predicate Valid()
      reads this
    {
      |dividers| >= 1 && |histo| >= |dividers| - 1
    }

    /** `NewData(dividers, nil, ID...)`: a copy of the dividers, one empty
        bin between each two, no data, id -1 unless one is given. */
    constructor (dividers: seq<real>, givenId: Option<int>)
      requires |dividers| >= 1
      ensures Valid()
      ensures State() == Hist(if givenId.Some? then givenId.value else -1, false, 0, dividers, Zeros(|dividers| - 1))
    {
      this.dividers := dividers;
      histo := Zeros(|dividers| - 1);
      normalized := false;
      total := 0;
      id := if givenId.Some? then givenId.value else -1;
    }

    /** `normaunnorma(normalize)`. */
    method NormaUnnorma(normalize: bool)
      modifies this
      ensures State() == Norma(old(State()), normalize)
    {
      if total <= 0 {
        return;
      }
      var n := total as real;
      normalized := false;
      if normalize {
        n := 1.0 / (total as real);
        normalized := true;
      }
      histo := Scale(n, histo);
    }

    method Normalize()
      modifies this
      ensures State() == Norma(old(State()), true)
    {
      NormaUnnorma(true);
    }

    method UnNormalize()
      modifies this
      ensures State() == Norma(old(State()), false)
    {
      NormaUnnorma(false);
    }

    /** `AddData(point...)`. */
    method AddData(points: seq<real>)
      requires Valid()
      modifies this
      ensures Valid() && State() == AddDataOf(old(State()), points)
    {
      var norma := false;
      if normalized {
        norma := true;
        UnNormalize();
      }
      ghost var u := State();
      var k := 0;
      while k < |points|
        invariant 0 <= k <= |points| && Valid()
        invariant State() == u.(histo := Counted(u.histo, u.dividers, points[..k]))
      {
        var v := points[k];
        var b := FindBin(dividers, v);
        assert points[..k + 1][..k] == points[..k];
        if b.Some? {
          histo := histo[b.value := histo[b.value] + 1.0];
        }
        k := k + 1;
      }
      assert points[..k] == points;
      total := total + |points|;
      if norma {
        Normalize();
      }
    }

    /** `Add(a, b)` and `Sub(a, b, abs...)`, the receiver's dividers being
        a true copy of `a`'s. */
    method Combine(a: Data, b: Data, op: Op) returns (panicked: bool)
      modifies this
      ensures var bd := if b == this then old(a.dividers) else old(b.dividers);
        Combined(dividers, histo, panicked)
          == CombineOf(old(a.dividers), old(histo), old(a.dividers), bd, old(a.histo), old(b.histo), op)
      ensures id == old(id) && normalized == old(normalized) && total == old(total)
    {
      ghost var ah, bh, dh := a.histo, b.histo, histo;
      dividers := a.CopyDividers(Some(dividers));
      if |a.dividers| != |b.dividers| {
        return true;
      }
      ghost var ad, bd := a.dividers, b.dividers;
      var i := 0;
      while i < |a.dividers|
        invariant 0 <= i <= |ad| && a.dividers == ad && b.dividers == bd && dividers == ad && |histo| == |dh|
        invariant forall k :: i <= k < |histo| ==> histo[k] == dh[k]
        invariant Binwise(histo, ad, bd, ah, bh, op, i) == Binwise(dh, ad, bd, ah, bh, op, 0)
        invariant id == old(id) && normalized == old(normalized) && total == old(total)
        decreases |ad| - i
      {
        if a.dividers[i] != b.dividers[i] {
          return true;
        }
        if i == |a.dividers| - 1 {
          break;
        }
        if i >= |a.histo| || i >= |b.histo| || i >= |histo| {
          return true;
        }
        histo := histo[i := Apply(op, a.histo[i], b.histo[i])];
        i := i + 1;
      }
      return false;
    }

    /** `Add(a, b)`. */
    method Add(a: Data, b: Data) returns (panicked: bool)
      modifies this
      ensures var bd := if b == this then old(a.dividers) else old(b.dividers);
        Combined(dividers, histo, panicked)
          == CombineOf(old(a.dividers), old(histo), old(a.dividers), bd, old(a.histo), old(b.histo), Plus)
      ensures id == old(id) && normalized == old(normalized) && total == old(total)
    {
      panicked := Combine(a, b, Plus);
    }

    /** `Sub(a, b, abs...)`. */
    method Sub(a: Data, b: Data, abs: bool) returns (panicked: bool)
      modifies this
      ensures var bd := if b == this then old(a.dividers) else old(b.dividers);
        Combined(dividers, histo, panicked)
          == CombineOf(old(a.dividers), old(histo), old(a.dividers), bd, old(a.histo), old(b.histo), if abs then AbsMinus else Minus)
      ensures id == old(id) && normalized == old(normalized) && total == old(total)
    {
      panicked := Combine(a, b, if abs then AbsMinus else Minus);
    }

    /** `CopyDividers(dest...)`, copying the values. */
    method CopyDividers(dest: Option<seq<real>>) returns (r: seq<real>)
      ensures r == dividers
    {
      var d := GetCopySlice(|dividers|, dest);
      r := ScaleTo(d, 1.0, dividers);
      ScaleOne(dividers);
    }

    /** `Copy(dest...)`, copying the values. */
    method Copy(dest: Option<seq<real>>) returns (r: seq<real>)
      ensures r == histo
    {
      var d := GetCopySlice(|histo|, dest);
      r := ScaleTo(d, 1.0, histo);
      ScaleOne(histo);
    }
  }

  /** `floats.ScaleTo(dst, c, s)`, filling `dst` element by element. */
  method ScaleTo(dst: seq<real>, c: real, s: seq<real>) returns (r: seq<real>)
    requires |dst| == |s|
    ensures r == Scale(c, s)
  {
    r := dst;
    var i := 0;
    while i < |s|
      invariant 0 <= i <= |s| && |r| == |s|
      invariant forall k :: 0 <= k < i ==> r[k] == c * s[k]
    {
      r := r[i := c * s[i]];
      i := i + 1;
    }
    assert forall k :: 0 <= k < |s| ==> Scale(c, s)[k] == c * s[k];
    assert r == Scale(c, s);
  }

  /** Scaling by one copies. */
  lemma ScaleOne(s: seq<real>)
    ensures Scale(1.0, s) == s
  {
    assert forall i :: 0 <= i < |s| ==> Scale(1.0, s)[i] == s[i];
  }

  /** The inner loop of `AddData`: the bin of `v`, if any. */
  method FindBin(d: seq<real>, v: real) returns (b: Option<nat>)
    ensures b == BinOf(d, v)
  {
    var j := 0;
    while j < |d|
      invariant 0 <= j <= |d| && BinFrom(d, v, j) == BinOf(d, v)
    {
      if j == |d| - 1 {
        break;
      }
      if d[j] <= v && v < d[j + 1] {
        return Some(j);
      }
      j := j + 1;
    }
    return None;
  }

  // ---------------------------------------------------------------------
  // Matrix

  /** A matrix of histograms, of which `Check`, `rc2i` and `CopyDividers`
      are modelled. */
  class Matrix {
    var rows: int
    var cols: int
    var dividers: Option<seq<real>>

    constructor (r: int, c: int, dividers: Option<seq<real>>)
      ensures rows == r && cols == c && this.dividers == dividers
    {
      rows, cols, this.dividers := r, c, dividers;
    }

    /** `Check(r, c, pan)`: an error (or, with `pan`, a panic) when the row
        or the column is too large, the column's message winning; negative
        indices pass. */
    function Check(r: int, c: int, pan: bool): (res: Outcome<Option<string>>)
      reads this
      ensures res == Ok(None) <==> r < rows && c < cols
      ensures res.Panic? <==> pan && !(r < rows && c < cols)
      ensures !(r < rows && c < cols) ==>
        !res.Ok? && res.msg == (if c >= cols then "goChem/Histo: Column out of range" else "goChem/Histo: Row out of range")
    {
      var err := if c >= cols then Some("goChem/Histo: Column out of range")
                 else if r >= rows then Some("goChem/Histo: Row out of range")
                 else None;
      if err.Some? && pan then Panic(err.value) else if err.Some? then Err(err.value) else Ok(err)
    }

    /** `rc2i(r, c)`: the row-major index, after a panicking `Check`. */
    function RC2I(r: int, c: int): (res: Outcome<int>)
      reads this
      ensures res.Ok? <==> r < rows && c < cols
      ensures !res.Err?
    {
      if Check(r, c, true).Panic? then Panic(Check(r, c, true).msg) else Ok(cols * r + c)
    }

    /** `CopyDividers(dest...)`, copying the values; nil without
        dividers. */
    method CopyDividers(dest: Option<seq<real>>) returns (r: Option<seq<real>>)
      ensures r == dividers
    {
      if dividers.None? {
        return None;
      }
      var d := GetCopySlice(|dividers.value|, dest);
      var copy := ScaleTo(d, 1.0, dividers.value);
      ScaleOne(dividers.value);
      return Some(copy);
    }
  }

  lemma MulAtLeast(k: int, n: int)
    requires n > 0 && k >= 1
    ensures n * k >= n
  {
  }

  lemma MulMono(n: int, a: int, b: int)
    requires n >= 0 && a <= b
    ensures n * a <= n * b
  {
    assert n * b - n * a == n * (b - a);
  }

  /** A non-zero multiple of `n` is at least `n` away from zero. */
  lemma MulNonZero(n: int, d: int)
    requires n > 0 && d != 0
    ensures n * d >= n || n * d <= -n
  {
    if d > 0 {
      MulAtLeast(d, n);
    } else {
      MulAtLeast(-d, n);
      assert n * d == -(n * -d);
    }
  }

  /** Quotient and remainder of `n * r + c` by `n`, for `0 <= c < n`. */
  lemma DivModOf(n: int, r: int, c: int)
    requires 0 <= c < n
    ensures (n * r + c) / n == r && (n * r + c) % n == c
  {
    var x := n * r + c;
    var q, s := x / n, x % n;
    var d := r - q;
    assert n * d == s - c by {
      assert n * r == n * q + n * d;
    }
    if d != 0 {
      MulNonZero(n, d);
      assert false;
    }
  }

  /** `n * r + c` with `0 <= c < n` is the index whose quotient is `r` and
      whose remainder is `c`; below `n * rows` when `r < rows`. */
  lemma RowMajor(n: int, rows: int, r: int, c: int)
    requires 0 <= r < rows && 0 <= c < n
    ensures 0 <= n * r + c < n * rows
    ensures (n * r + c) / n == r && (n * r + c) % n == c
  {
    DivModOf(n, r, c);
    MulMono(n, 0, r);
    MulMono(n, r + 1, rows);
    assert n * (r + 1) == n * r + n;
  }

  /** Inside the matrix `rc2i` numbers the cells 0 .. rows*cols-1, one to
      one: row and column come back as quotient and remainder. */
  lemma {:induction false} RC2IInverse(m: Matrix, r: int, c: int)
    requires 0 <= r < m.rows && 0 <= c < m.cols
    ensures m.RC2I(r, c).Ok?
    ensures 0 <= m.RC2I(r, c).value < m.rows * m.cols
    ensures m.RC2I(r, c).value / m.cols == r && m.RC2I(r, c).value % m.cols == c
  {
    RowMajor(m.cols, m.rows, r, c);
  }
}
