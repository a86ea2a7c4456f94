/** The grid of patch centres the scan walks: numpy's `arange(lo, hi, step)` for each axis and
    their product, right ascension in the outer loop and declination in the inner one.
    Values are integers in units of 1e-4 degree; `step` is the patch size in the same unit. */
module AngleGrid {
  import opened Decimal
  import Text

  /** `np.arange(lo, hi, step)` for a positive step: `lo`, `lo + step`, ... while below `hi`. */
  function Arange(lo: int, hi: int, step: int): (r: seq<int>)
    requires step > 0
    ensures forall k :: 0 <= k < |r| ==> r[k] == lo + k * step && r[k] < hi
    ensures lo + |r| * step >= hi
    decreases hi - lo
  {
    if lo >= hi then [] else [lo] + Arange(lo + step, hi, step)
  }

  /** The length numpy documents for `arange`: `ceil((hi - lo) / step)`, and none when `hi <= lo`. */
  function StepCount(lo: int, hi: int, step: int): nat
    requires step > 0
  {
    if hi <= lo then 0 else (hi - lo + step - 1) / step
  }

  lemma DivByCases(d: int, step: int)
    requires step > 0 && d > step
    ensures (d + step - 1) / step == (d - step + step - 1) / step + 1
  {
    var x := d - 1;
    var q, r := x / step, x % step;
    assert x == q * step + r;
    assert x + step == (q + 1) * step + r;
    DivUnique(x + step, step, q + 1, r);
  }

  /** `arange` yields exactly `ceil((hi - lo) / step)` values. */
  lemma {:induction false} ArangeLength(lo: int, hi: int, step: int)
    requires step > 0
    ensures |Arange(lo, hi, step)| == StepCount(lo, hi, step)
    decreases hi - lo
  {
    if lo < hi {
      ArangeLength(lo + step, hi, step);
      if hi - lo > step {
        DivByCases(hi - lo, step);
      } else {
        DivUnique(hi - lo + step - 1, step, 1, hi - lo - 1);
      }
    }
  }

  /** `arange` values strictly increase, so no value repeats. */
  lemma ArangeIncreasing(lo: int, hi: int, step: int, a: nat, b: nat)
    requires step > 0 && a < b < |Arange(lo, hi, step)|
    ensures Arange(lo, hi, step)[a] < Arange(lo, hi, step)[b]
  {
    assert a * step < b * step;
  }

  /** The inner loop for one right ascension: every declination, in order. */
  function Row(ra: int, decs: seq<int>): (r: seq<(int, int)>)
    ensures |r| == |decs|
    ensures forall j :: 0 <= j < |decs| ==> r[j] == (ra, decs[j])
  {
    seq(|decs|, j requires 0 <= j < |decs| => (ra, decs[j]))
  }

  /** The nested loops `for ra in ras: for dec in decs:` as the sequence of centres visited. */
  function Grid(ras: seq<int>, decs: seq<int>): seq<(int, int)> {
    if ras == [] then [] else Grid(ras[..|ras| - 1], decs) + Row(ras[|ras| - 1], decs)
  }

  /** One more right ascension adds its row at the end of the grid. */
  lemma GridSnoc(ras: seq<int>, i: nat, decs: seq<int>)
    requires i < |ras|
    ensures Grid(ras[..i + 1], decs) == Grid(ras[..i], decs) + Row(ras[i], decs)
  {
    assert ras[..i + 1][..i] == ras[..i];
  }

  /** One more declination adds its centre at the end of the row. */
  lemma RowSnoc(ra: int, decs: seq<int>, j: nat)
    requires j < |decs|
    ensures Row(ra, decs[..j + 1]) == Row(ra, decs[..j]) + [(ra, decs[j])]
  {
  }

  /** The grid of the first right ascensions is the start of the whole grid. */
  lemma {:induction false} GridPrefix(ras: seq<int>, k: nat, decs: seq<int>)
    requires k <= |ras|
    ensures Grid(ras[..k], decs) <= Grid(ras, decs)
    decreases |ras|
  {
    if k < |ras| {
      var n := |ras| - 1;
      GridPrefix(ras[..n], k, decs);
      assert ras[..n][..k] == ras[..k];
    } else {
      assert ras[..k] == ras;
    }
  }

  /** The grid has one centre per pair of axis values: `|ras| * |decs|` of them. */
  lemma {:induction false} GridLength(ras: seq<int>, decs: seq<int>)
    ensures |Grid(ras, decs)| == |ras| * |decs|
  {
    if ras != [] {
      GridLength(ras[..|ras| - 1], decs);
      assert |ras| * |decs| == (|ras| - 1) * |decs| + |decs|;
    }
  }

  /** Right ascension major order: the centre at position `i * |decs| + j` is `(ras[i], decs[j])`. */
  lemma {:induction false} GridAt(ras: seq<int>, decs: seq<int>, i: nat, j: nat)
    requires i < |ras| && j < |decs|
    ensures i * |decs| + j < |Grid(ras, decs)|
    ensures Grid(ras, decs)[i * |decs| + j] == (ras[i], decs[j])
  {
    var n := |ras| - 1;
    GridLength(ras, decs);
    GridLength(ras[..n], decs);
    if i < n {
      GridAt(ras[..n], decs, i, j);
      assert i * |decs| + j < n * |decs| by {
        MulMonotone(i + 1, n, |decs|);
        assert (i + 1) * |decs| == i * |decs| + |decs|;
      }
    } else {
      assert Grid(ras, decs)[n * |decs| + j] == Row(ras[n], decs)[j];
    }
  }

  /** Every centre of the grid is a pair of axis values, the right ascension first. */
  lemma {:induction false} GridMember(ras: seq<int>, decs: seq<int>, k: nat)
    requires k < |Grid(ras, decs)|
    ensures Grid(ras, decs)[k].0 in ras && Grid(ras, decs)[k].1 in decs
  {
    var n := |ras| - 1;
    var g := Grid(ras[..n], decs);
    if k < |g| {
      GridMember(ras[..n], decs, k);
    } else {
      assert Grid(ras, decs)[k] == Row(ras[n], decs)[k - |g|];
    }
  }

  /** The number of patches of a scan is the product of the two axes' step counts, and every
      centre lies in `[raMin, raMax) x [decMin, decMax)`. */
  lemma ScanGridShape(raMin: int, raMax: int, decMin: int, decMax: int, step: int)
    requires step > 0
    ensures |Grid(Arange(raMin, raMax, step), Arange(decMin, decMax, step))|
         == StepCount(raMin, raMax, step) * StepCount(decMin, decMax, step)
    ensures forall k :: 0 <= k < |Grid(Arange(raMin, raMax, step), Arange(decMin, decMax, step))| ==>
              var c := Grid(Arange(raMin, raMax, step), Arange(decMin, decMax, step))[k];
              raMin <= c.0 < raMax && decMin <= c.1 < decMax
  {
    var ras, decs := Arange(raMin, raMax, step), Arange(decMin, decMax, step);
    ArangeLength(raMin, raMax, step);
    ArangeLength(decMin, decMax, step);
    GridSize(ras, decs, StepCount(raMin, raMax, step), StepCount(decMin, decMax, step));
    GridBounds(ras, decs, raMin, raMax, decMin, decMax);
  }

  lemma GridSize(ras: seq<int>, decs: seq<int>, m: nat, n: nat)
    requires |ras| == m && |decs| == n
    ensures |Grid(ras, decs)| == m * n
  {
    GridLength(ras, decs);
  }

  /** Axes within bounds give a grid within the product of the bounds. */
  lemma GridBounds(ras: seq<int>, decs: seq<int>, raMin: int, raMax: int, decMin: int, decMax: int)
    requires forall i :: 0 <= i < |ras| ==> raMin <= ras[i] < raMax
    requires forall j :: 0 <= j < |decs| ==> decMin <= decs[j] < decMax
    ensures forall k :: 0 <= k < |Grid(ras, decs)| ==>
              raMin <= Grid(ras, decs)[k].0 < raMax && decMin <= Grid(ras, decs)[k].1 < decMax
  {
    forall k | 0 <= k < |Grid(ras, decs)|
      ensures raMin <= Grid(ras, decs)[k].0 < raMax && decMin <= Grid(ras, decs)[k].1 < decMax
    {
      GridMember(ras, decs, k);
    }
  }

  /** Strictly increasing axes give a grid in which no centre repeats. */
  lemma {:induction false} GridNoRepeats(ras: seq<int>, decs: seq<int>)
    requires forall a, b :: 0 <= a < b < |ras| ==> ras[a] < ras[b]
    requires forall a, b :: 0 <= a < b < |decs| ==> decs[a] < decs[b]
    ensures Text.NoRepeats(Grid(ras, decs))
  {
    if ras != [] {
      var n := |ras| - 1;
      var g, row := Grid(ras[..n], decs), Row(ras[n], decs);
      GridNoRepeats(ras[..n], decs);
      forall a, b | 0 <= a < b < |g + row| ensures (g + row)[a] != (g + row)[b] {
        if b >= |g| && a < |g| {
          GridMember(ras[..n], decs, a);
          var i :| 0 <= i < n && ras[..n][i] == g[a].0;
        }
      }
    }
  }

  /** The centres of a scan's grid are pairwise distinct. */
  lemma ScanGridNoRepeats(raMin: int, raMax: int, decMin: int, decMax: int, step: int)
    requires step > 0
    ensures Text.NoRepeats(Grid(Arange(raMin, raMax, step), Arange(decMin, decMax, step)))
  {
    var ras, decs := Arange(raMin, raMax, step), Arange(decMin, decMax, step);
    forall a, b | 0 <= a < b < |ras| ensures ras[a] < ras[b] {
      ArangeIncreasing(raMin, raMax, step, a, b);
    }
    forall a, b | 0 <= a < b < |decs| ensures decs[a] < decs[b] {
      ArangeIncreasing(decMin, decMax, step, a, b);
    }
    GridNoRepeats(ras, decs);
  }
}
