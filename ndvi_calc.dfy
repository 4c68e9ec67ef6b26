/** ndvi.py, `calculate_ndvi` and `quality_check`: reflectance calibration of the
    red and near-infrared bands from the per-band metadata coefficients, the NDVI
    formula with numpy's silenced division, and the blank-pixel quality gate. */
module NdviCalc {
  import opened Base
  import opened Text

  // ------------------------------------------------------------ coefficients

  /** One `ps:bandSpecificMetadata` node: the text of its band number, and its
      reflectance coefficient as `float()` reads it (None: `float()` raises ValueError). */
  datatype BandNode = BandNode(bandNumber: string, coefficient: Option<real>)

  /** The band numbers the loop keeps: `band_num in ['1', '2', '3', '4']`. */
  predicate IsBandLabel(t: string) { t == "1" || t == "2" || t == "3" || t == "4" }

  function BandLabel(k: int): (t: string)
    requires 1 <= k <= 4
    ensures IsBandLabel(t)
  {
    [DigitChar(k)]
  }

  /** `int(band_num)` on a kept band number. */
  function BandIndex(t: string): (k: int)
    requires IsBandLabel(t)
    ensures 1 <= k <= 4 && BandLabel(k) == t
  {
    DigitValue(t[0])
  }

  /** The coefficient map after one more node: other band numbers are skipped,
      a kept band whose coefficient is not a number raises, a kept band overwrites. */
  function AddNode(m: map<int, real>, node: BandNode): Result<map<int, real>>
  {
    if !IsBandLabel(node.bandNumber) then Ok(m)
    else if node.coefficient.None? then Err(ValueError)
    else Ok(m[BandIndex(node.bandNumber) := node.coefficient.value])
  }

  /** The map `coeff` that the loop at lines 34-40 builds from the nodes, in document order. */
  function Coefficients(nodes: seq<BandNode>): Result<map<int, real>>
    decreases |nodes|
  {
    if |nodes| == 0 then Ok(map[])
    else match Coefficients(nodes[..|nodes| - 1])
      case Err(e) => Err(e)
      case Ok(m) => AddNode(m, nodes[|nodes| - 1])
  }

  /** Once a prefix has raised, the whole list raises the same error. */
  lemma {:induction false} ErrorPersists(nodes: seq<BandNode>, j: nat)
    requires j <= |nodes| && Coefficients(nodes[..j]).Err?
    ensures Coefficients(nodes) == Coefficients(nodes[..j])
    decreases |nodes| - j
  {
    if j < |nodes| {
      assert nodes[..j + 1][..j] == nodes[..j];
      ErrorPersists(nodes, j + 1);
    } else {
      assert nodes[..j] == nodes;
    }
  }

  /** The loop of lines 34-40, filling the dictionary one node at a time. */
  method BuildCoefficients(nodes: seq<BandNode>) returns (r: Result<map<int, real>>)
    ensures r == Coefficients(nodes)
  {
    var coeff: map<int, real> := map[];
    for i := 0 to |nodes|
      invariant Coefficients(nodes[..i]) == Ok(coeff)
    {
      var node := nodes[i];
      assert nodes[..i + 1][..i] == nodes[..i];
      if IsBandLabel(node.bandNumber) {
        var k := BandIndex(node.bandNumber);
        if node.coefficient.None? {
          ErrorPersists(nodes, i + 1);
          return Err(ValueError);
        }
        coeff := coeff[k := node.coefficient.value];
      }
    }
    assert nodes[..|nodes|] == nodes;
    return Ok(coeff);
  }

  /** The loop raises (a ValueError) exactly when some kept band's coefficient is not a number. */
  lemma {:induction false} CoefficientsErrorIff(nodes: seq<BandNode>)
    ensures Coefficients(nodes).Err? <==>
      exists j :: 0 <= j < |nodes| && IsBandLabel(nodes[j].bandNumber) && nodes[j].coefficient.None?
    ensures Coefficients(nodes).Err? ==> Coefficients(nodes).error == ValueError
    decreases |nodes|
  {
    if |nodes| > 0 {
      var init := nodes[..|nodes| - 1];
      CoefficientsErrorIff(init);
      assert forall j :: 0 <= j < |init| ==> init[j] == nodes[j];
    }
  }

  /** The map has an entry exactly for the kept band numbers that occur in the nodes. */
  lemma {:induction false} CoefficientsKeys(nodes: seq<BandNode>)
    requires Coefficients(nodes).Ok?
    ensures forall k :: k in Coefficients(nodes).value <==>
      1 <= k <= 4 && exists j :: 0 <= j < |nodes| && nodes[j].bandNumber == BandLabel(k)
    decreases |nodes|
  {
    if |nodes| > 0 {
      var init := nodes[..|nodes| - 1];
      CoefficientsKeys(init);
      assert forall j :: 0 <= j < |init| ==> init[j] == nodes[j];
      var last := nodes[|nodes| - 1];
      forall k | 1 <= k <= 4
        ensures (exists j :: 0 <= j < |nodes| && nodes[j].bandNumber == BandLabel(k)) <==>
          ((exists j :: 0 <= j < |init| && init[j].bandNumber == BandLabel(k)) || last.bandNumber == BandLabel(k))
      {
        if last.bandNumber == BandLabel(k) {
          assert nodes[|nodes| - 1].bandNumber == BandLabel(k);
        }
      }
    }
  }

  /** A later node for the same band overwrites an earlier one: the entry for a band is the
      coefficient of the LAST node carrying its number. */
  lemma {:induction false} CoefficientsLastWins(nodes: seq<BandNode>, j: nat)
    requires Coefficients(nodes).Ok?
    requires j < |nodes| && IsBandLabel(nodes[j].bandNumber)
    requires forall j' :: j < j' < |nodes| ==> nodes[j'].bandNumber != nodes[j].bandNumber
    ensures nodes[j].coefficient.Some?
    ensures BandIndex(nodes[j].bandNumber) in Coefficients(nodes).value
    ensures Coefficients(nodes).value[BandIndex(nodes[j].bandNumber)] == nodes[j].coefficient.value
    decreases |nodes|
  {
    var init := nodes[..|nodes| - 1];
    var last := nodes[|nodes| - 1];
    assert Coefficients(init).Ok?;
    if j == |nodes| - 1 {
    } else {
      assert init[j] == nodes[j];
      assert forall j' :: j < j' < |init| ==> init[j'] == nodes[j'];
      CoefficientsLastWins(init, j);
      if IsBandLabel(last.bandNumber) {
        assert BandIndex(last.bandNumber) != BandIndex(nodes[j].bandNumber);
      }
    }
  }

  // ------------------------------------------------------------------- NDVI

  /** A float64 result: numpy's division by zero gives inf or, for 0/0, NaN, once
      `np.seterr(divide='ignore', invalid='ignore')` has silenced the warnings. */
  datatype Float = Finite(r: real) | NaN | Inf(negative: bool)

  function Divide(a: real, b: real): Float
  {
    if b != 0.0 then Finite(a / b) else if a == 0.0 then NaN else Inf(a < 0.0)
  }

  /** The formula of line 45 on calibrated values. */
  function NdviPixel(red: real, nir: real): Float
  {
    Divide(nir - red, nir + red)
  }

  /** Raw digital numbers of bands 3 (red) and 4 (near-infrared) at one pixel;
      both bands come from the same raster, so they share its shape. */
  datatype RawPixel = RawPixel(red: nat, nir: nat)

  type Grid<T> = seq<seq<T>>

  /** Lines 42-45 at one pixel: scale red by c3 and NIR by c4, then apply the formula. */
  function PixelNdvi(p: RawPixel, c3: real, c4: real): Float
  {
    NdviPixel(p.red as real * c3, p.nir as real * c4)
  }

  function NdviRow(row: seq<RawPixel>, c3: real, c4: real): (r: seq<Float>)
    ensures |r| == |row| && forall j :: 0 <= j < |row| ==> r[j] == PixelNdvi(row[j], c3, c4)
  {
    seq(|row|, j requires 0 <= j < |row| => PixelNdvi(row[j], c3, c4))
  }

  /** Lines 42-45 elementwise; the result has the shape of the raster. */
  function NdviGrid(raster: Grid<RawPixel>, c3: real, c4: real): (g: Grid<Float>)
    ensures |g| == |raster| && forall i :: 0 <= i < |g| ==> g[i] == NdviRow(raster[i], c3, c4)
  {
    seq(|raster|, i requires 0 <= i < |raster| => NdviRow(raster[i], c3, c4))
  }

  /** `calculate_ndvi` on the bands already read and the metadata already parsed: the
      coefficient loop may raise ValueError, and `coeff[3]`, `coeff[4]` raise KeyError. The
      method CalculateNdvi computes it step by step, with the coefficient loop run as a loop;
      the lemmas below state its meaning. */
  function NdviOf(raster: Grid<RawPixel>, nodes: seq<BandNode>): Result<Grid<Float>>
  {
    match Coefficients(nodes)
    case Err(e) => Err(e)
    case Ok(m) =>
      if 3 !in m then Err(KeyError)
      else if 4 !in m then Err(KeyError)
      else Ok(NdviGrid(raster, m[3], m[4]))
  }

  /** `calculate_ndvi`, with the coefficient dictionary filled by its loop; the function NdviOf
      is its specification. */
  method CalculateNdvi(raster: Grid<RawPixel>, nodes: seq<BandNode>) returns (r: Result<Grid<Float>>)
    ensures r == NdviOf(raster, nodes)
  {
    var coeff := BuildCoefficients(nodes);
    if coeff.Err? {
      return Err(coeff.error);
    }
    var m := coeff.value;
    if 3 !in m || 4 !in m {
      return Err(KeyError);
    }
    r := Ok(NdviGrid(raster, m[3], m[4]));
  }

  /** Non-negative calibrated values that are not both zero give a finite NDVI in [-1, 1]. */
  lemma NdviRange(red: real, nir: real)
    requires red >= 0.0 && nir >= 0.0 && red + nir > 0.0
    ensures NdviPixel(red, nir).Finite?
    ensures -1.0 <= NdviPixel(red, nir).r <= 1.0
  {
    var s := nir + red;
    var q := (nir - red) / s;
    assert q * s == nir - red;
    assert (1.0 - q) * s == 2.0 * red;
    assert (q + 1.0) * s == 2.0 * nir;
    if 1.0 - q < 0.0 {
      NegativeTimesPositive(1.0 - q, s);
    }
    if q + 1.0 < 0.0 {
      NegativeTimesPositive(q + 1.0, s);
    }
  }

  lemma NegativeTimesPositive(a: real, b: real)
    requires a < 0.0 && b > 0.0
    ensures a * b < 0.0
  {
  }

  /** Both zero gives NaN, not an exception. */
  lemma NdviBothZero()
    ensures NdviPixel(0.0, 0.0) == NaN
  {
  }

  /** For an NDVI raster computed with positive coefficients, each pixel is NaN exactly where
      both raw bands are zero, and finite in [-1, 1] everywhere else. */
  lemma NdviGridRange(raster: Grid<RawPixel>, c3: real, c4: real, i: nat, j: nat)
    requires c3 > 0.0 && c4 > 0.0
    requires i < |raster| && j < |raster[i]|
    ensures |NdviGrid(raster, c3, c4)[i]| == |raster[i]|
    ensures var v := NdviGrid(raster, c3, c4)[i][j];
      && (v == NaN <==> raster[i][j].red == 0 && raster[i][j].nir == 0)
      && (v != NaN ==> v.Finite? && -1.0 <= v.r <= 1.0)
  {
    var red, nir := raster[i][j].red as real * c3, raster[i][j].nir as real * c4;
    assert red >= 0.0 && nir >= 0.0;
    if raster[i][j].red != 0 || raster[i][j].nir != 0 {
      assert red > 0.0 || nir > 0.0;
      NdviRange(red, nir);
    }
  }

  /** A missing coefficient for band 3 or band 4 surfaces as KeyError. */
  lemma MissingBandKeyError(raster: Grid<RawPixel>, nodes: seq<BandNode>, k: int)
    requires k == 3 || k == 4
    requires Coefficients(nodes).Ok?
    requires forall j :: 0 <= j < |nodes| ==> nodes[j].bandNumber != BandLabel(k)
    ensures NdviOf(raster, nodes) == Err(KeyError)
  {
    CoefficientsKeys(nodes);
  }

  /** The worked example: coefficients {1: 0.01, 2: 0.012, 3: 0.011, 4: 0.009}, raw
      RED = 2000 and NIR = 3000 calibrate to 22 and 27, and NDVI is 5/49. */
  lemma NdviScenario()
    ensures NdviOf([[RawPixel(2000, 3000)]],
                   [BandNode("1", Some(0.01)), BandNode("2", Some(0.012)),
                    BandNode("3", Some(0.011)), BandNode("4", Some(0.009))])
            == Ok([[Finite(5.0 / 49.0)]])
  {
    var nodes := [BandNode("1", Some(0.01)), BandNode("2", Some(0.012)),
                  BandNode("3", Some(0.011)), BandNode("4", Some(0.009))];
    assert nodes[..3][..2] == nodes[..2] && nodes[..2][..1] == nodes[..1] && nodes[..1][..0] == [];
    assert nodes[..4][..3] == nodes[..3];
    assert BandIndex("1") == 1 && BandIndex("2") == 2 && BandIndex("3") == 3 && BandIndex("4") == 4;
    assert Coefficients(nodes[..1]) == Ok(map[1 := 0.01]);
    assert Coefficients(nodes[..2]) == Ok(map[1 := 0.01, 2 := 0.012]);
    assert Coefficients(nodes[..3]) == Ok(map[1 := 0.01, 2 := 0.012, 3 := 0.011]);
    assert nodes[..4] == nodes;
    assert Coefficients(nodes) == Ok(map[1 := 0.01, 2 := 0.012, 3 := 0.011, 4 := 0.009]);
    assert NdviPixel(22.0, 27.0) == Finite(5.0 / 49.0);
    assert PixelNdvi(RawPixel(2000, 3000), 0.011, 0.009) == Finite(5.0 / 49.0);
    assert NdviRow([RawPixel(2000, 3000)], 0.011, 0.009) == [Finite(5.0 / 49.0)];
    assert NdviGrid([[RawPixel(2000, 3000)]], 0.011, 0.009) == [[Finite(5.0 / 49.0)]];
  }

  // ---------------------------------------------------------- quality check

  /** A loaded image, H x W x C: rows of pixels, each pixel its channel values. */
  type Image = seq<seq<seq<real>>>

  function PixelZeros(p: seq<real>): nat
    decreases |p|
  {
    if |p| == 0 then 0 else (if p[0] == 0.0 then 1 else 0) + PixelZeros(p[1..])
  }

  function RowZeros(row: seq<seq<real>>): nat
    decreases |row|
  {
    if |row| == 0 then 0 else PixelZeros(row[0]) + RowZeros(row[1..])
  }

  /** `len(np.where(img == 0.0)[0])`: the zero entries over every channel. */
  function ZeroCount(img: Image): nat
    decreases |img|
  {
    if |img| == 0 then 0 else RowZeros(img[0]) + ZeroCount(img[1..])
  }

  /** `np.prod(img.shape[0:2])`, H * W. */
  function PixelCount(img: Image): nat
  {
    if |img| == 0 then 0 else |img| * |img[0]|
  }

  /** `quality_check(img, thresh)`: reject when (zeros / 3) / (H * W) > thresh. With no pixels,
      0 / 0 is NaN and `NaN > thresh` is False, so the image is accepted. */
  function QualityCheck(img: Image, thresh: real): bool
  {
    var nblanks := ZeroCount(img) as real / 3.0;
    if PixelCount(img) == 0 then ZeroCount(img) == 0
    else !(nblanks / PixelCount(img) as real > thresh)
  }

  /** The gate as a plain inequality: accepted iff zeros <= 3 * thresh * H * W. */
  lemma QualityCheckIff(img: Image, thresh: real)
    requires PixelCount(img) > 0
    ensures QualityCheck(img, thresh) <==> ZeroCount(img) as real <= 3.0 * thresh * PixelCount(img) as real
  {
    DivCompare(ZeroCount(img) as real, PixelCount(img) as real, thresh);
  }

  lemma PositiveTimesPositive(a: real, b: real)
    requires a > 0.0 && b > 0.0
    ensures a * b > 0.0
  {
  }

  /** (z / 3) / n > t exactly when z > 3 t n, for n > 0. */
  lemma DivCompare(z: real, n: real, t: real)
    requires n > 0.0
    ensures (z / 3.0) / n > t <==> z > 3.0 * t * n
  {
    var q := (z / 3.0) / n;
    assert q * n == z / 3.0;
    assert (q - t) * n == z / 3.0 - t * n;
    if q - t > 0.0 {
      PositiveTimesPositive(q - t, n);
    } else if q - t < 0.0 {
      NegativeTimesPositive(q - t, n);
    }
  }

  /** Raising the threshold never turns an accept into a reject. */
  lemma QualityMonotone(img: Image, t1: real, t2: real)
    requires t1 <= t2 && QualityCheck(img, t1)
    ensures QualityCheck(img, t2)
  {
  }

  lemma {:induction false} NoZerosInPixel(p: seq<real>)
    requires forall k :: 0 <= k < |p| ==> p[k] != 0.0
    ensures PixelZeros(p) == 0
    decreases |p|
  {
    if |p| > 0 { NoZerosInPixel(p[1..]); }
  }

  lemma {:induction false} NoZerosInRow(row: seq<seq<real>>)
    requires forall j, k :: 0 <= j < |row| && 0 <= k < |row[j]| ==> row[j][k] != 0.0
    ensures RowZeros(row) == 0
    decreases |row|
  {
    if |row| > 0 {
      NoZerosInPixel(row[0]);
      NoZerosInRow(row[1..]);
    }
  }

  lemma {:induction false} NoZeros(img: Image)
    requires forall i, j, k :: 0 <= i < |img| && 0 <= j < |img[i]| && 0 <= k < |img[i][j]| ==> img[i][j][k] != 0.0
    ensures ZeroCount(img) == 0
    decreases |img|
  {
    if |img| > 0 {
      NoZerosInRow(img[0]);
      NoZeros(img[1..]);
    }
  }

  /** An image with no zero entry passes every non-negative threshold. */
  lemma {:induction false} NoZerosAccepted(img: Image, thresh: real)
    requires forall i, j, k :: 0 <= i < |img| && 0 <= j < |img[i]| && 0 <= k < |img[i][j]| ==> img[i][j][k] != 0.0
    requires thresh >= 0.0
    ensures QualityCheck(img, thresh)
  {
    NoZeros(img);
  }

  /** An image of H rows, W pixels each, three channels each, all zero. */
  predicate AllBlank(img: Image, w: nat)
  {
    forall i :: 0 <= i < |img| ==> |img[i]| == w && forall j :: 0 <= j < w ==> img[i][j] == [0.0, 0.0, 0.0]
  }

  lemma {:induction false} BlankRowZeros(row: seq<seq<real>>)
    requires forall j :: 0 <= j < |row| ==> row[j] == [0.0, 0.0, 0.0]
    ensures RowZeros(row) == 3 * |row|
    decreases |row|
  {
    if |row| > 0 {
      var p := row[0];
      assert p == [0.0, 0.0, 0.0];
      assert p[1..] == [0.0, 0.0] && p[1..][1..] == [0.0] && p[1..][1..][1..] == [];
      assert PixelZeros(p[1..][1..][1..]) == 0;
      assert PixelZeros(p[1..][1..]) == 1;
      assert PixelZeros(p[1..]) == 2;
      assert PixelZeros(p) == 3;
      BlankRowZeros(row[1..]);
    }
  }

  lemma {:induction false} BlankZeros(img: Image, w: nat)
    requires AllBlank(img, w)
    ensures ZeroCount(img) == 3 * (|img| * w)
    decreases |img|
  {
    if |img| > 0 {
      BlankRowZeros(img[0]);
      assert AllBlank(img[1..], w);
      BlankZeros(img[1..], w);
      assert 3 * w + 3 * ((|img| - 1) * w) == 3 * (|img| * w);
    }
  }

  lemma ThreeTimesCompare(z: real, n: real, t: real)
    requires n > 0.0 && z == 3.0 * n
    ensures z <= 3.0 * t * n <==> t >= 1.0
  {
    if t >= 1.0 {
      assert 3.0 * t * n - 3.0 * n == 3.0 * n * (t - 1.0);
    } else {
      assert 3.0 * n - 3.0 * t * n == 3.0 * n * (1.0 - t);
    }
  }

  /** A non-empty 3-channel image that is entirely zero is rejected exactly when thresh < 1. */
  lemma {:induction false} AllBlankRejected(img: Image, w: nat, thresh: real)
    requires AllBlank(img, w) && |img| > 0 && w > 0
    ensures !QualityCheck(img, thresh) <==> thresh < 1.0
  {
    BlankZeros(img, w);
    assert |img[0]| == w;
    var n: nat := PixelCount(img);
    assert n == |img| * w;
    assert n > 0 by { PositiveProduct(|img|, w); }
    QualityCheckIff(img, thresh);
    var z := ZeroCount(img);
    assert z == 3 * n;
    ThreeTimesCompare(z as real, n as real, thresh);
  }

  lemma PositiveProduct(a: nat, b: nat)
    requires a > 0 && b > 0
    ensures a * b > 0
  {
  }

  /** An image with no rows is accepted whatever the threshold (no error is raised). */
  lemma EmptyImageAccepted(img: Image, thresh: real)
    requires |img| == 0
    ensures QualityCheck(img, thresh)
  {
  }
}
