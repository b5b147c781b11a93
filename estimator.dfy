/** The Monte Carlo estimator of a single worker (src/PiEstimator.js).

    Random draws come in as a parameter: `draws[2 * i]` and `draws[2 * i + 1]`
    are the two `Math.random()` results that give point `i`. Arithmetic is
    exact (reals), with NaN and the infinities kept for the degenerate
    settings `n <= 0` and `circleDiameter == 0`. */
module Estimator {
  import opened ExtendedReals
  import opened Sequences

  datatype Point = Point(x: int, y: int)

  const GridsizeKey: string := "gridsize"
  const DiameterKey: string := "circleDiameter"
  const PointsKey: string := "n"
  /** Not read by the estimator itself; the coordinator's `iterations`
      setting travels in the same settings map. */
  const IterationsKey: string := "iterations"

  /** `defaultArgs` of the constructor. */
  function Defaults(): map<string, int>
  {
    map[GridsizeKey := 1000, DiameterKey := 900, PointsKey := 100, IterationsKey := 10]
  }

  /** `{...defaultArgs, ...props}`: every key of `props` overrides its default,
      keys missing from `props` keep their default, and unknown keys of
      `props` are carried along. */
  function Merge(props: map<string, int>): (settings: map<string, int>)
    ensures settings.Keys == Defaults().Keys + props.Keys
    ensures forall k :: k in props ==> settings[k] == props[k]
    ensures forall k :: k in Defaults() && k !in props ==> settings[k] == Defaults()[k]
  {
    Defaults() + props
  }

  ghost predicate HasSettings(settings: map<string, int>)
  {
    GridsizeKey in settings && DiameterKey in settings && PointsKey in settings
  }

  function Max0(n: int): nat
  {
    if n < 0 then 0 else n
  }

  // ---------------------------------------------------------------------
  // Points

  /** `Math.floor(r * gridsize)`. */
  function Cell(r: real, gridsize: int): int
  {
    (r * gridsize as real).Floor
  }

  /** A draw in [0, 1) lands on a cell in [0, gridsize). */
  lemma CellOnGrid(r: real, gridsize: int)
    requires 0.0 <= r < 1.0 && gridsize > 0
    ensures 0 <= Cell(r, gridsize) < gridsize
  {
    var g := gridsize as real;
    assert 0.0 <= r * g < g;
  }

  predicate OnGrid(gridsize: int, p: Point)
  {
    0 <= p.x < gridsize && 0 <= p.y < gridsize
  }

  /** The points that `generateRandomPoints` builds from the draws, in order. */
  function DrawnPoints(gridsize: int, n: int, draws: seq<real>): (points: seq<Point>)
    requires 2 * n <= |draws|
    ensures |points| == Max0(n)
  {
    seq(Max0(n), i requires 0 <= i < Max0(n) => Point(Cell(draws[2 * i], gridsize), Cell(draws[2 * i + 1], gridsize)))
  }

  lemma DrawnPointsOnGrid(gridsize: int, n: int, draws: seq<real>)
    requires 2 * n <= |draws| && gridsize > 0
    requires forall j :: 0 <= j < |draws| ==> 0.0 <= draws[j] < 1.0
    ensures forall i :: 0 <= i < Max0(n) ==> OnGrid(gridsize, DrawnPoints(gridsize, n, draws)[i])
  {
    forall i | 0 <= i < Max0(n)
      ensures OnGrid(gridsize, DrawnPoints(gridsize, n, draws)[i])
    {
      CellOnGrid(draws[2 * i], gridsize);
      CellOnGrid(draws[2 * i + 1], gridsize);
    }
  }

  // ---------------------------------------------------------------------
  // The hit test and the count

  /** `Math.sqrt((x - centre)^2 + (y - centre)^2) <= radius` in exact
      arithmetic, with `centre = gridsize * 0.5` and `radius = circleDiameter * 0.5`.
      A square root is never negative, so the test holds exactly when the
      radius is non-negative and the squared distance is at most the squared
      radius; that is the form written here. */
  predicate InCircle(gridsize: int, diameter: int, p: Point)
  {
    var centre := gridsize as real * 0.5;
    var radius := diameter as real * 0.5;
    var dx := p.x as real - centre;
    var dy := p.y as real - centre;
    0.0 <= radius && dx * dx + dy * dy <= radius * radius
  }

  /** On integer points the inclusive hit test is the integer inequality
      (2x - g)^2 + (2y - g)^2 <= d^2 with d >= 0. */
  lemma InCircleInteger(gridsize: int, diameter: int, p: Point)
    ensures InCircle(gridsize, diameter, p)
        <==> 0 <= diameter && (2 * p.x - gridsize) * (2 * p.x - gridsize) + (2 * p.y - gridsize) * (2 * p.y - gridsize) <= diameter * diameter
  {
    var ax := 2 * p.x - gridsize;
    var ay := 2 * p.y - gridsize;
    var dx := p.x as real - gridsize as real * 0.5;
    var dy := p.y as real - gridsize as real * 0.5;
    var radius := diameter as real * 0.5;
    assert dx == ax as real * 0.5;
    assert dy == ay as real * 0.5;
    assert dx * dx + dy * dy == (ax * ax + ay * ay) as real * 0.25;
    assert radius * radius == (diameter * diameter) as real * 0.25;
  }

  /** The number of points that pass the hit test. */
  function CountInside(gridsize: int, diameter: int, points: seq<Point>): (count: nat)
    ensures count <= |points|
  {
    if points == [] then 0
    else
      var last := points[|points| - 1];
      CountInside(gridsize, diameter, points[..|points| - 1]) + Hit(gridsize, diameter, last)
  }

  function Hit(gridsize: int, diameter: int, p: Point): nat
  {
    if InCircle(gridsize, diameter, p) then 1 else 0
  }

  /** Taking out the point at `i` lowers the count by that point's hit. */
  lemma {:induction false} CountInsideRemoveAt(gridsize: int, diameter: int, s: seq<Point>, i: nat)
    requires i < |s|
    ensures CountInside(gridsize, diameter, s) == CountInside(gridsize, diameter, s[..i] + s[i + 1..]) + Hit(gridsize, diameter, s[i])
  {
    var last := |s| - 1;
    if i == last {
      assert s[..i] + s[i + 1..] == s[..last];
    } else {
      var t := s[..last];
      assert t[i] == s[i];
      CountInsideRemoveAt(gridsize, diameter, t, i);
      var rest := t[..i] + t[i + 1..];
      assert (rest + [s[last]])[..|rest|] == rest;
      assert rest + [s[last]] == s[..i] + s[i + 1..];
    }
  }

  /** The count depends only on the multiset of points, not on their order:
      the loop only increments a counter. */
  lemma {:induction false} CountInsidePermutation(gridsize: int, diameter: int, a: seq<Point>, b: seq<Point>)
    requires multiset(a) == multiset(b)
    ensures CountInside(gridsize, diameter, a) == CountInside(gridsize, diameter, b)
  {
    if b != [] {
      var i := RemoveLast(a, b);
      CountInsidePermutation(gridsize, diameter, a[..i] + a[i + 1..], b[..|b| - 1]);
      CountInsideRemoveAt(gridsize, diameter, a, i);
    } else {
      assert |a| == |multiset(a)|;
    }
  }

  // ---------------------------------------------------------------------
  // The arithmetic pipeline

  /** `x * x` as a real, as `Math.pow(x, 2)` computes it in exact arithmetic. */
  function Square(x: int): (r: real)
    ensures r >= 0.0
    ensures x != 0 ==> r > 0.0
  {
    var a := x as real;
    if a < 0.0 then (-a) * (-a) else a * a
  }

  lemma QuotientIntro(x: real, y: real, z: real)
    requires y != 0.0 && x * y == z
    ensures x == z / y
  {
  }

  /** `count / points.length * 100`. */
  function Percentage(count: nat, len: nat): (p: Num)
    requires count <= len
    ensures len == 0 ==> p.NaN?
    ensures len > 0 ==> p.Finite? && 0.0 <= p.value <= 100.0 && p.value * len as real == 100.0 * count as real
  {
    Mul(Div(Finite(count as real), len as real), 100.0)
  }

  /** `estimateAreaOfCircle`: `percentage / 100 * gridsize * gridsize`. */
  function EstimateAreaOfCircle(gridsize: int, percentage: Num): (area: Num)
    ensures percentage.Finite? <==> area.Finite?
    ensures percentage.NaN? ==> area.NaN?
    ensures percentage.Finite? ==> area.value * 100.0 == percentage.value * Square(gridsize)
    ensures percentage.Finite? && 0.0 <= percentage.value <= 100.0 ==> 0.0 <= area.value <= Square(gridsize)
  {
    var g := gridsize as real;
    var area := Mul(Mul(Div(percentage, 100.0), g), g);
    if percentage.Finite? then
      ScaledArea(percentage.value, percentage.value / 100.0, g, area.value);
      area
    else area
  }

  /** a = p / 100 * g * g, in the two forms the contract above needs. */
  lemma ScaledArea(p: real, q: real, g: real, a: real)
    requires q * 100.0 == p && a == q * g * g
    ensures a * 100.0 == p * (g * g)
    ensures 0.0 <= p <= 100.0 ==> 0.0 <= a <= g * g
  {
    var G := g * g;
    assert G >= 0.0 by {
      if g < 0.0 {
        assert G == (-g) * (-g);
      }
    }
    assert a == q * G;
    if 0.0 <= p <= 100.0 {
      assert 0.0 <= q <= 1.0;
      assert G - a == (1.0 - q) * G;
    }
  }

  /** `estimatePiFromArea`: the area divided by the squared radius
      `Math.pow(circleDiameter * 0.5, 2)`. */
  function EstimatePiFromArea(diameter: int, area: Num): (pi: Num)
    ensures diameter != 0 ==> (pi.Finite? <==> area.Finite?)
    ensures diameter != 0 && area.Finite? ==> pi.value * Square(diameter) == 4.0 * area.value
    ensures diameter != 0 && area.Finite? && area.value >= 0.0 ==> pi.value >= 0.0
    ensures diameter == 0 && area == Finite(0.0) ==> pi.NaN?
    ensures diameter == 0 && area.Finite? && area.value > 0.0 ==> pi.PosInf?
    ensures area.NaN? ==> pi.NaN?
  {
    var radius := diameter as real * 0.5;
    assert radius * radius * 4.0 == Square(diameter);
    Div(area, radius * radius)
  }

  /** The composition in `estimatePi`, given the count and the number of points. */
  function Pipeline(gridsize: int, diameter: int, count: nat, len: nat): Num
    requires count <= len
  {
    EstimatePiFromArea(diameter, EstimateAreaOfCircle(gridsize, Percentage(count, len)))
  }

  /** The three steps chained: p * n = 100 c, 100 a = p G and pi D = 4 a
      give pi = 4 c G / (n D). */
  lemma ChainSteps(c: real, n: real, G: real, D: real, p: real, a: real, pi: real)
    requires n > 0.0 && D > 0.0
    requires p * n == 100.0 * c
    requires a * 100.0 == p * G
    requires pi * D == 4.0 * a
    ensures pi == 4.0 * c * G / (n * D)
  {
    calc {
      100.0 * (pi * (n * D));
      100.0 * n * (pi * D);
      100.0 * n * (4.0 * a);
      4.0 * n * (a * 100.0);
      4.0 * n * (p * G);
      4.0 * G * (p * n);
      4.0 * G * (100.0 * c);
      100.0 * (4.0 * c * G);
    }
    assert n * D > 0.0;
    QuotientIntro(pi, n * D, 4.0 * c * G);
  }

  /** The closed form of the estimate: 4 * count * g^2 / (n * d^2). */
  lemma ClosedForm(gridsize: int, diameter: int, count: nat, len: nat)
    requires count <= len && len > 0 && diameter != 0
    ensures Pipeline(gridsize, diameter, count, len)
         == Finite(4.0 * count as real * Square(gridsize) / (len as real * Square(diameter)))
  {
    Simplify(count as real, len as real, Square(gridsize), Square(diameter),
             100.0 * count as real / len as real, 100.0 * count as real / len as real * Square(gridsize) / 100.0);
    StepwiseValue(gridsize, diameter, count, len);
  }

  /** The estimate as the three steps compute it. */
  lemma StepwiseValue(gridsize: int, diameter: int, count: nat, len: nat)
    requires count <= len && len > 0 && diameter != 0
    ensures Pipeline(gridsize, diameter, count, len)
         == Finite(4.0 * (100.0 * count as real / len as real * Square(gridsize) / 100.0) / Square(diameter))
  {
    PercentageValue(count, len, 100.0 * count as real / len as real);
    AreaValue(gridsize, 100.0 * count as real / len as real, 100.0 * count as real / len as real * Square(gridsize) / 100.0);
    PiValue(diameter, 100.0 * count as real / len as real * Square(gridsize) / 100.0,
            4.0 * (100.0 * count as real / len as real * Square(gridsize) / 100.0) / Square(diameter));
    PipelineOfSteps(gridsize, diameter, count, len, 100.0 * count as real / len as real,
                    100.0 * count as real / len as real * Square(gridsize) / 100.0,
                    4.0 * (100.0 * count as real / len as real * Square(gridsize) / 100.0) / Square(diameter));
  }

  /** The composition, given the value of each step. */
  lemma PipelineOfSteps(gridsize: int, diameter: int, count: nat, len: nat, p: real, a: real, pi: real)
    requires count <= len
    requires Percentage(count, len) == Finite(p)
    requires EstimateAreaOfCircle(gridsize, Finite(p)) == Finite(a)
    requires EstimatePiFromArea(diameter, Finite(a)) == Finite(pi)
    ensures Pipeline(gridsize, diameter, count, len) == Finite(pi)
  {
  }

  /** p = 100 c / n and a = p G / 100 give 4 a / D = 4 c G / (n D). */
  lemma Simplify(c: real, n: real, G: real, D: real, p: real, a: real)
    requires n > 0.0 && D > 0.0
    requires p == 100.0 * c / n && a == p * G / 100.0
    ensures 4.0 * a / D == 4.0 * c * G / (n * D)
  {
    assert p * n == 100.0 * c;
    assert a * 100.0 == p * G;
    var pi := 4.0 * a / D;
    assert pi * D == 4.0 * a;
    ChainSteps(c, n, G, D, p, a, pi);
  }

  lemma SameQuotient(v: real, q: real, y: real, z: real)
    requires y != 0.0 && v * y == z && q == z / y
    ensures v == q
  {
    QuotientIntro(v, y, z);
  }

  lemma PercentageValue(count: nat, len: nat, p: real)
    requires count <= len && len > 0 && p == 100.0 * count as real / len as real
    ensures Percentage(count, len) == Finite(p)
  {
    SameQuotient(Percentage(count, len).value, p, len as real, 100.0 * count as real);
  }

  lemma AreaValue(gridsize: int, percentage: real, a: real)
    requires a == percentage * Square(gridsize) / 100.0
    ensures EstimateAreaOfCircle(gridsize, Finite(percentage)) == Finite(a)
  {
    var area := EstimateAreaOfCircle(gridsize, Finite(percentage));
    SameQuotient(area.value, a, 100.0, percentage * Square(gridsize));
  }

  lemma PiValue(diameter: int, area: real, pi: real)
    requires diameter != 0 && pi == 4.0 * area / Square(diameter)
    ensures EstimatePiFromArea(diameter, Finite(area)) == Finite(pi)
  {
    SameQuotient(EstimatePiFromArea(diameter, Finite(area)).value, pi, Square(diameter), 4.0 * area);
  }

  lemma CancelCommonFactor(c: real, n: real, G: real)
    requires n > 0.0 && G > 0.0
    ensures 4.0 * c * G / (n * G) == 4.0 * c / n
  {
    var q := 4.0 * c / n;
    assert q * n == 4.0 * c;
    assert q * (n * G) == 4.0 * c * G;
    assert n * G > 0.0;
    QuotientIntro(q, n * G, 4.0 * c * G);
  }

  /** With a circle as wide as the grid the estimate is 4 * count / n. */
  lemma ClosedFormFullCircle(gridsize: int, count: nat, len: nat)
    requires count <= len && len > 0 && gridsize != 0
    ensures Pipeline(gridsize, gridsize, count, len) == Finite(4.0 * count as real / len as real)
  {
    ClosedForm(gridsize, gridsize, count, len);
    CancelCommonFactor(count as real, len as real, Square(gridsize));
  }

  lemma BoundFromSteps(pi: real, D: real, a: real, G: real)
    requires D > 0.0 && 0.0 <= a <= G && pi * D == 4.0 * a
    ensures 0.0 <= pi <= 4.0 * G / D
    ensures a == 0.0 ==> pi == 0.0
  {
    var bound := 4.0 * G / D;
    assert bound * D == 4.0 * G;
    assert (bound - pi) * D == 4.0 * (G - a);
  }

  /** The estimate is a finite number in [0, 4 g^2 / d^2], and no hit at all
      gives exactly 0: a valid result, not an error. */
  lemma EstimateBounds(gridsize: int, diameter: int, count: nat, len: nat)
    requires count <= len && len > 0 && diameter != 0
    ensures Pipeline(gridsize, diameter, count, len).Finite?
    ensures 0.0 <= Pipeline(gridsize, diameter, count, len).value <= 4.0 * Square(gridsize) / Square(diameter)
    ensures count == 0 ==> Pipeline(gridsize, diameter, count, len) == Finite(0.0)
  {
    var p := Percentage(count, len);
    var area := EstimateAreaOfCircle(gridsize, p);
    var pi := EstimatePiFromArea(diameter, area);
    BoundFromSteps(pi.value, Square(diameter), area.value, Square(gridsize));
    if count == 0 {
      ClosedForm(gridsize, diameter, count, len);
    }
  }

  /** With no points the percentage is 0/0, so the estimate is NaN. */
  lemma NoPointsIsNaN(gridsize: int, diameter: int)
    ensures Pipeline(gridsize, diameter, 0, 0).NaN?
  {
  }

  /** A zero diameter divides by zero: NaN when the area estimate is 0,
      Infinity otherwise. */
  lemma ZeroDiameter(gridsize: int, count: nat, len: nat)
    requires count <= len && len > 0
    ensures count == 0 || gridsize == 0 ==> Pipeline(gridsize, 0, count, len).NaN?
    ensures count > 0 && gridsize != 0 ==> Pipeline(gridsize, 0, count, len).PosInf?
  {
    var p := Percentage(count, len).value;
    var area := EstimateAreaOfCircle(gridsize, Percentage(count, len)).value;
    var G := Square(gridsize);
    assert area * 100.0 == p * G;
    assert p * len as real == 100.0 * count as real;
    if count > 0 && gridsize != 0 {
        assert p > 0.0;
      assert p * G > 0.0;
    } else if count == 0 {
      assert p == 0.0;
    } else {
      assert G == 0.0;
    }
  }

  lemma DefaultSettingsArithmetic(c: real, n: real, G: real, D: real)
    requires c == 78.0 && n == 100.0 && G == 1000000.0 && D == 810000.0
    ensures 4.0 * c * G / (n * D) == 104.0 / 27.0
  {
    assert 4.0 * c * G == 312000000.0;
    assert n * D == 81000000.0;
  }

  /** 78 hits out of 100 on the default grid and circle give 104/27 (about 3.8519). */
  lemma DefaultSettingsExample()
    ensures Pipeline(1000, 900, 78, 100) == Finite(104.0 / 27.0)
  {
    ClosedForm(1000, 900, 78, 100);
    DefaultSettingsArithmetic(78.0, 100.0, Square(1000), Square(900));
  }

  /** 79 hits out of 100 with a circle as wide as the grid give 3.16. */
  lemma FullCircleExample()
    ensures Pipeline(1000, 1000, 79, 100) == Finite(3.16)
  {
    ClosedFormFullCircle(1000, 79, 100);
    assert 4.0 * 79.0 / 100.0 == 3.16;
  }

  // ---------------------------------------------------------------------
  // The estimator object

  class PiEstimator {
    const settings: map<string, int>

    /** `this.settings = {...defaultArgs, ...props}`. */
    constructor(props: map<string, int>)
      ensures settings == Merge(props)
      ensures Valid()
    {
      settings := Merge(props);
    }

    ghost predicate Valid()
    {
      HasSettings(settings)
    }

    function Gridsize(): int
      requires Valid()
    {
      settings[GridsizeKey]
    }

    function Diameter(): int
      requires Valid()
    {
      settings[DiameterKey]
    }

    function N(): int
      requires Valid()
    {
      settings[PointsKey]
    }

    /** `generateRandomPoints`: `n` points, one per pair of draws. */
    method GenerateRandomPoints(draws: seq<real>) returns (points: seq<Point>)
      requires Valid() && 2 * N() <= |draws|
      ensures points == DrawnPoints(Gridsize(), N(), draws)
      ensures |points| == Max0(N())
      ensures Gridsize() > 0 && (forall j :: 0 <= j < |draws| ==> 0.0 <= draws[j] < 1.0)
              ==> forall i :: 0 <= i < |points| ==> OnGrid(Gridsize(), points[i])
    {
      points := [];
      var index := 0;
      while index < N()
        invariant 0 <= index <= Max0(N())
        invariant |points| == index
        invariant forall i :: 0 <= i < index ==> points[i] == DrawnPoints(Gridsize(), N(), draws)[i]
      {
        var point := Point(Cell(draws[2 * index], Gridsize()), Cell(draws[2 * index + 1], Gridsize()));
        points := points + [point];
        index := index + 1;
      }
      if Gridsize() > 0 && (forall j :: 0 <= j < |draws| ==> 0.0 <= draws[j] < 1.0) {
        DrawnPointsOnGrid(Gridsize(), N(), draws);
      }
    }

    /** `inCirclePercentage`: the share of the points that pass the hit test,
        as a percentage; NaN for no points. */
    method InCirclePercentage(points: seq<Point>) returns (percentage: Num)
      requires Valid()
      ensures percentage == Percentage(CountInside(Gridsize(), Diameter(), points), |points|)
      ensures |points| == 0 ==> percentage.NaN?
      ensures |points| > 0 ==> percentage.Finite? && 0.0 <= percentage.value <= 100.0
    {
      var count: nat := 0;
      for i := 0 to |points|
        invariant count == CountInside(Gridsize(), Diameter(), points[..i])
      {
        assert points[..i + 1][..i] == points[..i];
        if InCircle(Gridsize(), Diameter(), points[i]) {
          count := count + 1;
        }
      }
      assert points[..|points|] == points;
      percentage := Percentage(count, |points|);
    }

    /** `estimatePi`: draw the points, count the hits and convert the
        percentage to an area and the area to an estimate of Pi. */
    method EstimatePi(draws: seq<real>) returns (pi: Num)
      requires Valid() && 2 * N() <= |draws|
      ensures var points := DrawnPoints(Gridsize(), N(), draws);
              pi == Pipeline(Gridsize(), Diameter(), CountInside(Gridsize(), Diameter(), points), |points|)
      ensures N() <= 0 ==> pi.NaN?
    {
      var points := GenerateRandomPoints(draws);
      var percentage := InCirclePercentage(points);
      var circleAreaEstimate := EstimateAreaOfCircle(Gridsize(), percentage);
      pi := EstimatePiFromArea(Diameter(), circleAreaEstimate);
      if N() <= 0 {
        NoPointsIsNaN(Gridsize(), Diameter());
      }
    }
  }
}
