/**
 * The workload: the integral of x^2, one trapezoid loop per task and one sum over all
 * tasks, in exact real arithmetic.
 */
module Integral {

  datatype TaskData = TaskData(start: real, end: real, step: real)

  /** `func`. */
  function Func(x: real): real {
    x * x
  }

  /** The exact integral of Func from a to b. */
  function Exact(a: real, b: real): real {
    (b * b * b - a * a * a) / 3.0
  }

  /** The error of the trapezoid rule with step d over a width it divides. */
  function TrapezoidError(width: real, d: real): real {
    width * d * d / 6.0
  }

  /** The largest value of Func between a and b. */
  function Largest(a: real, b: real): real {
    if Func(a) < Func(b) then Func(b) else Func(a)
  }

  /** What k trapezoids of width d can add when all but one end of them is cut off. */
  function CutOff(k: nat, d: real, largest: real): real {
    k as real * (d * largest)
  }

  // ---------- arithmetic ----------

  lemma ProductPositive(x: real, y: real)
    requires x > 0.0 && y > 0.0
    ensures x * y > 0.0
  {
  }

  lemma ProductMonotone(x: real, y: real, z: real)
    requires x <= y && 0.0 <= z
    ensures x * z <= y * z
  {
    assert (y - x) * z >= 0.0;
  }

  lemma Cancel(x: real, y: real, d: real)
    requires x * d == y * d && d > 0.0
    ensures x == y
  {
    if x < y {
      ProductPositive(y - x, d);
    } else if y < x {
      ProductPositive(x - y, d);
    }
  }

  lemma ExactSplit(a: real, b: real, c: real)
    ensures Exact(a, c) == Exact(a, b) + Exact(b, c) && Exact(a, a) == 0.0
  {
  }

  lemma ErrorSplit(v: real, w: real, d: real)
    ensures TrapezoidError(v + w, d) == TrapezoidError(v, d) + TrapezoidError(w, d)
    ensures TrapezoidError(0.0, d) == 0.0
  {
    assert (v + w) * d == v * d + w * d;
    assert (v * d + w * d) * d == v * d * d + w * d * d;
  }

  lemma ErrorPositive(w: real, d: real)
    requires w >= 0.0 && d >= 0.0
    ensures TrapezoidError(w, d) >= 0.0
  {
    assert w * d >= 0.0;
  }

  lemma CutOffStep(k: nat, d: real, m: real)
    ensures CutOff(k + 1, d, m) == CutOff(k, d, m) + d * m && CutOff(0, d, m) == 0.0 && CutOff(1, d, m) == d * m
  {
    var v := d * m;
    assert (k + 1) as real == k as real + 1.0;
  }

  lemma SquareMonotone(x: real, y: real)
    requires 0.0 <= x <= y
    ensures 0.0 <= x * x <= y * y
  {
    ProductMonotone(0.0, x, x);
    ProductMonotone(x, y, x);
    ProductMonotone(x, y, y);
    assert x * y == y * x;
  }

  /** A square on an interval is largest at an end of it. */
  lemma LargestAtEnds(a: real, p: real, b: real)
    requires a <= p <= b
    ensures 0.0 <= Func(p) <= Largest(a, b)
  {
    if p >= 0.0 {
      SquareMonotone(p, b);
    } else {
      SquareMonotone(-p, -a);
      assert (-p) * (-p) == p * p && (-a) * (-a) == a * a;
    }
  }

  // ---------- one task ----------

  /** How many steps of width d lie between x and end. */
  function StepsLeft(x: real, end: real, d: real): real
    requires d > 0.0
  {
    (end - x) / d
  }

  lemma OneStepLess(x: real, end: real, d: real)
    requires d > 0.0
    ensures StepsLeft(x + d, end, d) == StepsLeft(x, end, d) - 1.0
    ensures x < end ==> StepsLeft(x, end, d) > 0.0
  {
    var q, r := (end - x) / d, (end - (x + d)) / d;
    assert q * d == end - x && r * d == end - (x + d);
    assert (q - 1.0) * d == q * d - d;
    Cancel(r, q - 1.0, d);
    if x < end && q <= 0.0 {
      ProductMonotone(q, 0.0, d);
    }
  }

  /** What the loop adds up: the values at x, x + d, ... strictly below end, times d. */
  function InnerSum(x: real, end: real, d: real): real
    requires d > 0.0
    decreases StepsLeft(x, end, d)
  {
    OneStepLess(x, end, d);
    if x < end then Func(x) * d + InnerSum(x + d, end, d) else 0.0
  }

  /** The points from p to the end: inner points in full, the two ends by half. */
  function Rest(p: real, end: real, d: real): real
    requires d > 0.0
  {
    InnerSum(p + d, end, d) + Func(p) * d / 2.0 + Func(end) * d / 2.0
  }

  /** The value a task returns. */
  function Quadrature(t: TaskData): real
    requires t.step > 0.0
  {
    Rest(t.start, t.end, t.step)
  }

  /** `integral_thread`. The loop reaches the end, whatever the step. */
  method IntegralThread(t: TaskData) returns (sum: real)
    requires t.step > 0.0
    ensures sum == Quadrature(t)
  {
    hide Func, StepsLeft;
    var start, end, delta := t.start, t.end, t.step;
    sum := 0.0;
    var x := start + delta;
    while x < end
      invariant sum + InnerSum(x, end, delta) == InnerSum(start + delta, end, delta)
      decreases StepsLeft(x, end, delta)
    {
      OneStepLess(x, end, delta);
      sum := sum + Func(x) * delta;
      x := x + delta;
    }
    sum := sum + Func(start) * delta / 2.0;
    sum := sum + Func(end) * delta / 2.0;
  }

  // ---------- the error of one task ----------

  /** A full trapezoid of width d overshoots by exactly d^3/6. */
  lemma Trapezoid(p: real, d: real)
    ensures (Func(p) + Func(p + d)) * d / 2.0 == Exact(p, p + d) + TrapezoidError(d, d)
  {
    var x := p + d;
    assert x * x == p * p + 2.0 * p * d + d * d;
    assert x * x * x == p * p * p + 3.0 * (p * p * d) + 3.0 * (p * d * d) + d * d * d;
  }

  /** Weighting a sum of two values with d instead of h. */
  lemma CutOffWeight(s: real, h: real, d: real, m: real)
    requires 0.0 <= s <= 2.0 * m && 0.0 <= h <= d
    ensures s * h <= s * d <= s * h + 2.0 * (d * m)
  {
    var rest := s * (d - h);
    assert s * d == s * h + rest;
    ProductMonotone(0.0, s, d - h);
    ProductMonotone(s, 2.0 * m, d - h);
    ProductMonotone(d - h, d, 2.0 * m);
  }

  lemma ErrorMonotone(h: real, d: real)
    requires 0.0 <= h <= d
    ensures 0.0 <= TrapezoidError(h, h) <= TrapezoidError(h, d)
  {
    ErrorPositive(h, h);
    ProductMonotone(h, d, h);
    ProductMonotone(0.0, h, h);
    ProductMonotone(h * h, h * d, h);
    ProductMonotone(h, d, h * d);
    assert h * h * h <= h * d * h && h * (h * d) <= d * (h * d);
  }

  /** The last trapezoid, cut off at the end but weighted with the full step. */
  lemma LastPiece(p: real, end: real, d: real, m: real)
    requires p <= end <= p + d && d > 0.0
    requires 0.0 <= Func(p) <= m && 0.0 <= Func(end) <= m
    ensures var v := (Func(p) + Func(end)) * d / 2.0;
      Exact(p, end) <= v <= Exact(p, end) + TrapezoidError(end - p, d) + d * m
  {
    hide Func, Exact, TrapezoidError;
    var h := end - p;
    assert p + h == end;
    Trapezoid(p, h);
    CutOffWeight(Func(p) + Func(end), h, d, m);
    ErrorMonotone(h, d);
  }

  lemma RestStep(p: real, end: real, d: real)
    requires d > 0.0 && p + d < end
    ensures Rest(p, end, d) == Rest(p + d, end, d) + Exact(p, p + d) + TrapezoidError(d, d)
  {
    Trapezoid(p, d);
    hide Exact, TrapezoidError, Func, StepsLeft;
    assert (Func(p) + Func(p + d)) * d == Func(p) * d + Func(p + d) * d;
  }

  lemma RestLast(p: real, end: real, d: real)
    requires d > 0.0 && p + d >= end
    ensures Rest(p, end, d) == (Func(p) + Func(end)) * d / 2.0
  {
    hide Func, StepsLeft;
    assert (Func(p) + Func(end)) * d == Func(p) * d + Func(end) * d;
  }

  lemma {:induction false} RestBound(a: real, b: real, p: real, end: real, d: real)
    requires d > 0.0 && a <= p <= end <= b
    ensures Exact(p, end) <= Rest(p, end, d)
    ensures Rest(p, end, d) <= Exact(p, end) + TrapezoidError(end - p, d) + d * Largest(a, b)
    decreases StepsLeft(p, end, d)
  {
    hide Func, Exact, TrapezoidError, Largest, Rest, StepsLeft;
    if p + d < end {
      OneStepLess(p, end, d);
      RestBound(a, b, p + d, end, d);
      RestStep(p, end, d);
      ExactSplit(p, p + d, end);
      ErrorSplit(d, end - (p + d), d);
      assert d + (end - (p + d)) == end - p;
      ErrorPositive(d, d);
    } else {
      LargestAtEnds(a, p, b);
      LargestAtEnds(a, end, b);
      LastPiece(p, end, d, Largest(a, b));
      RestLast(p, end, d);
    }
  }

  /** The value a task returns is never below the integral, and above it by no more than the
      trapezoid error plus what the last, cut-off trapezoid can contribute. */
  lemma IntegralBound(a: real, b: real, d: real)
    requires a <= b && d > 0.0
    ensures Exact(a, b) <= Quadrature(TaskData(a, b, d))
    ensures Quadrature(TaskData(a, b, d)) <= Exact(a, b) + TrapezoidError(b - a, d) + d * Largest(a, b)
  {
    hide Func, Exact, TrapezoidError, Largest, Rest;
    RestBound(a, b, a, b, d);
  }

  lemma StepsAdd(n: nat, d: real)
    requires d > 0.0 && n > 0
    ensures n as real * d == (n - 1) as real * d + d
    ensures n > 1 ==> (n - 1) as real * d > 0.0
  {
    var m := (n - 1) as real;
    assert n as real == m + 1.0;
    if n > 1 {
      ProductPositive(m, d);
    }
  }

  /** When the step divides the interval, the trapezoid error is all there is. */
  lemma {:induction false} IntegralExact(a: real, b: real, d: real, n: nat)
    requires d > 0.0 && n > 0 && b == a + n as real * d
    ensures Quadrature(TaskData(a, b, d)) == Exact(a, b) + TrapezoidError(b - a, d)
    decreases n
  {
    hide Func, Exact, TrapezoidError, InnerSum, Rest;
    StepsAdd(n, d);
    if n == 1 {
      Trapezoid(a, d);
      RestLast(a, b, d);
    } else {
      IntegralExact(a + d, b, d, n - 1);
      RestStep(a, b, d);
      ExactSplit(a, a + d, b);
      ErrorSplit(d, b - (a + d), d);
      assert d + (b - (a + d)) == b - a;
    }
  }

  // ---------- the same in numbers ----------

  /** The n-th point after a in steps of d. */
  function Point(a: real, d: real, n: nat): real {
    a + n as real * d
  }

  lemma PointSteps(a: real, d: real, n: nat)
    requires d > 0.0
    ensures Point(a, d, 0) == a && Point(a, d, n + 1) == Point(a, d, n) + d && Point(a + d, d, n) == Point(a, d, n + 1)
    ensures a <= Point(a, d, n)
  {
    StepsAdd(n + 1, d);
    ProductMonotone(0.0, n as real, d);
  }

  /** The values at the first n points after a. */
  function Samples(a: real, d: real, n: nat): real {
    if n == 0 then 0.0 else Samples(a, d, n - 1) + Func(Point(a, d, n))
  }

  lemma {:induction false} SamplesShift(a: real, d: real, n: nat)
    requires d > 0.0 && n > 0
    ensures Samples(a, d, n) == Func(a + d) + Samples(a + d, d, n - 1)
    decreases n
  {
    hide Func, Point;
    PointSteps(a, d, n - 1);
    if n > 1 {
      SamplesShift(a, d, n - 1);
    } else {
      PointSteps(a, d, 0);
      assert Samples(a, d, 1) == Samples(a, d, 0) + Func(Point(a, d, 1));
    }
  }

  lemma {:induction false} InnerSamples(a: real, b: real, d: real, n: nat)
    requires d > 0.0 && b <= Point(a, d, n + 1) && (n > 0 ==> Point(a, d, n) < b)
    ensures InnerSum(a + d, b, d) == Samples(a, d, n) * d
    decreases n
  {
    hide StepsLeft, Func, Point, Samples;
    PointSteps(a, d, n);
    if n == 0 {
      NoSamples(a, d);
    } else {
      PointSteps(a, d, n - 1);
      PointSteps(a + d, d, n - 1);
      PointSteps(a, d, 0);
      InnerSamples(a + d, b, d, n - 1);
      SamplesShift(a, d, n);
      Distribute(Func(a + d), Samples(a + d, d, n - 1), d);
    }
  }

  lemma NoSamples(a: real, d: real)
    ensures Samples(a, d, 0) * d == 0.0
  {
  }

  lemma Distribute(x: real, y: real, d: real)
    ensures (x + y) * d == x * d + y * d
  {
  }

  /** Every interval has a last step that stays below its end. */
  lemma {:induction false} LastStep(a: real, b: real, d: real) returns (n: nat)
    requires d > 0.0
    ensures b <= Point(a, d, n + 1) && (n > 0 ==> Point(a, d, n) < b)
    decreases StepsLeft(a, b, d)
  {
    hide StepsLeft, Point;
    OneStepLess(a, b, d);
    PointSteps(a, d, 0);
    if b <= a + d {
      n := 0;
    } else {
      LargerSteps(a, b, d);
      n := LastStep(a + d, b, d);
      PointSteps(a, d, n + 1);
      PointSteps(a, d, n);
      n := n + 1;
    }
  }

  lemma LargerSteps(a: real, b: real, d: real)
    requires d > 0.0 && a + d < b
    ensures StepsLeft(a, b, d) > 1.0
  {
    OneStepLess(a, b, d);
    OneStepLess(a + d, b, d);
  }

  /** What a task returns, point by point: with n the last step that stays below b, the values
      at a + d, ..., a + n d in full and those at a and b by half, all weighted with d. */
  lemma PointByPoint(a: real, b: real, d: real, n: nat)
    requires d > 0.0 && b <= a + (n + 1) as real * d && (n > 0 ==> a + n as real * d < b)
    ensures Quadrature(TaskData(a, b, d)) == Samples(a, d, n) * d + Func(a) * d / 2.0 + Func(b) * d / 2.0
  {
    hide StepsLeft, InnerSum, Samples, Func;
    InnerSamples(a, b, d, n);
  }

  /** The bounds in numbers: (b^3 - a^3)/3 is the integral of x^2 from a to b. */
  lemma BoundsInNumbers(a: real, b: real, d: real)
    requires a <= b && d > 0.0
    ensures var s, exact := Quadrature(TaskData(a, b, d)), (b * b * b - a * a * a) / 3.0;
      && exact <= s
      && (a * a <= b * b ==> s <= exact + (b - a) * d * d / 6.0 + d * (b * b))
      && (a * a >= b * b ==> s <= exact + (b - a) * d * d / 6.0 + d * (a * a))
  {
    hide Rest, Quadrature, Exact, TrapezoidError, Largest;
    IntegralBound(a, b, d);
    InNumbers(a, b, d);
  }

  // ---------- the server's side ----------

  /** Where the i-th of n equal parts of the interval begins. */
  function Knot(a: real, b: real, n: nat, i: nat): real
    requires n > 0
  {
    a + i as real * ((b - a) / n as real)
  }

  function Tile(a: real, b: real, d: real, n: nat, i: nat): TaskData
    requires n > 0
  {
    TaskData(Knot(a, b, n, i), Knot(a, b, n, i + 1), d)
  }

  function Tiles(a: real, b: real, d: real, n: nat): seq<TaskData>
    requires n > 0
  {
    seq(n, i requires 0 <= i < n => Tile(a, b, d, n, i))
  }

  lemma KnotEnds(a: real, b: real, n: nat)
    requires n > 0
    ensures Knot(a, b, n, 0) == a && Knot(a, b, n, n) == b
  {
    var m := n as real;
    assert m * ((b - a) / m) == b - a;
  }

  /** Every part has the same width. */
  lemma EqualPart(a: real, b: real, d: real, n: nat, i: nat)
    requires n > 0 && i < n
    ensures var t := Tiles(a, b, d, n)[i]; n as real * (t.end - t.start) == b - a && t.step == d
  {
    var m, width := n as real, (b - a) / n as real;
    assert m * width == b - a;
    assert (i + 1) as real * width == i as real * width + width;
  }

  lemma TileAt(a: real, b: real, d: real, n: nat)
    requires n > 0
    ensures |Tiles(a, b, d, n)| == n && forall i :: 0 <= i < n ==> Tiles(a, b, d, n)[i] == Tile(a, b, d, n, i)
  {
  }

  /** The parts are equally wide and join end to end, from a to b. */
  lemma EqualParts(a: real, b: real, d: real, n: nat)
    requires n > 0
    ensures var ts := Tiles(a, b, d, n);
      && |ts| == n && ts[0].start == a && ts[n - 1].end == b
      && (forall i :: 0 <= i < n ==> n as real * (ts[i].end - ts[i].start) == b - a && ts[i].step == d)
      && (forall i :: 0 <= i < n - 1 ==> ts[i].end == ts[i + 1].start)
  {
    hide Knot;
    KnotEnds(a, b, n);
    forall i | 0 <= i < n ensures n as real * (Tiles(a, b, d, n)[i].end - Tiles(a, b, d, n)[i].start) == b - a {
      EqualPart(a, b, d, n, i);
    }
  }

  /** `main` before the computation: the task buffer is filled with the parts. */
  method FillTasks(buff: array<TaskData>, a: real, b: real, d: real)
    requires buff.Length > 0
    modifies buff
    ensures buff[..] == Tiles(a, b, d, buff.Length)
    ensures buff[0].start == a && buff[buff.Length - 1].end == b
    ensures forall i :: 0 <= i < buff.Length ==> buff.Length as real * (buff[i].end - buff[i].start) == b - a && buff[i].step == d
    ensures forall i :: 0 <= i < buff.Length - 1 ==> buff[i].end == buff[i + 1].start
  {
    var width := (b - a) / buff.Length as real;
    for i := 0 to buff.Length
      invariant forall k :: 0 <= k < i ==> buff[k] == Tile(a, b, d, buff.Length, k)
    {
      buff[i] := TaskData(a + i as real * width, a + (i + 1) as real * width, d);
      assert buff[i] == Tile(a, b, d, buff.Length, i);
      hide Knot;
    }
    hide Tile, Tiles;
    assert buff[..] == Tiles(a, b, d, buff.Length) by { TileAt(a, b, d, buff.Length); }
    EqualParts(a, b, d, buff.Length);
    assert forall i :: 0 <= i < buff.Length ==> buff[i] == buff[..][i];
  }

  /** The parts begin at a, end at b, and never step back. */
  lemma KnotsSpan(a: real, b: real, n: nat, i: nat)
    requires n > 0 && a <= b && i < n
    ensures Knot(a, b, n, 0) == a && Knot(a, b, n, n) == b
    ensures a <= Knot(a, b, n, i) <= Knot(a, b, n, i + 1) <= b
  {
    KnotEnds(a, b, n);
    var m := n as real;
    var width := (b - a) / m;
    assert m * width == b - a;
    if width < 0.0 {
      ProductPositive(m, -width);
    }
    ProductMonotone(0.0, i as real, width);
    ProductMonotone(i as real, (i + 1) as real, width);
    ProductMonotone((i + 1) as real, m, width);
  }

  /** The tasks lie end to end, are equally wide, and cover the interval exactly. */
  lemma TilesCover(a: real, b: real, d: real, n: nat)
    requires n > 0 && a <= b
    ensures var ts := Tiles(a, b, d, n);
      && ts[0].start == a && ts[n - 1].end == b
      && (forall i :: 0 <= i && i + 1 < n ==> ts[i].end == ts[i + 1].start)
      && (forall i :: 0 <= i < n ==> a <= ts[i].start <= ts[i].end <= b && ts[i].step == d)
      && (forall i :: 0 <= i < n ==> n as real * (ts[i].end - ts[i].start) == b - a)
  {
    hide Knot;
    var ts := Tiles(a, b, d, n);
    KnotsSpan(a, b, n, 0);
    EqualParts(a, b, d, n);
    forall i | 0 <= i < n ensures a <= ts[i].start <= ts[i].end <= b && ts[i].step == d {
      KnotsSpan(a, b, n, i);
    }
  }

  function Sum(values: seq<real>): real {
    if values == [] then 0.0 else Sum(values[..|values| - 1]) + values[|values| - 1]
  }

  /** `main` after the computation: the results are added up. */
  method AddResults(values: array<real>) returns (result: real)
    ensures result == Sum(values[..])
  {
    result := 0.0;
    for i := 0 to values.Length
      invariant result == Sum(values[..i])
    {
      assert values[..i + 1][..i] == values[..i];
      result := result + values[i];
    }
    assert values[..values.Length] == values[..];
  }

  lemma {:induction false} PartialSumBound(a: real, b: real, d: real, n: nat, k: nat, values: seq<real>)
    requires n > 0 && a <= b && d > 0.0 && k <= n && |values| == k
    requires forall i :: 0 <= i < k ==> values[i] == Quadrature(Tile(a, b, d, n, i))
    ensures var reach := Knot(a, b, n, k);
      Exact(a, reach) <= Sum(values) <= Exact(a, reach) + TrapezoidError(reach - a, d) + CutOff(k, d, Largest(a, b))
  {
    hide Func, Exact, TrapezoidError, Largest, Rest, CutOff, Knot;
    if k == 0 {
      KnotsSpan(a, b, n, 0);
      ExactSplit(a, a, a);
      ErrorSplit(0.0, 0.0, d);
      CutOffStep(0, d, Largest(a, b));
    } else {
      var p, q := Knot(a, b, n, k - 1), Knot(a, b, n, k);
      PartialSumBound(a, b, d, n, k - 1, values[..k - 1]);
      KnotsSpan(a, b, n, k - 1);
      RestBound(a, b, p, q, d);
      assert values[k - 1] == Rest(p, q, d);
      ExactSplit(a, p, q);
      ErrorSplit(p - a, q - p, d);
      assert (p - a) + (q - p) == q - a;
      CutOffStep(k - 1, d, Largest(a, b));
    }
  }

  /** The sum over all tasks is within the trapezoid error, plus one cut-off trapezoid a task,
      above the integral over the whole interval, and never below it. */
  lemma TotalBound(a: real, b: real, d: real, n: nat, values: seq<real>)
    requires n > 0 && a <= b && d > 0.0 && |values| == n
    requires forall i :: 0 <= i < n ==> values[i] == Quadrature(Tile(a, b, d, n, i))
    ensures Exact(a, b) <= Sum(values)
    ensures Sum(values) <= Exact(a, b) + TrapezoidError(b - a, d) + CutOff(n, d, Largest(a, b))
  {
    hide Func, Exact, TrapezoidError, Largest, Rest, CutOff, Knot, Sum, Quadrature;
    PartialSumBound(a, b, d, n, n, values);
    KnotsSpan(a, b, n, 0);
  }

  /** The same in numbers, for an interval right of zero as the program uses it. */
  lemma TotalInNumbers(a: real, b: real, d: real, n: nat, values: seq<real>)
    requires n > 0 && 0.0 <= a <= b && d > 0.0 && |values| == n
    requires forall i :: 0 <= i < n ==> values[i] == Quadrature(Tiles(a, b, d, n)[i])
    ensures var exact := (b * b * b - a * a * a) / 3.0;
      exact <= Sum(values) <= exact + (b - a) * d * d / 6.0 + n as real * (d * (b * b))
  {
    hide Rest, Knot, Sum, Quadrature, Exact, TrapezoidError, CutOff, Largest, Tiles, Tile;
    TileAt(a, b, d, n);
    TotalBound(a, b, d, n, values);
    InNumbers(a, b, d);
    CutOffRightOfZero(a, b, d, n);
  }

  lemma CutOffRightOfZero(a: real, b: real, d: real, n: nat)
    requires 0.0 <= a <= b
    ensures CutOff(n, d, Largest(a, b)) == n as real * (d * (b * b))
  {
    SquareMonotone(a, b);
  }

  lemma InNumbers(a: real, b: real, d: real)
    ensures Exact(a, b) == (b * b * b - a * a * a) / 3.0
    ensures TrapezoidError(b - a, d) == (b - a) * d * d / 6.0
    ensures a * a <= b * b ==> Largest(a, b) == b * b
    ensures a * a >= b * b ==> Largest(a, b) == a * a
  {
  }
}
