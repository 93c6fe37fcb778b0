/** Symmetric int8 quantisation over exact reals. */
module Quantization {

  function Abs(x: real): (r: real)
    ensures r >= 0.0 && (r == x || r == -x)
  {
    if x < 0.0 then -x else x
  }

  /** Round half away from zero. */
  function Round(x: real): int {
    if x >= 0.0 then (x + 0.5).Floor else -((-x + 0.5).Floor)
  }

  function Clamp(q: int): (r: int)
    ensures -127 <= r <= 127
  {
    if q < -127 then -127 else if q > 127 then 127 else q
  }

  function MaxAbs(data: seq<real>): (m: real)
    ensures m >= 0.0
    ensures forall i :: 0 <= i < |data| ==> Abs(data[i]) <= m
  {
    if data == [] then 0.0
    else
      var m := MaxAbs(data[..|data| - 1]);
      if Abs(data[|data| - 1]) > m then Abs(data[|data| - 1]) else m
  }

  /** The fitted scale: the largest value maps to 127. */
  function Fit(data: seq<real>): (scale: real)
    ensures scale > 0.0
  {
    if MaxAbs(data) > 0.0 then MaxAbs(data) / 127.0 else 1.0
  }

  function Encode(x: real, scale: real): int
    requires scale > 0.0
  {
    Clamp(Round(x * (1.0 / scale)))
  }

  function EncodeAll(v: seq<real>, scale: real): (codes: seq<int>)
    requires scale > 0.0
    ensures |codes| == |v| && forall i :: 0 <= i < |v| ==> codes[i] == Encode(v[i], scale)
  {
    seq(|v|, i requires 0 <= i < |v| => Encode(v[i], scale))
  }

  method EncodeSlice(v: seq<real>, scale: real, out: array<int>)
    requires scale > 0.0 && out.Length == |v|
    modifies out
    ensures out[..] == EncodeAll(v, scale)
  {
    var inv := 1.0 / scale;
    var i := 0;
    while i < out.Length
      invariant 0 <= i <= out.Length
      invariant forall j :: 0 <= j < i ==> out[j] == Encode(v[j], scale)
    {
      out[i] := Clamp(Round(v[i] * inv));
      i := i + 1;
    }
  }

  // ---- Sums ----

  function SumI(s: seq<int>): int {
    if s == [] then 0 else SumI(s[..|s| - 1]) + s[|s| - 1]
  }

  function Sum(s: seq<real>): real {
    if s == [] then 0.0 else Sum(s[..|s| - 1]) + s[|s| - 1]
  }

  /** `map` over two zipped slices. */
  function Zip<A, B>(a: seq<A>, b: seq<A>, f: (A, A) -> B): (r: seq<B>)
    requires |a| == |b|
    ensures |r| == |a| && forall i :: 0 <= i < |a| ==> r[i] == f(a[i], b[i])
  {
    seq(|a|, i requires 0 <= i < |a| => f(a[i], b[i]))
  }

  function MulI(a: int, b: int): int { a * b }
  function SquareI(a: int, b: int): int { (a - b) * (a - b) }
  function Mul(a: real, b: real): real { a * b }
  function Square(a: real, b: real): real { (a - b) * (a - b) }

  function DotI8(a: seq<int>, b: seq<int>): int
    requires |a| == |b|
  {
    SumI(Zip(a, b, MulI))
  }

  function SqL2I8(a: seq<int>, b: seq<int>): int
    requires |a| == |b|
  {
    SumI(Zip(a, b, SquareI))
  }

  function Dot(x: seq<real>, y: seq<real>): real
    requires |x| == |y|
  {
    Sum(Zip(x, y, Mul))
  }

  function SqL2(x: seq<real>, y: seq<real>): real
    requires |x| == |y|
  {
    Sum(Zip(x, y, Square))
  }

  // ---- One coordinate ----

  ghost predicate Fits(x: real, scale: real) {
    scale > 0.0 && Abs(x) <= 127.0 * scale
  }

  ghost predicate AllFit(v: seq<real>, scale: real) {
    scale > 0.0 && forall i :: 0 <= i < |v| ==> Fits(v[i], scale)
  }

  lemma {:induction false} RoundIsClose(t: real)
    requires Abs(t) <= 127.0
    ensures Abs(t - Round(t) as real) <= 0.5
    ensures -127 <= Round(t) <= 127
  {
  }

  lemma {:induction false} MulLe(s: real, a: real, b: real)
    requires s >= 0.0 && a <= b
    ensures s * a <= s * b
  {
  }

  lemma {:induction false} MulLt(s: real, a: real, b: real)
    requires s > 0.0 && a < b
    ensures s * a < s * b
  {
  }

  lemma {:induction false} ScaleDown(x: real, scale: real) returns (t: real)
    requires Fits(x, scale)
    ensures t == x * (1.0 / scale) && x == scale * t && Abs(t) <= 127.0
  {
    t := x * (1.0 / scale);
    Reciprocal(x, scale);
    if t > 127.0 {
      MulLt(scale, 127.0, t);
    }
    if t < -127.0 {
      MulLt(scale, t, -127.0);
    }
  }

  lemma {:induction false} Reciprocal(x: real, scale: real)
    requires scale > 0.0
    ensures scale * (x * (1.0 / scale)) == x
  {
    assert scale * (1.0 / scale) == 1.0;
    assert scale * (x * (1.0 / scale)) == x * (scale * (1.0 / scale));
  }

  lemma {:induction false} Distribute(s: real, a: real, b: real)
    ensures s * (a - b) == s * a - s * b
    ensures s * (a + b) == s * a + s * b
  {
  }

  lemma {:induction false} ScaleBound(scale: real, e: real, bound: real)
    requires scale > 0.0 && Abs(e) <= bound
    ensures Abs(scale * e) <= bound * scale
  {
    MulLe(scale, e, bound);
    MulLe(scale, -e, bound);
  }

  lemma {:induction false} ProductBound(a: real, b: real, m: real, n: real)
    requires Abs(a) <= m && Abs(b) <= n
    ensures Abs(Mul(a, b)) <= Mul(m, n)
  {
    AbsProduct(a, b);
    MulLe(Abs(b), Abs(a), m);
    MulLe(m, Abs(b), n);
  }

  lemma {:induction false} AbsProduct(a: real, b: real)
    ensures Abs(a * b) == Abs(b) * Abs(a)
  {
    if a >= 0.0 && b >= 0.0 {
      MulLe(a, 0.0, b);
    } else if a >= 0.0 {
      MulLe(a, b, 0.0);
    } else if b >= 0.0 {
      MulLe(b, a, 0.0);
    } else {
      MulLe(-a, 0.0, -b);
    }
  }

  lemma {:induction false} ProductDifference(x: real, y: real, a: real, b: real)
    ensures Mul(x, y) - Mul(a, b) == Mul(x, y - b) + Mul(x - a, b)
  {
  }

  lemma {:induction false} SquareDifference(u: real, v: real)
    ensures u * u - v * v == (u - v) * (u + v)
  {
  }

  lemma {:induction false} PullOutScale(s: real, q: real, r: real)
    ensures (s * q) * (s * r) == (s * s) * (q * r)
  {
  }

  lemma {:induction false} IntProduct(a: int, b: int)
    ensures (a * b) as real == a as real * b as real
  {
  }

  /** The real value a sum of code products stands for. */
  function Decoded(scale: real, codes: int): real { (scale * scale) * codes as real }

  /** How far one term of the dot product can be off. */
  function DotSlack(scale: real): real { 127.0 * (scale * scale) }

  /** How far one term of the squared distance can be off. */
  function SqSlack(scale: real): real { 508.0 * (scale * scale) }

  lemma {:induction false} HalfProducts(scale: real)
    ensures Mul(127.0 * scale, scale / 2.0) + Mul(scale / 2.0, 127.0 * scale) == DotSlack(scale)
    ensures Mul(scale, 508.0 * scale) == SqSlack(scale)
  {
  }

  /** The coordinate a code stands for. */
  function Value(scale: real, q: int): real { scale * q as real }

  /** What a code promises about the coordinate it stands for. */
  ghost predicate Approximates(x: real, q: int, scale: real) {
    var a := Value(scale, q);
    Abs(x) <= 127.0 * scale && Abs(a) <= 127.0 * scale && Abs(x - a) <= scale / 2.0
  }

  /** Each coordinate is recovered to within half a step. */
  lemma {:induction false} EncodeApproximates(x: real, scale: real)
    requires Fits(x, scale)
    ensures Approximates(x, Encode(x, scale), scale)
  {
    var t := ScaleDown(x, scale);
    RoundIsClose(t);
    CodeApproximates(x, scale, t, Encode(x, scale));
  }

  lemma {:induction false} CodeApproximates(x: real, scale: real, t: real, q: int)
    requires Fits(x, scale) && x == scale * t && Abs(t - q as real) <= 0.5 && -127 <= q <= 127
    ensures Approximates(x, q, scale)
  {
    hide Abs;
    HalfStep(x, scale, t, q as real);
    ScaleBound(scale, q as real, 127.0);
    Restate(x, scale * q as real, scale);
  }

  lemma {:induction false} HalfStep(x: real, scale: real, t: real, y: real)
    requires scale > 0.0 && x == scale * t && Abs(t - y) <= 0.5
    ensures Abs(x - scale * y) <= 0.5 * scale
  {
    hide Abs;
    Distribute(scale, t, y);
    ScaleBound(scale, t - y, 0.5);
  }

  lemma {:induction false} Restate(x: real, a: real, scale: real)
    requires Abs(x - a) <= 0.5 * scale
    ensures Abs(x - a) <= scale / 2.0
  {
    hide Abs;
  }

  lemma {:induction false} DecodeProduct(q: int, r: int, scale: real)
    ensures Mul(Value(scale, q), Value(scale, r)) == Decoded(scale, MulI(q, r))
  {
    IntProduct(q, r);
    PullOutScale(scale, q as real, r as real);
  }

  lemma {:induction false} DotTerm(x: real, y: real, q: int, r: int, scale: real)
    requires scale > 0.0 && Approximates(x, q, scale) && Approximates(y, r, scale)
    ensures Abs(Mul(x, y) - Decoded(scale, MulI(q, r))) <= DotSlack(scale)
  {
    hide Decoded, DotSlack, Mul, MulI, Value;
    TwoFactorBound(x, y, Value(scale, q), Value(scale, r), scale);
    DecodeProduct(q, r, scale);
  }

  lemma {:induction false} TwoFactorBound(x: real, y: real, a: real, b: real, scale: real)
    requires scale > 0.0 && Abs(x) <= 127.0 * scale && Abs(b) <= 127.0 * scale
    requires Abs(x - a) <= scale / 2.0 && Abs(y - b) <= scale / 2.0
    ensures Abs(Mul(x, y) - Mul(a, b)) <= DotSlack(scale)
  {
    hide Mul, DotSlack;
    ProductBound(x, y - b, 127.0 * scale, scale / 2.0);
    ProductBound(x - a, b, scale / 2.0, 127.0 * scale);
    ProductDifference(x, y, a, b);
    HalfProducts(scale);
  }

  lemma {:induction false} DecodeSquare(q: int, r: int, scale: real)
    ensures Square(Value(scale, q), Value(scale, r)) == Decoded(scale, SquareI(q, r))
  {
    Distribute(scale, q as real, r as real);
    DecodeProduct(q - r, q - r, scale);
  }

  lemma {:induction false} SqTerm(x: real, y: real, q: int, r: int, scale: real)
    requires scale > 0.0 && Approximates(x, q, scale) && Approximates(y, r, scale)
    ensures Abs(Square(x, y) - Decoded(scale, SquareI(q, r))) <= SqSlack(scale)
  {
    hide Decoded, SqSlack, Square, SquareI, Value;
    DifferenceBounds(x, y, Value(scale, q), Value(scale, r), scale);
    SquareBound(x, y, Value(scale, q), Value(scale, r), scale);
    DecodeSquare(q, r, scale);
  }

  lemma {:induction false} DifferenceBounds(x: real, y: real, a: real, b: real, scale: real)
    requires Abs(x) <= 127.0 * scale && Abs(y) <= 127.0 * scale
    requires Abs(a) <= 127.0 * scale && Abs(b) <= 127.0 * scale
    requires Abs(x - a) <= scale / 2.0 && Abs(y - b) <= scale / 2.0
    ensures Abs((x - y) - (a - b)) <= scale && Abs((x - y) + (a - b)) <= 508.0 * scale
  {
  }

  lemma {:induction false} SquareBound(x: real, y: real, a: real, b: real, scale: real)
    requires scale > 0.0 && Abs((x - y) - (a - b)) <= scale && Abs((x - y) + (a - b)) <= 508.0 * scale
    ensures Abs(Square(x, y) - Square(a, b)) <= SqSlack(scale)
  {
    var u, v := x - y, a - b;
    SquareDifference(u, v);
    ProductBound(u - v, u + v, scale, 508.0 * scale);
    HalfProducts(scale);
  }

  // ---- Whole vectors ----

  ghost predicate AllApproximate(v: seq<real>, codes: seq<int>, scale: real) {
    |codes| == |v| && forall i :: 0 <= i < |v| ==> Approximates(v[i], codes[i], scale)
  }

  lemma {:induction false} EncodedApproximate(v: seq<real>, scale: real)
    requires AllFit(v, scale)
    ensures AllApproximate(v, EncodeAll(v, scale), scale)
  {
    forall i | 0 <= i < |v| ensures Approximates(v[i], EncodeAll(v, scale)[i], scale) {
      EncodeApproximates(v[i], scale);
    }
  }

  lemma {:induction false} SumError(ps: seq<real>, cs: seq<int>, scale: real, slack: real)
    requires |ps| == |cs|
    requires forall i :: 0 <= i < |ps| ==> Abs(ps[i] - Decoded(scale, cs[i])) <= slack
    ensures Abs(Sum(ps) - Decoded(scale, SumI(cs))) <= Repeat(slack, |ps|)
  {
    hide Decoded;
    if ps == [] {
      DecodedAdds(scale, 0, 0);
    } else {
      var n := |ps| - 1;
      SumError(ps[..n], cs[..n], scale, slack);
      DecodedAdds(scale, SumI(cs[..n]), cs[n]);
    }
  }

  function Repeat(slack: real, n: nat): real {
    if n == 0 then 0.0 else Repeat(slack, n - 1) + slack
  }

  lemma {:induction false} RepeatIsProduct(slack: real, n: nat)
    ensures Repeat(slack, n) == slack * n as real
  {
    if n > 0 {
      RepeatIsProduct(slack, n - 1);
      Distribute(slack, (n - 1) as real, 1.0);
    }
  }

  lemma {:induction false} DecodedAdds(scale: real, a: int, b: int)
    ensures Decoded(scale, a + b) == Decoded(scale, a) + Decoded(scale, b)
  {
    Distribute(scale * scale, a as real, b as real);
  }

  /** The true dot product is within `127 * scale^2` per coordinate of what the codes say. */
  lemma {:induction false} DotError(x: seq<real>, y: seq<real>, scale: real)
    requires |x| == |y| && AllFit(x, scale) && AllFit(y, scale)
    ensures Abs(Dot(x, y) - Decoded(scale, DotI8(EncodeAll(x, scale), EncodeAll(y, scale))))
         <= DotSlack(scale) * |x| as real
  {
    hide Decoded, DotSlack, Encode, Mul, MulI, Sum, SumI, Repeat, Approximates;
    EncodedApproximate(x, scale);
    EncodedApproximate(y, scale);
    var a, b := EncodeAll(x, scale), EncodeAll(y, scale);
    forall i | 0 <= i < |x| ensures Abs(Zip(x, y, Mul)[i] - Decoded(scale, Zip(a, b, MulI)[i])) <= DotSlack(scale) {
      DotTerm(x[i], y[i], a[i], b[i], scale);
    }
    SumError(Zip(x, y, Mul), Zip(a, b, MulI), scale, DotSlack(scale));
    RepeatIsProduct(DotSlack(scale), |x|);
  }

  /** The true squared distance is within `508 * scale^2` per coordinate of what the codes say. */
  lemma {:induction false} SqL2Error(x: seq<real>, y: seq<real>, scale: real)
    requires |x| == |y| && AllFit(x, scale) && AllFit(y, scale)
    ensures Abs(SqL2(x, y) - Decoded(scale, SqL2I8(EncodeAll(x, scale), EncodeAll(y, scale))))
         <= SqSlack(scale) * |x| as real
  {
    hide Decoded, SqSlack, Encode, Square, SquareI, Sum, SumI, Repeat, Approximates;
    EncodedApproximate(x, scale);
    EncodedApproximate(y, scale);
    var a, b := EncodeAll(x, scale), EncodeAll(y, scale);
    forall i | 0 <= i < |x|
      ensures Abs(Zip(x, y, Square)[i] - Decoded(scale, Zip(a, b, SquareI)[i])) <= SqSlack(scale)
    {
      SqTerm(x[i], y[i], a[i], b[i], scale);
    }
    SumError(Zip(x, y, Square), Zip(a, b, SquareI), scale, SqSlack(scale));
    RepeatIsProduct(SqSlack(scale), |x|);
  }

  /** Points whose true dot products differ by more than twice the error are ranked alike by
      their codes. */
  lemma {:induction false} DotNeverInverts(query: seq<real>, near: seq<real>, far: seq<real>, scale: real)
    requires |query| == |near| == |far|
    requires AllFit(query, scale) && AllFit(near, scale) && AllFit(far, scale)
    requires Dot(query, near) - Dot(query, far) > 2.0 * (DotSlack(scale) * |query| as real)
    ensures DotI8(EncodeAll(query, scale), EncodeAll(near, scale)) >
              DotI8(EncodeAll(query, scale), EncodeAll(far, scale))
  {
    hide Decoded, DotSlack, Encode, Dot, DotI8;
    DotError(query, near, scale);
    DotError(query, far, scale);
    Separated(scale, DotI8(EncodeAll(query, scale), EncodeAll(near, scale)),
              DotI8(EncodeAll(query, scale), EncodeAll(far, scale)), Dot(query, near), Dot(query, far),
              DotSlack(scale) * |query| as real);
  }

  lemma {:induction false} SqL2NeverInverts(query: seq<real>, near: seq<real>, far: seq<real>, scale: real)
    requires |query| == |near| == |far|
    requires AllFit(query, scale) && AllFit(near, scale) && AllFit(far, scale)
    requires SqL2(query, far) - SqL2(query, near) > 2.0 * (SqSlack(scale) * |query| as real)
    ensures SqL2I8(EncodeAll(query, scale), EncodeAll(near, scale)) <
              SqL2I8(EncodeAll(query, scale), EncodeAll(far, scale))
  {
    hide Decoded, SqSlack, Encode, SqL2, SqL2I8;
    SqL2Error(query, near, scale);
    SqL2Error(query, far, scale);
    Separated(scale, SqL2I8(EncodeAll(query, scale), EncodeAll(far, scale)),
              SqL2I8(EncodeAll(query, scale), EncodeAll(near, scale)), SqL2(query, far), SqL2(query, near),
              SqSlack(scale) * |query| as real);
  }

  lemma {:induction false} DecodedMonotone(scale: real, a: int, b: int)
    requires scale > 0.0 && a <= b
    ensures Decoded(scale, a) <= Decoded(scale, b)
  {
    MulLt(scale, 0.0, scale);
    MulLe(scale * scale, a as real, b as real);
  }

  lemma {:induction false} Separated(scale: real, a: int, b: int, u: real, v: real, err: real)
    requires scale > 0.0
    requires Abs(u - Decoded(scale, a)) <= err && Abs(v - Decoded(scale, b)) <= err
    requires u - v > 2.0 * err
    ensures a > b
  {
    hide Decoded;
    if a <= b {
      DecodedMonotone(scale, a, b);
    }
  }

  /** Everything stored fits the scale fitted to it. */
  lemma {:induction false} FittedDataFits(data: seq<real>)
    ensures AllFit(data, Fit(data))
  {
  }

  /** Without a gap the codes can rank two stored points the wrong way round. */
  lemma {:induction false} RankingCanInvert()
    ensures var query, a, b := [1.0, 1.0], [0.6, 0.6], [1.4, 0.4];
            var data := [127.0, 0.0] + query + a + b;
            var scale := Fit(data);
            && AllFit(data, scale)
            && Dot(query, a) < Dot(query, b)
            && DotI8(EncodeAll(query, scale), EncodeAll(a, scale)) > DotI8(EncodeAll(query, scale), EncodeAll(b, scale))
  {
    var query, a, b := [1.0, 1.0], [0.6, 0.6], [1.4, 0.4];
    var data := [127.0, 0.0] + query + a + b;
    FittedDataFits(data);
    assert data[0] == 127.0;
    MaxAbsIs(data, 127.0, 0);
    assert Fit(data) == 1.0;
    CodesAtUnitScale();
    assert EncodeAll(query, 1.0) == [1, 1];
    assert EncodeAll(a, 1.0) == [1, 1];
    assert EncodeAll(b, 1.0) == [1, 0];
    DotOfTwo(1.0, 1.0, 0.6, 0.6);
    DotOfTwo(1.0, 1.0, 1.4, 0.4);
    DotI8OfTwo(1, 1, 1, 1);
    DotI8OfTwo(1, 1, 1, 0);
  }

  lemma {:induction false} CodesAtUnitScale()
    ensures Encode(1.0, 1.0) == 1 && Encode(0.6, 1.0) == 1 && Encode(1.4, 1.0) == 1 && Encode(0.4, 1.0) == 0
  {
  }

  lemma {:induction false} DotOfTwo(x: real, y: real, u: real, v: real)
    ensures Dot([x, y], [u, v]) == x * u + y * v
  {
    assert Zip([x, y], [u, v], Mul) == [Mul(x, u), Mul(y, v)];
    SumOfTwo(Mul(x, u), Mul(y, v));
  }

  lemma {:induction false} DotI8OfTwo(x: int, y: int, u: int, v: int)
    ensures DotI8([x, y], [u, v]) == x * u + y * v
  {
    assert Zip([x, y], [u, v], MulI) == [MulI(x, u), MulI(y, v)];
    SumIOfTwo(MulI(x, u), MulI(y, v));
  }

  lemma {:induction false} SumOfTwo(a: real, b: real)
    ensures Sum([a, b]) == a + b
  {
    assert [a, b][..1] == [a] && Sum([a]) == a;
  }

  lemma {:induction false} SumIOfTwo(a: int, b: int)
    ensures SumI([a, b]) == a + b
  {
    assert [a, b][..1] == [a] && SumI([a]) == a;
  }

  lemma {:induction false} MaxAbsIs(data: seq<real>, m: real, at: nat)
    requires at < |data| && Abs(data[at]) == m
    requires forall i :: 0 <= i < |data| ==> Abs(data[i]) <= m
    ensures MaxAbs(data) == m
  {
    MaxAbsAttained(data);
  }

  lemma {:induction false} MaxAbsAttained(data: seq<real>)
    ensures MaxAbs(data) == 0.0 || exists i :: 0 <= i < |data| && Abs(data[i]) == MaxAbs(data)
  {
    if data != [] {
      var front := data[..|data| - 1];
      MaxAbsAttained(front);
      if MaxAbs(front) != 0.0 {
        var i :| 0 <= i < |front| && Abs(front[i]) == MaxAbs(front);
        assert Abs(data[i]) == MaxAbs(front);
      }
      assert Abs(data[|data| - 1]) >= 0.0;
    }
  }

  /** No smaller scale holds the data it was fitted to. */
  lemma {:induction false} FitIsSmallest(data: seq<real>, scale: real)
    requires exists i :: 0 <= i < |data| && data[i] != 0.0
    ensures AllFit(data, scale) <==> scale >= Fit(data)
  {
    var j :| 0 <= j < |data| && data[j] != 0.0;
    assert Abs(data[j]) > 0.0;
    MaxAbsAttained(data);
    var i :| 0 <= i < |data| && Abs(data[i]) == MaxAbs(data);
    assert 127.0 * Fit(data) == MaxAbs(data);
    if AllFit(data, scale) {
      assert Fits(data[i], scale);
    }
  }

  // ---- Exactly when the codes preserve a ranking ----

  /** The stored vector that scores better by the true dot product never scores worse by codes. */
  ghost predicate DotPreserved(dim: nat, scale: real)
    requires scale > 0.0
  {
    forall query: seq<real>, a: seq<real>, b: seq<real> ::
      |query| == |a| == |b| == dim && AllFit(a, scale) && AllFit(b, scale) && Dot(query, a) > Dot(query, b) ==>
        DotI8(EncodeAll(query, scale), EncodeAll(a, scale)) >= DotI8(EncodeAll(query, scale), EncodeAll(b, scale))
  }

  /** The stored vector that is nearer in truth is never farther by codes. */
  ghost predicate SqL2Preserved(dim: nat, scale: real)
    requires scale > 0.0
  {
    forall query: seq<real>, a: seq<real>, b: seq<real> ::
      |query| == |a| == |b| == dim && AllFit(a, scale) && AllFit(b, scale) && SqL2(query, a) < SqL2(query, b) ==>
        SqL2I8(EncodeAll(query, scale), EncodeAll(a, scale)) <= SqL2I8(EncodeAll(query, scale), EncodeAll(b, scale))
  }

  lemma {:induction false} EncodeMonotone(x: real, y: real, scale: real)
    requires scale > 0.0 && x <= y
    ensures Encode(x, scale) <= Encode(y, scale)
    ensures x >= 0.0 ==> Encode(x, scale) >= 0
    ensures y <= 0.0 ==> Encode(y, scale) <= 0
  {
    hide Round, Clamp;
    var u, w := Shrunk(x, y, scale);
    RoundMonotone(u, w);
    ClampMonotone(Round(u), Round(w));
    ClampMonotone(0, Round(u));
    ClampMonotone(Round(w), 0);
  }

  lemma {:induction false} Shrunk(x: real, y: real, scale: real) returns (u: real, w: real)
    requires scale > 0.0 && x <= y
    ensures u == x * (1.0 / scale) && w == y * (1.0 / scale) && u <= w
    ensures (x >= 0.0 ==> u >= 0.0) && (y <= 0.0 ==> w <= 0.0)
  {
    u := Divided(x, scale);
    w := Divided(y, scale);
    if u > w { MulLt(scale, w, u); }
    if u < 0.0 { MulLt(scale, u, 0.0); }
    if w > 0.0 { MulLt(scale, 0.0, w); }
  }

  lemma {:induction false} Divided(x: real, scale: real) returns (t: real)
    requires scale > 0.0
    ensures t == x * (1.0 / scale) && x == scale * t
  {
    t := x * (1.0 / scale);
    Reciprocal(x, scale);
  }

  lemma {:induction false} Commutes(a: real, b: real)
    ensures a * b == b * a && a * 0.0 == 0.0
  {
  }

  lemma {:induction false} ClampMonotone(a: int, b: int)
    ensures a <= b ==> Clamp(a) <= Clamp(b)
    ensures Clamp(0) == 0
  {
  }

  lemma {:induction false} RoundMonotone(x: real, y: real)
    requires x <= y
    ensures Round(x) <= Round(y)
    ensures x >= 0.0 ==> Round(x) >= 0
    ensures y <= 0.0 ==> Round(y) <= 0
  {
  }

  lemma {:induction false} SumOfOne(a: real)
    ensures Sum([a]) == a
  {
    assert [a][..0] == [];
  }

  lemma {:induction false} SumIOfOne(a: int)
    ensures SumI([a]) == a
  {
    assert [a][..0] == [];
  }

  /** Without coordinates all scores are 0, so nothing scores better than anything. */
  lemma {:induction false} EmptyScoresAll()
    ensures forall x: seq<real>, y: seq<real> :: |x| == |y| == 0 ==> Dot(x, y) == 0.0 && SqL2(x, y) == 0.0
  {
  }

  lemma {:induction false} DotOfOne(x: real, y: real)
    ensures Dot([x], [y]) == Mul(x, y)
  {
    assert Zip([x], [y], Mul) == [Mul(x, y)];
    SumOfOne(Mul(x, y));
  }

  lemma {:induction false} DotI8OfOne(x: int, y: int)
    ensures DotI8([x], [y]) == MulI(x, y)
  {
    assert Zip([x], [y], MulI) == [MulI(x, y)];
    SumIOfOne(MulI(x, y));
  }

  lemma {:induction false} MulLeI(s: int, a: int, b: int)
    requires (s >= 0 && a <= b) || (s <= 0 && b <= a)
    ensures s * a <= s * b
  {
  }

  lemma {:induction false} DotPreservedInOne(q: real, a: real, b: real, scale: real)
    requires scale > 0.0 && Mul(q, a) > Mul(q, b)
    ensures MulI(Encode(q, scale), Encode(a, scale)) >= MulI(Encode(q, scale), Encode(b, scale))
  {
    hide Encode;
    EncodeMonotone(q, q, scale);
    if q >= 0.0 {
      if a < b { MulLe(q, a, b); }
      EncodeMonotone(b, a, scale);
    } else {
      if a > b { MulLe(-q, b, a); }
      EncodeMonotone(a, b, scale);
    }
    MulLeI(Encode(q, scale), Encode(b, scale), Encode(a, scale));
  }

  // ---- Padding and scaling a counterexample ----

  lemma {:induction false} EncodeScaled(t: real, scale: real)
    requires scale > 0.0
    ensures Encode(Mul(scale, t), scale) == Clamp(Round(t))
  {
    Reciprocal(t, scale);
    assert scale * (t * (1.0 / scale)) == (scale * t) * (1.0 / scale);
  }

  function Scaled(t: seq<real>, scale: real): (v: seq<real>)
    ensures |v| == |t| && forall i :: 0 <= i < |t| ==> v[i] == Mul(scale, t[i])
  {
    seq(|t|, i requires 0 <= i < |t| => Mul(scale, t[i]))
  }

  /** The same vector followed by zeros. */
  function Padded(v: seq<real>, n: nat): seq<real> {
    v + seq(n, _ => 0.0)
  }

  function PaddedI(v: seq<int>, n: nat): seq<int> {
    v + seq(n, _ => 0)
  }

  lemma {:induction false} PaddedSnoc(v: seq<real>, n: nat)
    ensures Padded(v, n + 1) == Padded(v, n) + [0.0]
  {
  }

  lemma {:induction false} PaddedISnoc(v: seq<int>, n: nat)
    ensures PaddedI(v, n + 1) == PaddedI(v, n) + [0]
  {
  }

  lemma {:induction false} ZipSnoc<A, B>(a: seq<A>, b: seq<A>, x: A, y: A, f: (A, A) -> B)
    requires |a| == |b|
    ensures Zip(a + [x], b + [y], f) == Zip(a, b, f) + [f(x, y)]
  {
  }

  lemma {:induction false} SumSnoc(s: seq<real>, x: real)
    ensures Sum(s + [x]) == Sum(s) + x
  {
    assert (s + [x])[..|s|] == s;
  }

  lemma {:induction false} SumISnoc(s: seq<int>, x: int)
    ensures SumI(s + [x]) == SumI(s) + x
  {
    assert (s + [x])[..|s|] == s;
  }

  /** Zeros add nothing to a score. */
  lemma {:induction false} PadScores(x: seq<real>, y: seq<real>, n: nat)
    requires |x| == |y|
    ensures Dot(Padded(x, n), Padded(y, n)) == Dot(x, y)
    ensures SqL2(Padded(x, n), Padded(y, n)) == SqL2(x, y)
  {
    hide Sum, Padded;
    if n == 0 {
      NothingPadded(x);
      NothingPadded(y);
    } else {
      PadScores(x, y, n - 1);
      var a, b := Padded(x, n - 1), Padded(y, n - 1);
      PaddedLength(x, n - 1);
      PaddedLength(y, n - 1);
      PaddedSnoc(x, n - 1);
      PaddedSnoc(y, n - 1);
      ZipSnoc(a, b, 0.0, 0.0, Mul);
      ZipSnoc(a, b, 0.0, 0.0, Square);
      SumSnoc(Zip(a, b, Mul), 0.0);
      SumSnoc(Zip(a, b, Square), 0.0);
    }
  }

  lemma {:induction false} NothingPadded(v: seq<real>)
    ensures Padded(v, 0) == v
  {
  }

  lemma {:induction false} NothingPaddedI(v: seq<int>)
    ensures PaddedI(v, 0) == v
  {
  }

  lemma {:induction false} PadCodeScores(x: seq<int>, y: seq<int>, n: nat)
    requires |x| == |y|
    ensures DotI8(PaddedI(x, n), PaddedI(y, n)) == DotI8(x, y)
    ensures SqL2I8(PaddedI(x, n), PaddedI(y, n)) == SqL2I8(x, y)
  {
    hide SumI, PaddedI;
    if n == 0 {
      NothingPaddedI(x);
      NothingPaddedI(y);
    } else {
      PadCodeScores(x, y, n - 1);
      var a, b := PaddedI(x, n - 1), PaddedI(y, n - 1);
      PaddedILength(x, n - 1);
      PaddedILength(y, n - 1);
      PaddedISnoc(x, n - 1);
      PaddedISnoc(y, n - 1);
      ZipSnoc(a, b, 0, 0, MulI);
      ZipSnoc(a, b, 0, 0, SquareI);
      SumISnoc(Zip(a, b, MulI), 0);
      SumISnoc(Zip(a, b, SquareI), 0);
    }
  }

  /** The codes of a scaled and padded vector are the rounded coordinates and zeros; it fits. */
  lemma {:induction false} PadCodes(t: seq<real>, scale: real, n: nat, codes: seq<int>)
    requires scale > 0.0 && |codes| == |t|
    requires forall i :: 0 <= i < |t| ==> Abs(t[i]) <= 127.0 && Clamp(Round(t[i])) == codes[i]
    ensures EncodeAll(Padded(Scaled(t, scale), n), scale) == PaddedI(codes, n)
    ensures AllFit(Padded(Scaled(t, scale), n), scale)
  {
    hide Encode, Clamp, Round;
    var v := Padded(Scaled(t, scale), n);
    forall i | 0 <= i < |v| ensures Encode(v[i], scale) == PaddedI(codes, n)[i] && Fits(v[i], scale) {
      if i < |t| {
        assert v[i] == Mul(scale, t[i]);
        EncodeScaled(t[i], scale);
        ScaleBound(scale, t[i], 127.0);
      } else {
        Commutes(scale, 0.0);
        assert v[i] == Mul(scale, 0.0);
        EncodeScaled(0.0, scale);
        ZeroCode();
        ScaleBound(scale, 0.0, 127.0);
      }
    }
  }

  lemma {:induction false} ZeroCode()
    ensures Clamp(Round(0.0)) == 0
  {
  }

  lemma {:induction false} ScaledTwo(x: real, y: real, scale: real)
    ensures Scaled([x, y], scale) == [Mul(scale, x), Mul(scale, y)]
  {
    hide Mul;
  }

  lemma {:induction false} ScaledOne(x: real, scale: real)
    ensures Scaled([x], scale) == [Mul(scale, x)]
  {
    hide Mul;
  }

  lemma {:induction false} Inverting(dim: nat, scale: real)
    requires dim >= 2 && scale > 0.0
    ensures !DotPreserved(dim, scale)
  {
    hide Dot, DotI8, Encode, Clamp, Round, EncodeAll, Padded, PaddedI, Scaled;
    var n := dim - 2;
    var q, a, b := [1.0, 1.0], [1.4, 0.4], [0.6, 0.6];
    RoundedTwo();
    PadCodes(q, scale, n, [1, 1]);
    PadCodes(a, scale, n, [1, 0]);
    PadCodes(b, scale, n, [1, 1]);
    var query, left, right := Padded(Scaled(q, scale), n), Padded(Scaled(a, scale), n), Padded(Scaled(b, scale), n);
    PadScores(Scaled(q, scale), Scaled(a, scale), n);
    PadScores(Scaled(q, scale), Scaled(b, scale), n);
    PadCodeScores([1, 1], [1, 0], n);
    PadCodeScores([1, 1], [1, 1], n);
    DotI8OfTwo(1, 1, 1, 0);
    DotI8OfTwo(1, 1, 1, 1);
    TrueDots(scale);
    PaddedLength(Scaled(q, scale), n);
    PaddedLength(Scaled(a, scale), n);
    PaddedLength(Scaled(b, scale), n);
  }

  lemma {:induction false} PaddedILength(v: seq<int>, n: nat)
    ensures |PaddedI(v, n)| == |v| + n
  {
  }

  lemma {:induction false} PaddedLength(v: seq<real>, n: nat)
    ensures |Padded(v, n)| == |v| + n
  {
  }

  lemma {:induction false} RoundedTwo()
    ensures Clamp(Round(1.0)) == 1 && Clamp(Round(1.4)) == 1 && Clamp(Round(0.4)) == 0 && Clamp(Round(0.6)) == 1
    ensures Abs(1.0) <= 127.0 && Abs(1.4) <= 127.0 && Abs(0.4) <= 127.0 && Abs(0.6) <= 127.0
  {
  }

  lemma {:induction false} TrueDots(scale: real)
    requires scale > 0.0
    ensures Dot(Scaled([1.0, 1.0], scale), Scaled([1.4, 0.4], scale)) >
              Dot(Scaled([1.0, 1.0], scale), Scaled([0.6, 0.6], scale))
  {
    hide Dot;
    ScaledTwo(1.0, 1.0, scale);
    ScaledTwo(1.4, 0.4, scale);
    ScaledTwo(0.6, 0.6, scale);
    BetterDot(Mul(scale, 1.0), Mul(scale, 1.4), Mul(scale, 0.4), Mul(scale, 0.6));
  }

  lemma {:induction false} BetterDot(u: real, p: real, q: real, r: real)
    requires u > 0.0 && p + q > r + r
    ensures Dot([u, u], [p, q]) > Dot([u, u], [r, r])
  {
    hide Dot;
    DotOfTwo(u, u, p, q);
    DotOfTwo(u, u, r, r);
    TwoTerms(u, p, q, r, r);
  }

  lemma {:induction false} TwoTerms(u: real, a: real, b: real, x: real, y: real)
    requires u > 0.0 && a + b > x + y
    ensures u * a + u * b > u * x + u * y
  {
    MulLt(u, x + y, a + b);
    Distribute(u, a, b);
    Distribute(u, x, y);
  }

  /** The documented "ranking is preserved" holds of the dot product exactly up to dimension 1,
      whatever the scale. */
  lemma {:induction false} DotPreservedIff(dim: nat, scale: real)
    requires scale > 0.0
    ensures DotPreserved(dim, scale) <==> dim <= 1
  {
    hide Dot, DotI8, Encode, Zip, Sum, Mul, MulI;
    EmptyScoresAll();
    if dim >= 2 {
      Inverting(dim, scale);
    } else {
      forall query: seq<real>, a: seq<real>, b: seq<real>
        | |query| == |a| == |b| == dim && AllFit(a, scale) && AllFit(b, scale) && Dot(query, a) > Dot(query, b)
        ensures DotI8(EncodeAll(query, scale), EncodeAll(a, scale)) >=
                  DotI8(EncodeAll(query, scale), EncodeAll(b, scale))
      {
        if dim == 1 {
          assert query == [query[0]] && a == [a[0]] && b == [b[0]];
          DotOfOne(query[0], a[0]);
          DotOfOne(query[0], b[0]);
          DotPreservedInOne(query[0], a[0], b[0], scale);
          OneCode(query[0], scale);
          OneCode(a[0], scale);
          OneCode(b[0], scale);
          DotI8OfOne(Encode(query[0], scale), Encode(a[0], scale));
          DotI8OfOne(Encode(query[0], scale), Encode(b[0], scale));
        }
      }
    }
  }

  lemma {:induction false} OneCode(x: real, scale: real)
    requires scale > 0.0
    ensures EncodeAll([x], scale) == [Encode(x, scale)]
  {
  }

  /** Of squared distance it holds in no dimension but 0: 0.49 is nearer to 1.5 than to -0.6, and
      its code is farther. */
  lemma {:induction false} SqL2PreservedIff(dim: nat, scale: real)
    requires scale > 0.0
    ensures SqL2Preserved(dim, scale) <==> dim == 0
  {
    hide SqL2, SqL2I8, Encode, Zip, Sum;
    EmptyScoresAll();
    if dim == 0 {
      assert SqL2Preserved(dim, scale);
    } else {
      SqL2Inverting(dim, scale);
    }
  }

  lemma {:induction false} SqL2Inverting(dim: nat, scale: real)
    requires dim >= 1 && scale > 0.0
    ensures !SqL2Preserved(dim, scale)
  {
    hide SqL2, SqL2I8, Encode, EncodeAll, Clamp, Round, Padded, PaddedI, Scaled, AllFit, SqL2Preserved;
    var n := dim - 1;
    var q, a, b := Scaled([0.49], scale), Scaled([1.5], scale), Scaled([-0.6], scale);
    RoundedOne();
    PadCodes([0.49], scale, n, [0]);
    PadCodes([1.5], scale, n, [2]);
    PadCodes([-0.6], scale, n, [-1]);
    PadScores(q, a, n);
    PadScores(q, b, n);
    PadCodeScores([0], [2], n);
    PadCodeScores([0], [-1], n);
    SqL2I8OfOne(0, 2);
    SqL2I8OfOne(0, -1);
    TrueDistances(scale);
    PaddedLength(q, n);
    PaddedLength(a, n);
    PaddedLength(b, n);
    SqL2Witness(dim, scale, Padded(q, n), Padded(a, n), Padded(b, n));
  }

  lemma {:induction false} SqL2Witness(dim: nat, scale: real, query: seq<real>, near: seq<real>, far: seq<real>)
    requires scale > 0.0 && |query| == |near| == |far| == dim && AllFit(near, scale) && AllFit(far, scale)
    requires SqL2(query, near) < SqL2(query, far)
    requires SqL2I8(EncodeAll(query, scale), EncodeAll(near, scale)) >
               SqL2I8(EncodeAll(query, scale), EncodeAll(far, scale))
    ensures !SqL2Preserved(dim, scale)
  {
    hide SqL2, SqL2I8, EncodeAll, AllFit;
  }

  lemma {:induction false} RoundedOne()
    ensures Clamp(Round(0.49)) == 0 && Clamp(Round(1.5)) == 2 && Clamp(Round(-0.6)) == -1
    ensures Abs(0.49) <= 127.0 && Abs(1.5) <= 127.0 && Abs(-0.6) <= 127.0
  {
  }

  lemma {:induction false} SqL2OfOne(x: real, y: real)
    ensures SqL2([x], [y]) == (x - y) * (x - y)
  {
    assert Zip([x], [y], Square) == [Square(x, y)];
    SumOfOne(Square(x, y));
  }

  lemma {:induction false} SqL2I8OfOne(x: int, y: int)
    ensures SqL2I8([x], [y]) == (x - y) * (x - y)
  {
    assert Zip([x], [y], SquareI) == [SquareI(x, y)];
    SumIOfOne(SquareI(x, y));
  }

  lemma {:induction false} TrueDistances(scale: real)
    requires scale > 0.0
    ensures SqL2(Scaled([0.49], scale), Scaled([1.5], scale)) < SqL2(Scaled([0.49], scale), Scaled([-0.6], scale))
  {
    hide SqL2;
    ScaledOne(0.49, scale);
    ScaledOne(1.5, scale);
    ScaledOne(-0.6, scale);
    SqL2OfOne(Mul(scale, 0.49), Mul(scale, 1.5));
    SqL2OfOne(Mul(scale, 0.49), Mul(scale, -0.6));
    SquareLt(Mul(scale, 1.5) - Mul(scale, 0.49), Mul(scale, 0.49) - Mul(scale, -0.6));
    SquareFlips(Mul(scale, 0.49), Mul(scale, 1.5));
  }

  lemma {:induction false} SquareLt(p: real, q: real)
    requires 0.0 < p < q
    ensures p * p < q * q
  {
    MulLt(p, p, q);
    MulLt(q, p, q);
  }

  lemma {:induction false} SquareFlips(x: real, y: real)
    ensures (x - y) * (x - y) == (y - x) * (y - x)
  {
  }

  // ---- The 32-bit accumulators ----

  ghost predicate Codes(a: seq<int>) {
    forall i :: 0 <= i < |a| ==> -127 <= a[i] <= 127
  }

  ghost predicate InI32(x: int) {
    -0x8000_0000 <= x <= 0x7FFF_FFFF
  }

  lemma {:induction false} SumIBounds(s: seq<int>, lo: int, hi: int)
    requires forall i :: 0 <= i < |s| ==> lo <= s[i] <= hi
    ensures lo * |s| <= SumI(s) <= hi * |s|
  {
    if s != [] {
      SumIBounds(s[..|s| - 1], lo, hi);
    }
  }

  lemma {:induction false} SumBounds(a: seq<int>, b: seq<int>)
    requires |a| == |b| && Codes(a) && Codes(b)
    ensures -16129 * |a| <= DotI8(a, b) <= 16129 * |a|
    ensures 0 <= SqL2I8(a, b) <= 64516 * |a|
  {
    forall i | 0 <= i < |a| ensures -16129 <= Zip(a, b, MulI)[i] <= 16129 && 0 <= Zip(a, b, SquareI)[i] <= 64516 {
      CodeProduct(a[i], b[i]);
    }
    SumIBounds(Zip(a, b, MulI), -16129, 16129);
    SumIBounds(Zip(a, b, SquareI), 0, 64516);
  }

  lemma {:induction false} CodeProduct(x: int, y: int)
    requires -127 <= x <= 127 && -127 <= y <= 127
    ensures -16129 <= x * y <= 16129
    ensures 0 <= (x - y) * (x - y) <= 64516
  {
    IntProductBound(x, y, 127);
    IntProductBound(x - y, x - y, 254);
    IntSquare(x - y);
  }

  lemma {:induction false} IntSquare(x: int)
    ensures x * x >= 0
  {
  }

  lemma {:induction false} IntProductBound(x: int, y: int, m: int)
    requires -m <= x <= m && -m <= y <= m
    ensures -(m * m) <= x * y <= m * m
  {
    assert (m - x) * (m + y) >= 0 && (m + x) * (m - y) >= 0;
    assert (m - x) * (m - y) >= 0 && (m + x) * (m + y) >= 0;
  }

  lemma {:induction false} WorstCase(dim: nat)
    ensures SqL2I8(seq(dim, _ => 127), seq(dim, _ => -127)) == 64516 * dim
  {
    SumIBounds(Zip(seq(dim, _ => 127), seq(dim, _ => -127), SquareI), 64516, 64516);
  }

  ghost predicate SumsFit(dim: nat) {
    forall a: seq<int>, b: seq<int> :: |a| == |b| == dim && Codes(a) && Codes(b) ==>
      InI32(DotI8(a, b)) && InI32(SqL2I8(a, b))
  }

  /** Both accumulators stay in range exactly up to this dimension. */
  lemma {:induction false} AccumulatorsFit(dim: nat)
    ensures SumsFit(dim) <==> dim <= 33286
  {
    if dim <= 33286 {
      forall a: seq<int>, b: seq<int> | |a| == |b| == dim && Codes(a) && Codes(b)
        ensures InI32(DotI8(a, b)) && InI32(SqL2I8(a, b))
      {
        SumBounds(a, b);
      }
    } else {
      WorstCase(dim);
      var a, b := seq(dim, _ => 127), seq(dim, _ => -127);
      assert Codes(a) && Codes(b) && !InI32(SqL2I8(a, b));
    }
  }
}
