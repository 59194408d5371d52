/** The vector side of a store: the stored bytes, the inner product and the norm check.

    Bytes hold 32-bit patterns; sums are over exact reals.
 */
module Vectors {
  import opened Reals
  import opened Wrappers

  const DIMENSIONS := 1024
  const WORD_BYTES := 4
  const NORM_TOLERANCE := 0.001

  type Byte = x: int | 0 <= x < 256
  type Word = x: int | 0 <= x < 0x1_0000_0000

  // ----- Bytes -----

  /** The four bytes of a pattern, least significant first. */
  function WordBytes(w: Word): seq<Byte> {
    [w % 256, w / 256 % 256, w / 65536 % 256, w / 16777216]
  }

  function BytesWord(b: seq<Byte>): Word
    requires |b| == WORD_BYTES
  {
    (b[0] as int) + 256 * (b[1] as int) + 65536 * (b[2] as int) + 16777216 * (b[3] as int)
  }

  function BytesOf(v: seq<Word>): (b: seq<Byte>)
    ensures |b| == WORD_BYTES * |v|
  {
    if v == [] then [] else BytesOf(v[..|v| - 1]) + WordBytes(v[|v| - 1])
  }

  lemma {:induction false} WordRoundTrip(w: Word, b: seq<Byte>)
    requires |b| == WORD_BYTES
    ensures BytesWord(WordBytes(w)) == w
    ensures WordBytes(BytesWord(b)) == b
  {
    SplitWord(w);
    JoinWord(b[0], b[1], b[2], b[3]);
    var c := WordBytes(BytesWord(b));
    assert c[0] == b[0] && c[1] == b[1] && c[2] == b[2] && c[3] == b[3];
    assert c == b;
  }

  lemma {:induction false} SplitWord(w: int)
    requires 0 <= w
    ensures w % 256 + 256 * (w / 256 % 256) + 65536 * (w / 65536 % 256) + 16777216 * (w / 16777216) == w
  {
    assert w / 65536 == w / 256 / 256;
    assert w / 16777216 == w / 65536 / 256;
  }

  lemma {:induction false} JoinWord(a: int, b: int, c: int, d: int)
    requires 0 <= a < 256 && 0 <= b < 256 && 0 <= c < 256 && 0 <= d < 256
    ensures var w := a + 256 * b + 65536 * c + 16777216 * d;
            w % 256 == a && w / 256 % 256 == b && w / 65536 % 256 == c && w / 16777216 == d
  {
    var w := a + 256 * b + 65536 * c + 16777216 * d;
    assert w / 256 == b + 256 * c + 65536 * d;
    assert w / 65536 == c + 256 * d;
  }

  /** Each vector has its own bytes. */
  lemma {:induction false} BytesAreInjective(v: seq<Word>, w: seq<Word>)
    requires BytesOf(v) == BytesOf(w)
    ensures v == w
  {
    if v != [] {
      var n := |v| - 1;
      assert BytesOf(v)[..4 * n] == BytesOf(v[..n]) && BytesOf(w)[..4 * n] == BytesOf(w[..n]);
      BytesAreInjective(v[..n], w[..n]);
      assert BytesOf(v)[4 * n..] == WordBytes(v[n]) && BytesOf(w)[4 * n..] == WordBytes(w[n]);
      WordRoundTrip(v[n], WordBytes(v[n]));
      WordRoundTrip(w[n], WordBytes(w[n]));
      assert v == v[..n] + [v[n]] && w == w[..n] + [w[n]];
    }
  }

  /** The patterns that bytes stand for. */
  function WordsOf(b: seq<Byte>): (v: seq<Word>)
    requires |b| % WORD_BYTES == 0
    ensures BytesOf(v) == b && WORD_BYTES * |v| == |b|
  {
    if b == [] then []
    else
      var n := |b| - WORD_BYTES;
      var w := BytesWord(b[n..]);
      WordRoundTrip(w, b[n..]);
      var v := WordsOf(b[..n]) + [w];
      assert v[..|v| - 1] == WordsOf(b[..n]);
      v
  }

  /** Decoding gives back what was encoded. */
  lemma {:induction false} WordsOfBytes(v: seq<Word>)
    ensures WordsOf(BytesOf(v)) == v
  {
    BytesAreInjective(WordsOf(BytesOf(v)), v);
  }

  lemma {:induction false} BytesAt(v: seq<Word>, i: nat)
    requires i < |v|
    ensures BytesOf(v)[WORD_BYTES * i..WORD_BYTES * i + WORD_BYTES] == WordBytes(v[i])
  {
    var n := |v| - 1;
    if i < n {
      BytesAt(v[..n], i);
      assert BytesOf(v)[4 * i..4 * i + 4] == BytesOf(v[..n])[4 * i..4 * i + 4];
    }
  }

  /** Component i is stored in bytes 4i to 4i + 3, the lowest byte first. */
  lemma {:induction false} BytesAreLittleEndian(v: seq<Word>, i: nat)
    requires i < |v|
    ensures var b := BytesOf(v);
            && |b| == 4 * |v|
            && v[i] == (b[4 * i] as int) + 256 * (b[4 * i + 1] as int) + 65536 * (b[4 * i + 2] as int) + 16777216 * (b[4 * i + 3] as int)
  {
    BytesAt(v, i);
    var b := BytesOf(v)[WORD_BYTES * i..WORD_BYTES * i + WORD_BYTES];
    assert forall j | 0 <= j < 4 :: b[j] == BytesOf(v)[4 * i + j];
    hide BytesOf;
    SplitWord(v[i]);
  }

  method EncodeVector(v: seq<Word>) returns (buf: array<Byte>)
    ensures fresh(buf) && buf[..] == BytesOf(v)
  {
    buf := new Byte[|v| * WORD_BYTES];
    for i := 0 to |v|
      invariant buf[..WORD_BYTES * i] == BytesOf(v[..i])
    {
      ghost var done := buf[..WORD_BYTES * i];
      var w := v[i];
      buf[4 * i] := w % 256;
      buf[4 * i + 1] := w / 256 % 256;
      buf[4 * i + 2] := w / 65536 % 256;
      buf[4 * i + 3] := w / 16777216;
      assert v[..i + 1][..i] == v[..i];
      assert buf[..4 * (i + 1)] == done + WordBytes(w);
    }
    assert v[..|v|] == v && buf[..] == buf[..WORD_BYTES * |v|];
  }

  datatype BlobError = BlobLength(want: nat, got: nat)

  /** Decoding accepts exactly the blobs of the right length, and inverts encoding. */
  method DecodeVector(blob: seq<Byte>, dimensions: nat) returns (r: Result<seq<Word>, BlobError>)
    ensures r.Success? <==> |blob| == WORD_BYTES * dimensions
    ensures r.Success? ==> |r.value| == dimensions && r.value == WordsOf(blob)
    ensures r.Failure? ==> r.error == BlobLength(WORD_BYTES * dimensions, |blob|)
  {
    if |blob| != WORD_BYTES * dimensions {
      return Failure(BlobLength(WORD_BYTES * dimensions, |blob|));
    }
    var v: array<Word> := new Word[dimensions];
    for i := 0 to dimensions
      invariant BytesOf(v[..i]) == blob[..WORD_BYTES * i]
    {
      var b := blob[WORD_BYTES * i..WORD_BYTES * i + WORD_BYTES];
      ghost var done := v[..i];
      v[i] := BytesWord(b);
      WordRoundTrip(v[i], b);
      assert v[..i + 1] == done + [v[i]];
      assert v[..i + 1][..i] == done;
      assert blob[..4 * (i + 1)] == blob[..4 * i] + b;
    }
    assert v[..] == v[..dimensions] && blob[..WORD_BYTES * dimensions] == blob;
    WordsOfBytes(v[..]);
    return Success(v[..]);
  }

  // ----- Sums -----

  function DotProduct(a: seq<real>, b: seq<real>): real
    requires |a| <= |b|
  {
    if a == [] then 0.0 else DotProduct(a[..|a| - 1], b) + a[|a| - 1] * b[|a| - 1]
  }

  function SumSquares(a: seq<real>): real {
    DotProduct(a, a)
  }

  lemma {:induction false} DotPrefix(a: seq<real>, b: seq<real>, c: seq<real>)
    requires |a| <= |b| <= |c| && b == c[..|b|]
    ensures DotProduct(a, b) == DotProduct(a, c)
  {
    if a != [] {
      DotPrefix(a[..|a| - 1], b, c);
    }
  }

  method Dot(a: seq<real>, b: seq<real>) returns (sum: real)
    requires |a| <= |b|
    ensures sum == DotProduct(a, b)
  {
    sum := 0.0;
    for i := 0 to |a|
      invariant sum == DotProduct(a[..i], b)
    {
      sum := sum + a[i] * b[i];
      assert a[..i + 1][..i] == a[..i];
    }
    assert a[..|a|] == a;
  }

  /** The inner product is what every component adds to it, and nothing else. */
  lemma {:induction false} DotProductMeans(a: seq<real>, b: seq<real>, i: nat, x: real)
    requires |a| <= |b| && i < |a|
    ensures DotProduct(a[i := x], b) - DotProduct(a, b) == (x - a[i]) * b[i]
    ensures (forall j | 0 <= j < |a| :: a[j] == 0.0) ==> DotProduct(a, b) == 0.0
  {
    var n := |a| - 1;
    var c := a[i := x];
    if i == n {
      assert c[..n] == a[..n];
      Distributes(x, a[n], b[n]);
      if n > 0 {
        DotProductMeans(a[..n], b, 0, a[0]);
      }
    } else {
      assert c[..n] == a[..n][i := x];
      DotProductMeans(a[..n], b, i, x);
    }
  }

  lemma {:induction false} Distributes(x: real, y: real, b: real)
    ensures x * b - y * b == (x - y) * b
  {
  }

  predicate IsNormalized(v: seq<real>) {
    && |v| == DIMENSIONS
    && -NORM_TOLERANCE <= SumSquares(v) - 1.0 <= NORM_TOLERANCE
  }

  datatype VectorError = WrongDimensions(got: nat) | NotNormalized(sumSquares: real)

  method ValidateVector(v: seq<real>) returns (r: Result<(), VectorError>)
    ensures r.Success? <==> IsNormalized(v)
    ensures r.Success? <==> |v| == 1024 && 0.999 <= DotProduct(v, v) <= 1.001
    ensures r.Failure? ==> r.error == if |v| != 1024 then WrongDimensions(|v|) else NotNormalized(DotProduct(v, v))
  {
    if |v| != DIMENSIONS {
      return Failure(WrongDimensions(|v|));
    }
    var sum := 0.0;
    for i := 0 to |v|
      invariant sum == SumSquares(v[..i])
    {
      sum := sum + v[i] * v[i];
      assert v[..i + 1][..i] == v[..i];
      DotPrefix(v[..i], v[..i], v[..i + 1]);
    }
    assert v[..|v|] == v;
    var d := if sum - 1.0 < 0.0 then 1.0 - sum else sum - 1.0;
    return if d > NORM_TOLERANCE then Failure(NotNormalized(sum)) else Success(());
  }

  // ----- Cauchy-Schwarz -----

  lemma {:induction false} Square(x: real)
    ensures x * x >= 0.0
  {
  }

  /** One step of the induction: d^2 <= s*t gives (d + xy)^2 <= (s + xx)(t + yy). */
  lemma {:induction false} CauchyStep(s: real, t: real, d: real, x: real, y: real)
    requires s >= 0.0 && t >= 0.0 && d * d <= s * t
    ensures (d + x * y) * (d + x * y) <= (s + x * x) * (t + y * y)
  {
    var p, q := s * (y * y), t * (x * x);
    var m := d * (x * y);
    assert p >= 0.0 && q >= 0.0 by {
      Square(x);
      Square(y);
      ProductSign(s, y * y);
      ProductSign(t, x * x);
    }
    assert m * m <= p * q by {
      Square(x * y);
      Scale((x * y) * (x * y), d * d, s * t);
      assert m * m == (x * y) * (x * y) * (d * d);
      assert p * q == (x * y) * (x * y) * (s * t);
    }
    TwiceAtMostSum(m, p, q);
    calc {
      (s + x * x) * (t + y * y) - (d + x * y) * (d + x * y);
      (s * t - d * d) + (p + q - 2.0 * m);
    }
  }

  lemma {:induction false} Scale(a: real, x: real, y: real)
    requires a >= 0.0 && x <= y
    ensures a * x <= a * y
  {
  }

  /** If m^2 <= p*q with p, q non-negative then 2m <= p + q. */
  lemma {:induction false} TwiceAtMostSum(m: real, p: real, q: real)
    requires p >= 0.0 && q >= 0.0 && m * m <= p * q
    ensures 2.0 * m <= p + q
  {
    var h := p + q;
    Square(p - q);
    assert h * h - 4.0 * (p * q) == (p - q) * (p - q);
    assert (2.0 * m) * (2.0 * m) == 4.0 * (m * m);
    if 2.0 * m > h {
      SquareGrows(h, 2.0 * m);
    }
  }

  lemma {:induction false} SquareGrows(x: real, y: real)
    requires 0.0 <= x < y
    ensures x * x < y * y
  {
    Positive(y - x, y + x);
    assert y * y - x * x == (y - x) * (y + x);
  }

  lemma {:induction false} Positive(a: real, b: real)
    requires a > 0.0 && b > 0.0
    ensures a * b > 0.0
  {
  }

  /** Cauchy-Schwarz over the loop sums. */
  lemma {:induction false} CauchySchwarz(a: seq<real>, b: seq<real>)
    requires |a| == |b|
    ensures SumSquares(a) >= 0.0 && SumSquares(b) >= 0.0
    ensures DotProduct(a, b) * DotProduct(a, b) <= SumSquares(a) * SumSquares(b)
  {
    if a != [] {
      var n := |a| - 1;
      CauchySchwarz(a[..n], b[..n]);
      DotPrefix(a[..n], b[..n], b);
      DotPrefix(a[..n], a[..n], a);
      DotPrefix(b[..n], b[..n], b);
      Square(a[n]);
      Square(b[n]);
      CauchyStep(SumSquares(a[..n]), SumSquares(b[..n]), DotProduct(a[..n], b[..n]), a[n], b[n]);
    }
  }

  /** Two vectors that pass the norm check have an inner product within the tolerance of [-1, 1]. */
  lemma {:induction false} ValidDotIsBounded(a: seq<real>, b: seq<real>)
    requires IsNormalized(a) && IsNormalized(b)
    ensures -1.001 <= DotProduct(a, b) <= 1.001
  {
    CauchySchwarz(a, b);
    var d, s, t := DotProduct(a, b), SumSquares(a), SumSquares(b);
    assert 0.0 <= s <= 1.001 && 0.0 <= t <= 1.001 && d * d <= s * t;
    SmallSquare(d, s, t);
  }

  lemma {:induction false} SmallSquare(d: real, s: real, t: real)
    requires 0.0 <= s <= 1.001 && 0.0 <= t <= 1.001 && d * d <= s * t
    ensures -1.001 <= d <= 1.001
  {
    Scale(s, t, 1.001);
    Scale(1.001, s, 1.001);
    var bound := 1.001 * 1.001;
    assert (-d) * (-d) == d * d <= bound;
    if d > 1.001 {
      SquareGrows(1.001, d);
    }
    if -d > 1.001 {
      SquareGrows(1.001, -d);
    }
  }
}
