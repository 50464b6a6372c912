/** Sampling a two-dimensional image on the CPU: address modes, nearest and linear filter, one channel. */
module ImageSampling {
  import opened Wrappers

  datatype AddressMode = REPEAT | MIRRORED_REPEAT | CLAMP_TO_EDGE | CLAMP_TO_BORDER | OTHER

  datatype Filter = NEAREST | LINEAR

  function Abs(x: real): real { if x < 0.0 then -x else x }

  // ----- address modes -----

  function ClampToEdge(v: real): real {
    if v <= 0.0 then 0.0 else if v >= 1.0 then 1.0 else v
  }

  function Repeat(v: real): real {
    var result := v - v.Floor as real;
    if result != 0.0 then result else if v > 0.0 then 1.0 else 0.0
  }

  function MirrorRepeat(v: real): real {
    var half := Abs(v) * 0.5;
    var fract := half - half.Floor as real;
    1.0 - Abs(1.0 - fract * 2.0)
  }

  /** The coordinate a mode maps `coord` to; none where the border colour applies. */
  function Addressed(mode: AddressMode, coord: real): (c: Option<real>)
    ensures c.Some? ==> 0.0 <= c.value <= 1.0
    ensures 0.0 <= coord <= 1.0 ==> c == Some(coord)
  {
    AddressedRange(coord);
    match mode
    case REPEAT => Some(Repeat(coord))
    case MIRRORED_REPEAT => Some(MirrorRepeat(coord))
    case CLAMP_TO_BORDER => if 0.0 <= coord <= 1.0 then Some(coord) else None
    case _ => Some(ClampToEdge(coord))
  }

  /** `clamp`: the coordinate is overwritten. */
  method Clamp(mode: AddressMode, coord: real) returns (ok: bool, coord': real)
    ensures ok <==> Addressed(mode, coord).Some?
    ensures coord' == if ok then Addressed(mode, coord).value else coord
  {
    coord' := coord;
    match mode
    case REPEAT =>
      coord' := Repeat(coord);
      return true, coord';
    case MIRRORED_REPEAT =>
      coord' := MirrorRepeat(coord);
      return true, coord';
    case CLAMP_TO_EDGE =>
      coord' := ClampToEdge(coord);
      return true, coord';
    case CLAMP_TO_BORDER =>
      if coord < 0.0 { return false, coord'; }
      if coord > 1.0 { return false, coord'; }
      return true, coord';
    case OTHER =>
      coord' := ClampToEdge(coord);
      return true, coord';
  }

  lemma FloorIs(v: real, k: int)
    requires k as real <= v < k as real + 1.0
    ensures v.Floor == k
  {
  }

  /** `repeat` keeps [0, 1] and moves any value into it by a whole number. */
  lemma RepeatMeaning(v: real) returns (k: int)
    ensures 0.0 <= Repeat(v) <= 1.0 && Repeat(v) == v - k as real
    ensures 0.0 <= v <= 1.0 ==> Repeat(v) == v
  {
    k := if v == v.Floor as real && v > 0.0 then v.Floor - 1 else v.Floor;
  }

  /** Shifting by one leaves `repeat` as it is except from 0 to 1, which stay apart. */
  lemma RepeatPeriod(v: real)
    ensures Repeat(v + 1.0) == Repeat(v) <==> v != 0.0
  {
    FloorIs(v + 1.0, v.Floor + 1);
    if v == v.Floor as real && v != 0.0 {
      assert v <= -1.0 || v >= 1.0;
    }
  }

  /** `clamp_to_edge` gives the nearest point of [0, 1]. */
  lemma ClampMeaning(v: real, p: real)
    requires 0.0 <= p <= 1.0
    ensures 0.0 <= ClampToEdge(v) <= 1.0 && Abs(v - ClampToEdge(v)) <= Abs(v - p)
  {
  }

  function ToEven(v: real, n: int): real { Abs(v - 2.0 * n as real) }

  /** `mirror_repeat` is the distance to the nearest even number: so it stays in [0, 1], is even, has period 2
      and keeps [0, 1]. */
  lemma MirrorMeaning(v: real) returns (k: int)
    ensures 0.0 <= MirrorRepeat(v) <= 1.0
    ensures MirrorRepeat(v) == ToEven(v, k)
    ensures forall n: int :: MirrorRepeat(v) <= ToEven(v, n)
  {
    var half := Abs(v) * 0.5;
    var up := if half - half.Floor as real <= 0.5 then half.Floor else half.Floor + 1;
    k := if v < 0.0 then -up else up;
    forall n: int ensures MirrorRepeat(v) <= ToEven(v, n) {
      if n <= k - 1 {
        assert 2.0 * n as real <= 2.0 * k as real - 2.0;
      } else if n >= k + 1 {
        assert 2.0 * n as real >= 2.0 * k as real + 2.0;
      }
    }
  }

  lemma MirrorSymmetries(v: real)
    ensures MirrorRepeat(-v) == MirrorRepeat(v) && MirrorRepeat(v + 2.0) == MirrorRepeat(v)
    ensures 0.0 <= v <= 1.0 ==> MirrorRepeat(v) == v
  {
    var k := MirrorMeaning(v);
    var n := MirrorMeaning(v + 2.0);
    assert ToEven(v + 2.0, k + 1) == ToEven(v, k) && ToEven(v, n - 1) == ToEven(v + 2.0, n);
  }

  lemma AddressedRange(coord: real)
    ensures 0.0 <= Repeat(coord) <= 1.0 && 0.0 <= MirrorRepeat(coord) <= 1.0
    ensures 0.0 <= coord <= 1.0 ==> Repeat(coord) == coord && MirrorRepeat(coord) == coord
  {
    var whole := RepeatMeaning(coord);
    var even := MirrorMeaning(coord);
    MirrorSymmetries(coord);
  }

  /** What each mode makes of a coordinate, in numbers: repeating moves it into [0, 1] by a whole number, upwards onto
      0 and downwards onto 1; mirroring takes the distance to an even number; the others cut off or reject. */
  lemma AddressModes(mode: AddressMode, coord: real) returns (k: int)
    ensures var c := Addressed(mode, coord);
      match mode
      case REPEAT =>
        && c.Some? && 0.0 <= c.value <= 1.0 && c.value == coord - k as real
        && (c.value == 0.0 ==> coord <= 0.0) && (c.value == 1.0 ==> coord > 0.0)
      case MIRRORED_REPEAT =>
        && c.Some? && 0.0 <= c.value <= 1.0
        && c.value == if coord >= 2.0 * k as real then coord - 2.0 * k as real else 2.0 * k as real - coord
      case CLAMP_TO_BORDER => c == if coord < 0.0 || coord > 1.0 then None else Some(coord)
      case _ => c == Some(if coord < 0.0 then 0.0 else if coord > 1.0 then 1.0 else coord)
  {
    if mode == REPEAT {
      k := RepeatMeaning(coord);
    } else {
      k := MirrorMeaning(coord);
    }
  }

  // ----- images -----

  datatype Image = Image(width: nat, height: nat, rows: seq<seq<real>>) {
    predicate Valid() { |rows| == height && forall j | 0 <= j < height :: |rows[j]| == width }

    function Texel(i: nat, j: nat): real
      requires Valid() && i < width && j < height
    {
      rows[j][i]
    }
  }

  datatype Sampler = Sampler(u: AddressMode, v: AddressMode, magFilter: Filter, border: real)

  /** A tent of height 1 and half-width 1. */
  function Tent(d: real): (t: real)
    ensures 0.0 <= t <= 1.0
  {
    if Abs(d) >= 1.0 then 0.0 else 1.0 - Abs(d)
  }

  /** All entries, each weighted by the tent centred on it. */
  function Blend(row: seq<real>, x: real): real {
    if row == [] then 0.0
    else Blend(row[..|row| - 1], x) + Tent(x - (|row| - 1) as real) * row[|row| - 1]
  }

  /** Every row blended at x. */
  function Blends(rows: seq<seq<real>>, x: real): (b: seq<real>)
    ensures |b| == |rows|
  {
    seq(|rows|, j requires 0 <= j < |rows| => Blend(rows[j], x))
  }

  /** The reference for the linear filter: a weighted sum over the whole image. */
  function Filtered(image: Image, x: real, y: real): real {
    Blend(Blends(image.rows, x), y)
  }

  /** The reference for the nearest filter: the closest index, halves rounded up. */
  function Closest(x: real, n: nat): (i: nat)
    requires n > 0 && 0.0 <= x <= (n - 1) as real
    ensures i < n
  {
    (x + 0.5).Floor
  }

  /** A coordinate in [0, 1] in units of texels: the first texel is at 0, the last at n - 1. */
  function Position(c: real, n: nat): (x: real)
    requires 0.0 <= c <= 1.0 && n > 0
    ensures 0.0 <= x <= (n - 1) as real
  {
    c * (n - 1) as real
  }

  /** The sample at texture coordinate (u, v). */
  function Sampled(sampler: Sampler, image: Image, u: real, v: real): real
    requires image.Valid()
  {
    var cu, cv := Addressed(sampler.u, u), Addressed(sampler.v, v);
    if image.width == 0 || image.height == 0 || cu.None? || cv.None? then sampler.border
    else
      var x, y := Position(cu.value, image.width), Position(cv.value, image.height);
      if sampler.magFilter.NEAREST? then image.Texel(Closest(x, image.width), Closest(y, image.height))
      else Filtered(image, x, y)
  }

  lemma EmptyImage(width: nat, height: nat)
    ensures width * height == 0 <==> width == 0 || height == 0
  {
  }

  /** `sample`. */
  method Sample(sampler: Sampler, image: Image, u: real, v: real) returns (color: real)
    requires image.Valid()
    ensures color == Sampled(sampler, image, u, v)
  {
    hide Filtered, Closest;
    EmptyImage(image.width, image.height);
    if image.width * image.height == 0 { return sampler.border; }
    var okU, cu := Clamp(sampler.u, u);
    if !okU { return sampler.border; }
    var okV, cv := Clamp(sampler.v, v);
    if !okV { return sampler.border; }
    var x, y := Position(cu, image.width), Position(cv, image.height);
    if sampler.magFilter == NEAREST {
      color := Nearest(image, x, y);
    } else {
      color := Linear(image, x, y);
    }
  }

  method Nearest(image: Image, x: real, y: real) returns (color: real)
    requires image.Valid() && image.width > 0 && image.height > 0
    requires 0.0 <= x <= (image.width - 1) as real && 0.0 <= y <= (image.height - 1) as real
    ensures color == image.Texel(Closest(x, image.width), Closest(y, image.height))
  {
    var i := (x + 0.5).Floor;
    var j := (y + 0.5).Floor;
    if i >= image.width { i := image.width - 1; }
    if j >= image.height { j := image.height - 1; }
    color := image.Texel(i, j);
  }

  method Linear(image: Image, x: real, y: real) returns (color: real)
    requires image.Valid() && image.width > 0 && image.height > 0
    requires 0.0 <= x <= (image.width - 1) as real && 0.0 <= y <= (image.height - 1) as real
    ensures color == Filtered(image, x, y)
  {
    var i: nat := x.Floor;
    var j: nat := y.Floor;
    var r := x - i as real;
    var s := y - j as real;
    if i >= image.width - 1 {
      i := image.width - 1;
      r := 0.0;
    }
    if j >= image.height - 1 {
      j := image.height - 1;
      s := 0.0;
    }
    color := Accumulate(image, i, j, r, s);
    FourTexels(image, x, y, i, j, r, s);
  }

  method Accumulate(image: Image, i: nat, j: nat, r: real, s: real) returns (color: real)
    requires image.Valid() && i < image.width && j < image.height
    requires (r > 0.0 ==> i + 1 < image.width) && (s > 0.0 ==> j + 1 < image.height)
    ensures color == FourAt(image, i, j, r, s)
  {
    color := image.Texel(i, j) * ((1.0 - r) * (1.0 - s));
    if r > 0.0 { color := color + image.Texel(i + 1, j) * (r * (1.0 - s)); }
    if s > 0.0 {
      color := color + image.Texel(i, j + 1) * ((1.0 - r) * s);
      if r > 0.0 { color := color + image.Texel(i + 1, j + 1) * (r * s); }
    }
  }

  /** The sum that `sample` builds up. */
  function Four(t00: real, t10: real, t01: real, t11: real, r: real, s: real): real {
    t00 * ((1.0 - r) * (1.0 - s)) + (if r > 0.0 then t10 * (r * (1.0 - s)) else 0.0)
    + if s > 0.0 then t01 * ((1.0 - r) * s) + (if r > 0.0 then t11 * (r * s) else 0.0) else 0.0
  }

  function Two(a: real, b: real, r: real): real {
    (1.0 - r) * a + if r > 0.0 then r * b else 0.0
  }

  lemma FourIsTwice(f: real, u: real, w: real, t00: real, t10: real, t01: real, t11: real, r: real, s: real)
    requires f == Two(u, if s > 0.0 then w else 0.0, s)
    requires u == Two(t00, t10, r) && (s > 0.0 ==> w == Two(t01, t11, r))
    ensures f == Four(t00, t10, t01, t11, r, s)
  {
    assert (1.0 - s) * ((1.0 - r) * t00) == t00 * ((1.0 - r) * (1.0 - s));
    assert (1.0 - s) * (r * t10) == t10 * (r * (1.0 - s));
    assert s * ((1.0 - r) * t01) == t01 * ((1.0 - r) * s);
    assert s * (r * t11) == t11 * (r * s);
  }

  function FourAt(image: Image, i: nat, j: nat, r: real, s: real): real
    requires image.Valid() && i < image.width && j < image.height
    requires (r > 0.0 ==> i + 1 < image.width) && (s > 0.0 ==> j + 1 < image.height)
  {
    Four(image.Texel(i, j),
         if r > 0.0 then image.Texel(i + 1, j) else 0.0,
         if s > 0.0 then image.Texel(i, j + 1) else 0.0,
         if r > 0.0 && s > 0.0 then image.Texel(i + 1, j + 1) else 0.0, r, s)
  }

  lemma FourTexels(image: Image, x: real, y: real, i: nat, j: nat, r: real, s: real)
    requires image.Valid() && i < image.width && j < image.height
    requires x == i as real + r && 0.0 <= r < 1.0 && (r > 0.0 ==> i + 1 < image.width)
    requires y == j as real + s && 0.0 <= s < 1.0 && (s > 0.0 ==> j + 1 < image.height)
    ensures Filtered(image, x, y) == FourAt(image, i, j, r, s)
  {
    var across := Blends(image.rows, x);
    BlendOfTwo(image.rows[j], x, i, r);
    if s > 0.0 { BlendOfTwo(image.rows[j + 1], x, i, r); }
    BlendOfTwo(across, y, j, s);
    FourIsTwice(Filtered(image, x, y), across[j], if s > 0.0 then across[j + 1] else 0.0,
      image.Texel(i, j),
      if r > 0.0 then image.Texel(i + 1, j) else 0.0,
      if s > 0.0 then image.Texel(i, j + 1) else 0.0,
      if r > 0.0 && s > 0.0 then image.Texel(i + 1, j + 1) else 0.0,
      r, s);
  }

  /** Only the two entries around the position have weight. */
  lemma {:induction false} BlendOfTwo(row: seq<real>, x: real, i: nat, r: real)
    requires i < |row| && x == i as real + r && 0.0 <= r < 1.0 && (r > 0.0 ==> i + 1 < |row|)
    ensures Blend(row, x) == Two(row[i], if r > 0.0 then row[i + 1] else 0.0, r)
  {
    var last := |row| - 1;
    var front := row[..last];
    if last > i + 1 {
      BlendOfTwo(front, x, i, r);
    } else if last == i + 1 {
      BlendBefore(front[..i], x);
    } else {
      BlendBefore(front, x);
    }
  }

  lemma {:induction false} BlendBefore(row: seq<real>, x: real)
    requires x >= |row| as real
    ensures Blend(row, x) == 0.0
  {
    if row != [] { BlendBefore(row[..|row| - 1], x); }
  }

  // ----- what the filters mean -----

  /** No index is closer to the position than the one the nearest filter picks; of two as close, the upper. */
  lemma ClosestIsClosest(x: real, n: nat, k: nat)
    requires n > 0 && 0.0 <= x <= (n - 1) as real && k < n
    ensures var i := Closest(x, n);
            Abs(x - i as real) <= Abs(x - k as real) && (Abs(x - i as real) == Abs(x - k as real) ==> k <= i)
  {
    var i := Closest(x, n);
    if k < i { assert k as real <= i as real - 1.0; }
    if k > i { assert k as real >= i as real + 1.0; }
  }

  lemma ClosestToIndex(i: nat, n: nat)
    requires i < n
    ensures Closest(i as real, n) == i
  {
    FloorIs(i as real + 0.5, i);
  }

  predicate Within(row: seq<real>, lo: real, hi: real) { forall i | 0 <= i < |row| :: lo <= row[i] <= hi }

  lemma TwoWithin(a: real, b: real, r: real, lo: real, hi: real)
    requires 0.0 <= r < 1.0 && lo <= a <= hi && (r > 0.0 ==> lo <= b <= hi)
    ensures lo <= Two(a, b, r) <= hi
  {
    if r > 0.0 {
      MeanAbove(a, b, r, lo);
      MeanAbove(-a, -b, r, -hi);
    }
  }

  lemma MeanAbove(a: real, b: real, r: real, lo: real)
    requires 0.0 <= r <= 1.0 && lo <= a && lo <= b
    ensures lo <= (1.0 - r) * a + r * b
  {
    assert (1.0 - r) * (a - lo) >= 0.0 && r * (b - lo) >= 0.0;
    assert (1.0 - r) * a + r * b - lo == (1.0 - r) * (a - lo) + r * (b - lo);
  }

  /** Inside the row a blend is a weighted mean: it stays within the range of the entries. */
  lemma BlendWithin(row: seq<real>, x: real, lo: real, hi: real)
    requires row != [] && 0.0 <= x <= (|row| - 1) as real && Within(row, lo, hi)
    ensures lo <= Blend(row, x) <= hi
  {
    var i, r := x.Floor, x - x.Floor as real;
    BlendOfTwo(row, x, i, r);
    TwoWithin(row[i], if r > 0.0 then row[i + 1] else 0.0, r, lo, hi);
  }

  /** The weights, none of them negative, sum to one. */
  lemma WeightsSumToOne(n: nat, x: real)
    requires n > 0 && 0.0 <= x <= (n - 1) as real
    ensures Blend(seq(n, _ => 1.0), x) == 1.0
  {
    BlendWithin(seq(n, _ => 1.0), x, 1.0, 1.0);
  }

  lemma BlendAtIndex(row: seq<real>, i: nat)
    requires i < |row|
    ensures Blend(row, i as real) == row[i]
  {
    BlendOfTwo(row, i as real, i, 0.0);
  }

  predicate AllWithin(image: Image, lo: real, hi: real) {
    forall j | 0 <= j < |image.rows| :: Within(image.rows[j], lo, hi)
  }

  /** With an accepted coordinate and a non-empty image no sample leaves the range of the texels. */
  lemma SampleWithinRange(sampler: Sampler, image: Image, u: real, v: real, lo: real, hi: real)
    requires image.Valid() && image.width > 0 && image.height > 0 && AllWithin(image, lo, hi)
    requires Addressed(sampler.u, u).Some? && Addressed(sampler.v, v).Some?
    ensures lo <= Sampled(sampler, image, u, v) <= hi
  {
    var x := Position(Addressed(sampler.u, u).value, image.width);
    var y := Position(Addressed(sampler.v, v).value, image.height);
    forall j | 0 <= j < image.height ensures lo <= Blends(image.rows, x)[j] <= hi {
      BlendWithin(image.rows[j], x, lo, hi);
    }
    BlendWithin(Blends(image.rows, x), y, lo, hi);
  }

  /** The texture coordinate of texel i of n. */
  function TexelCoordinate(i: nat, n: nat): (c: real)
    requires i < n
    ensures 0.0 <= c <= 1.0 && Position(c, n) == i as real
  {
    if n == 1 then 0.0 else
      var c := i as real / (n - 1) as real;
      Fraction(i as real, (n - 1) as real);
      c
  }

  lemma Fraction(a: real, b: real)
    requires 0.0 <= a <= b && b > 0.0
    ensures 0.0 <= a / b <= 1.0 && (a / b) * b == a
  {
  }

  /** At the exact position of a texel both filters give that texel, whatever the address modes. */
  lemma SampleAtTexel(sampler: Sampler, image: Image, i: nat, j: nat)
    requires image.Valid() && i < image.width && j < image.height
    ensures Sampled(sampler, image, TexelCoordinate(i, image.width), TexelCoordinate(j, image.height))
         == image.Texel(i, j)
  {
    ClosestToIndex(i, image.width);
    ClosestToIndex(j, image.height);
    BlendAtIndex(image.rows[j], i);
    BlendAtIndex(Blends(image.rows, i as real), j);
  }

  // ----- what a sample is, in coordinates -----

  /** The border colour is returned exactly without texels or where an address mode rejects a coordinate. */
  lemma BorderSample(sampler: Sampler, image: Image, u: real, v: real)
    requires image.Valid()
    requires image.width == 0 || image.height == 0 || Addressed(sampler.u, u).None? || Addressed(sampler.v, v).None?
    ensures Sampled(sampler, image, u, v) == sampler.border
  {
  }

  /** The coordinate is accepted and stands r behind index i of n, counting 0 for the first and n - 1 for the last. */
  predicate Stands(mode: AddressMode, coord: real, n: nat, i: nat, r: real) {
    && i < n && 0.0 <= r < 1.0
    && Addressed(mode, coord).Some? && Addressed(mode, coord).value * (n - 1) as real == i as real + r
  }

  lemma AtMost(c: real, m: real)
    requires c <= 1.0 && m >= 0.0
    ensures c * m <= m
  {
  }

  lemma StandsInside(mode: AddressMode, coord: real, n: nat, i: nat, r: real)
    requires Stands(mode, coord, n, i, r)
    ensures Position(Addressed(mode, coord).value, n) == i as real + r && (r > 0.0 ==> i + 1 < n)
  {
    AtMost(Addressed(mode, coord).value, (n - 1) as real);
  }

  lemma LinearAt(sampler: Sampler, image: Image, u: real, v: real, i: nat, j: nat, r: real, s: real)
    requires image.Valid() && sampler.magFilter == LINEAR
    requires Stands(sampler.u, u, image.width, i, r) && Stands(sampler.v, v, image.height, j, s)
    ensures (r > 0.0 ==> i + 1 < image.width) && (s > 0.0 ==> j + 1 < image.height)
    ensures Sampled(sampler, image, u, v) == FourAt(image, i, j, r, s)
  {
    hide Filtered, FourAt, Position, Addressed;
    StandsInside(sampler.u, u, image.width, i, r);
    StandsInside(sampler.v, v, image.height, j, s);
    FourTexels(image, i as real + r, j as real + s, i, j, r, s);
  }

  /** The linear filter: the four texels around the coordinate, each weighted by how near it is in both directions. */
  lemma LinearSample(sampler: Sampler, image: Image, u: real, v: real, i: nat, j: nat, r: real, s: real)
    requires image.Valid() && sampler.magFilter == LINEAR && i + 1 < image.width && j + 1 < image.height
    requires Stands(sampler.u, u, image.width, i, r) && Stands(sampler.v, v, image.height, j, s)
    ensures Sampled(sampler, image, u, v)
         == image.rows[j][i] * ((1.0 - r) * (1.0 - s)) + image.rows[j][i + 1] * (r * (1.0 - s))
          + image.rows[j + 1][i] * ((1.0 - r) * s) + image.rows[j + 1][i + 1] * (r * s)
  {
    hide Sampled;
    LinearAt(sampler, image, u, v, i, j, r, s);
    FourWeights(image.rows[j][i], image.rows[j][i + 1], image.rows[j + 1][i], image.rows[j + 1][i + 1], r, s);
  }

  /** Texels that are not looked at would have no weight. */
  lemma FourWeights(t00: real, t10: real, t01: real, t11: real, r: real, s: real)
    requires r >= 0.0 && s >= 0.0
    ensures Four(t00, if r > 0.0 then t10 else 0.0, if s > 0.0 then t01 else 0.0, if r > 0.0 && s > 0.0 then t11 else 0.0, r, s)
         == t00 * ((1.0 - r) * (1.0 - s)) + t10 * (r * (1.0 - s)) + t01 * ((1.0 - r) * s) + t11 * (r * s)
  {
    NoWeight(t10, r, 1.0 - s);
    NoWeight(t01, s, 1.0 - r);
    NoWeight(t11, r, s);
    NoWeight(t11, s, r);
  }

  lemma NoWeight(t: real, w: real, k: real)
    requires w >= 0.0
    ensures (if w > 0.0 then t else 0.0) * (w * k) == t * (w * k)
    ensures (if w > 0.0 then t else 0.0) * (k * w) == t * (k * w)
    ensures w == 0.0 ==> t * (w * k) == t * (k * w) == 0.0
  {
  }

  /** Between two neighbours in a row, or at the last texel of it. */
  lemma LinearInRow(sampler: Sampler, image: Image, u: real, v: real, i: nat, j: nat, r: real)
    requires image.Valid() && sampler.magFilter == LINEAR
    requires Stands(sampler.u, u, image.width, i, r) && Stands(sampler.v, v, image.height, j, 0.0)
    ensures r > 0.0 ==> i + 1 < image.width
    ensures Sampled(sampler, image, u, v)
         == image.rows[j][i] * (1.0 - r) + if r > 0.0 then image.rows[j][i + 1] * r else 0.0
  {
    hide Sampled;
    LinearAt(sampler, image, u, v, i, j, r, 0.0);
  }

  /** In a column. */
  lemma LinearInColumn(sampler: Sampler, image: Image, u: real, v: real, i: nat, j: nat, s: real)
    requires image.Valid() && sampler.magFilter == LINEAR
    requires Stands(sampler.u, u, image.width, i, 0.0) && Stands(sampler.v, v, image.height, j, s)
    ensures s > 0.0 ==> j + 1 < image.height
    ensures Sampled(sampler, image, u, v)
         == image.rows[j][i] * (1.0 - s) + if s > 0.0 then image.rows[j + 1][i] * s else 0.0
  {
    hide Sampled;
    LinearAt(sampler, image, u, v, i, j, 0.0, s);
  }

  /** The nearest filter: the texel at most half a texel away, the upper one of two. */
  lemma NearestSample(sampler: Sampler, image: Image, u: real, v: real, i: nat, j: nat)
    requires image.Valid() && sampler.magFilter == NEAREST && i < image.width && j < image.height
    requires Addressed(sampler.u, u).Some? && Addressed(sampler.v, v).Some?
    requires i as real - 0.5 <= Addressed(sampler.u, u).value * (image.width - 1) as real < i as real + 0.5
    requires j as real - 0.5 <= Addressed(sampler.v, v).value * (image.height - 1) as real < j as real + 0.5
    ensures Sampled(sampler, image, u, v) == image.rows[j][i]
  {
    hide Filtered, Position, Closest, Addressed;
    NearestIndex(Addressed(sampler.u, u).value, image.width, i);
    NearestIndex(Addressed(sampler.v, v).value, image.height, j);
  }

  lemma NearestIndex(c: real, n: nat, i: nat)
    requires 0.0 <= c <= 1.0 && i < n && i as real - 0.5 <= c * (n - 1) as real < i as real + 0.5
    ensures Closest(Position(c, n), n) == i
  {
    FloorIs(Position(c, n) + 0.5, i);
  }

  /** A quarter of the way from a texel to the next, and three quarters: a mean of 0 and 1. */
  lemma QuarterSample(sampler: Sampler, image: Image)
    requires image == Image(2, 1, [[0.0, 1.0]]) && sampler.magFilter == LINEAR
    ensures Sampled(sampler, image, 0.25, 0.0) == 0.25 && Sampled(sampler, image, 0.75, 0.0) == 0.75
  {
    hide Sampled;
    LinearInRow(sampler, image, 0.25, 0.0, 0, 0, 0.25);
    LinearInRow(sampler, image, 0.75, 0.0, 0, 0, 0.75);
  }
}
