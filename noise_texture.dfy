/**
 * The integer skeleton of the simplex-noise texture generator: the
 * permutation tables built by the noise object's constructor, the table
 * lookups that pick a gradient for each corner of a simplex cell, and the
 * RGBA buffer fill of the texture.
 *
 * The floating-point noise value is not modelled: the texture takes the noise
 * function as a parameter, and a cell lookup takes the integer cell and the
 * in-cell offsets as parameters.
 */
module NoiseTexture {

  /** Size of the permutation table `p`. */
  const TableSize: nat := 256
  /** Size of the doubled table `perm`, so that `ii + perm[jj]` needs no wrap-around. */
  const PermSize: nat := 512
  /** Number of gradient directions in `grad3`. */
  const GradientCount: nat := 12

  /**
   * `n & 255` for a number holding the integer n: the low byte of its 32-bit
   * two's complement representation, which is n mod 256 (Euclidean, so also for
   * negative n).
   */
  function LowByte(n: int): (r: int)
    ensures 0 <= r < 256
    ensures (n - r) % 256 == 0
    ensures 0 <= n < 256 ==> r == n
  {
    n % 256
  }

  /** `Math.floor(seed * 256)`: the value the constructor stores in every slot of `p`. */
  function SeedByte(seed: real): (v: int)
    requires 0.0 <= seed < 1.0
    ensures 0 <= v < 256
  {
    var x := seed * 256.0;
    assert x < 256.0;
    x.Floor
  }

  /** `Math.floor(seed * (i + 1))`: the slot swapped with slot i. */
  function SwapIndex(seed: real, i: nat): (j: nat)
    requires 0.0 <= seed < 1.0
    ensures j <= i
  {
    var x := seed * (i + 1) as real;
    FractionBelow(seed, (i + 1) as real);
    x.Floor
  }

  /** A fraction of a positive bound stays below it. */
  lemma FractionBelow(seed: real, bound: real)
    requires 0.0 <= seed < 1.0 && bound > 0.0
    ensures 0.0 <= seed * bound < bound
  {
  }

  /** The descending swap loop: every swap stays in bounds, so the table's multiset is kept. */
  method Shuffle(table: array<int>, seed: real)
    requires table.Length == TableSize
    requires 0.0 <= seed < 1.0
    modifies table
    ensures multiset(table[..]) == multiset(old(table[..]))
  {
    var i := 255;
    while i > 0
      invariant 0 <= i <= 255
      invariant multiset(table[..]) == multiset(old(table[..]))
    {
      var j := SwapIndex(seed, i);
      table[i], table[j] := table[j], table[i];
      i := i - 1;
    }
  }

  /** A sequence whose multiset is that of n copies of v holds nothing but v. */
  lemma {:induction false} OnlyCopies(s: seq<int>, v: int, n: nat)
    requires multiset(s) == multiset(Copies(v, n))
    ensures forall k :: 0 <= k < |s| ==> s[k] == v
  {
    forall k | 0 <= k < |s|
      ensures s[k] == v
    {
      assert s[k] in multiset(s);
      CopiesOnly(v, n, s[k]);
    }
  }

  function Copies(v: int, n: nat): seq<int>
  {
    if n == 0 then [] else Copies(v, n - 1) + [v]
  }

  lemma {:induction false} CopiesOnly(v: int, n: nat, x: int)
    requires x in multiset(Copies(v, n))
    ensures x == v
  {
    if n > 0 {
      assert multiset(Copies(v, n)) == multiset(Copies(v, n - 1)) + multiset{v};
      if x != v {
        CopiesOnly(v, n - 1, x);
      }
    }
  }

  lemma {:induction false} CopiesOfConstant(s: seq<int>, v: int)
    requires forall k :: 0 <= k < |s| ==> s[k] == v
    ensures s == Copies(v, |s|)
  {
    if s != [] {
      CopiesOfConstant(s[..|s| - 1], v);
      assert s == s[..|s| - 1] + [s[|s| - 1]];
    }
  }

  /** The two tables of one noise object. */
  class SimplexNoise {
    const p: array<int>
    const perm: array<int>

    /** Table sizes, byte-valued entries, and `perm` as `p` repeated twice. */
    ghost predicate Valid()
      reads p, perm
    {
      && p.Length == TableSize && perm.Length == PermSize && p != perm
      && (forall k :: 0 <= k < TableSize ==> 0 <= p[k] < 256)
      && (forall k :: 0 <= k < PermSize ==> perm[k] == p[LowByte(k)])
    }

    /** The constructor as written: fill, shuffle, extend. */
    constructor (seed: real)
      requires 0.0 <= seed < 1.0
      ensures Valid() && fresh(p) && fresh(perm)
      ensures forall k :: 0 <= k < TableSize ==> p[k] == SeedByte(seed)
    {
      var v := SeedByte(seed);
      var table := new int[TableSize];
      for i := 0 to 256
        modifies table
        invariant forall k :: 0 <= k < i ==> table[k] == v
      {
        table[i] := v;
      }
      CopiesOfConstant(table[..], v);
      Shuffle(table, seed);
      OnlyCopies(table[..], v, TableSize);
      assert forall k :: 0 <= k < TableSize ==> table[k] == table[..][k] == v;
      var doubled := new int[PermSize];
      for i := 0 to 512
        modifies doubled
        invariant forall k :: 0 <= k < i ==> doubled[k] == table[LowByte(k)]
      {
        doubled[i] := table[LowByte(i)];
      }
      p := table;
      perm := doubled;
    }

    /** `perm` repeats with period 256. */
    lemma PermPeriodic()
      requires Valid()
      ensures forall k :: 0 <= k < TableSize ==> perm[k] == perm[k + TableSize]
    {
      forall k | 0 <= k < TableSize
        ensures perm[k] == perm[k + TableSize]
      {
        assert LowByte(k + TableSize) == LowByte(k);
      }
    }

    /**
     * The gradient indices of the three corners of the simplex cell with
     * integer origin (i, j) and in-cell offset (x0, y0). Every `perm` index
     * used is below 512, so every lookup is in bounds.
     */
    function CornerGradients(i: int, j: int, x0: real, y0: real): (g: (int, int, int))
      reads p, perm
      requires Valid()
      ensures 0 <= g.0 < GradientCount && 0 <= g.1 < GradientCount && 0 <= g.2 < GradientCount
    {
      var (i1, j1) := MiddleCorner(x0, y0);
      var ii := LowByte(i);
      var jj := LowByte(j);
      var gi0 := perm[ii + perm[jj]] % 12;
      var gi1 := perm[ii + i1 + perm[jj + j1]] % 12;
      var gi2 := perm[ii + 1 + perm[jj + 1]] % 12;
      (gi0, gi1, gi2)
    }
  }

  /** The gradient choice, and so the noise, repeats every 256 cells in each direction. */
  lemma CornerGradientsPeriodic(noise: SimplexNoise, i: int, j: int, x0: real, y0: real)
    requires noise.Valid()
    ensures noise.CornerGradients(i + TableSize, j, x0, y0) == noise.CornerGradients(i, j, x0, y0)
    ensures noise.CornerGradients(i, j + TableSize, x0, y0) == noise.CornerGradients(i, j, x0, y0)
  {
    assert LowByte(i + TableSize) == LowByte(i) && LowByte(j + TableSize) == LowByte(j);
  }

  /** The offset of the middle corner of a simplex cell: one step along x or along y. */
  function MiddleCorner(x0: real, y0: real): (c: (int, int))
    ensures c.0 + c.1 == 1
    ensures 0 <= c.0 <= 1 && 0 <= c.1 <= 1
    ensures c.0 == 1 <==> x0 > y0
  {
    (if x0 > y0 then 1 else 0, if x0 > y0 then 0 else 1)
  }

  /** With the constructor as written, every corner of every cell gets one and the same gradient. */
  lemma ConstantTableOneGradient(noise: SimplexNoise, seed: real, i: int, j: int, x0: real, y0: real)
    requires 0.0 <= seed < 1.0
    requires noise.Valid()
    requires forall k :: 0 <= k < TableSize ==> noise.p[k] == SeedByte(seed)
    ensures var g := SeedByte(seed) % 12; noise.CornerGradients(i, j, x0, y0) == (g, g, g)
  {
    var (i1, j1) := MiddleCorner(x0, y0);
    var ii, jj := LowByte(i), LowByte(j);
    var v := SeedByte(seed);
    assert noise.perm[jj] == noise.p[LowByte(jj)] == v;
    assert noise.perm[jj + j1] == noise.p[LowByte(jj + j1)] == v;
    assert noise.perm[jj + 1] == noise.p[LowByte(jj + 1)] == v;
    assert noise.perm[ii + v] == noise.p[LowByte(ii + v)] == v;
    assert noise.perm[ii + i1 + v] == noise.p[LowByte(ii + i1 + v)] == v;
    assert noise.perm[ii + 1 + v] == noise.p[LowByte(ii + 1 + v)] == v;
  }

  /** 0, 1, ..., n - 1. */
  function Range(n: nat): (r: seq<int>)
    ensures |r| == n && forall k :: 0 <= k < n ==> r[k] == k
  {
    if n == 0 then [] else Range(n - 1) + [n - 1]
  }

  /**
   * The evidently intended table: slot i starts out as i, and the same shuffle
   * then leaves a permutation of 0..255, each byte exactly once.
   */
  method PermutationTable(seed: real) returns (table: array<int>)
    requires 0.0 <= seed < 1.0
    ensures fresh(table) && table.Length == TableSize
    ensures multiset(table[..]) == multiset(Range(TableSize))
    ensures forall b :: 0 <= b < 256 ==> multiset(table[..])[b] == 1
  {
    table := new int[TableSize];
    for i := 0 to 256
      invariant forall k :: 0 <= k < i ==> table[k] == k
    {
      table[i] := i;
    }
    assert table[..] == Range(TableSize);
    Shuffle(table, seed);
    forall b | 0 <= b < 256
      ensures multiset(table[..])[b] == 1
    {
      RangeOnce(TableSize, b);
    }
  }

  lemma {:induction false} RangeOnce(n: nat, b: int)
    requires 0 <= b < n
    ensures multiset(Range(n))[b] == 1
  {
    var prev := Range(n - 1);
    assert Range(n) == prev + [n - 1];
    assert multiset(Range(n)) == multiset(prev) + multiset{n - 1};
    if b < n - 1 {
      RangeOnce(n - 1, b);
    } else {
      assert forall k :: 0 <= k < |prev| ==> prev[k] < b;
      assert b !in prev;
    }
  }

  // ---------------------------------------------------------------------
  // The texture
  // ---------------------------------------------------------------------

  /**
   * The grey level of pixel (row i, column j): three octaves of the noise
   * function at frequencies 4, 8 and 16, mapped from [-1, 1] to [0, 255] and
   * floored.
   */
  function PixelValue(noise: (real, real) -> real, width: nat, height: nat, i: nat, j: nat): int
    requires i < height && j < width
  {
    var x := j as real / width as real;
    var y := i as real / height as real;
    var n := 0.0 + noise(x * 4.0, y * 4.0) * 0.5 + noise(x * 8.0, y * 8.0) * 0.25 + noise(x * 16.0, y * 16.0) * 0.125;
    (((n + 1.0) / 2.0) * 255.0).Floor
  }

  /** Channel c of pixel number q: R, G and B carry the grey level, A is opaque. */
  function PixelByte(noise: (real, real) -> real, width: nat, height: nat, q: nat, c: nat): int
    requires q < width * height
  {
    PixelInRange(q, width, height);
    if c == 3 then 255 else PixelValue(noise, width, height, q / width, q % width)
  }

  /** Pixel number q of a width-by-height image lies in row q / width and column q % width. */
  lemma PixelInRange(q: nat, width: nat, height: nat)
    requires q < width * height
    ensures width > 0 && q / width < height && q % width < width
  {
    if width > 0 {
      var d := q / width;
      assert d * width <= q;
      if d >= height {
        MulMonotone(height, d, width);
      }
    }
  }

  lemma MulMonotone(a: nat, b: nat, c: nat)
    requires a <= b
    ensures a * c <= b * c
  {
  }

  /** The row-major pixel number of (i, j) decodes back to (i, j). */
  lemma {:induction false} PixelNumber(i: nat, j: nat, width: nat)
    requires j < width
    ensures (i * width + j) / width == i && (i * width + j) % width == j
  {
    var q := i * width + j;
    var d, r := q / width, q % width;
    assert q == d * width + r && 0 <= r < width;
    if d > i {
      MulMonotone(i + 1, d, width);
    } else if d < i {
      MulMonotone(d + 1, i, width);
    }
  }

  /**
   * The texture buffer: 4 * width * height bytes, written pixel by pixel in
   * row-major order. Every byte ends up with the value its pixel and channel
   * call for.
   */
  method GenerateNoiseTexture(width: nat, height: nat, noise: (real, real) -> real) returns (data: array<int>)
    ensures fresh(data) && data.Length == 4 * (width * height)
    ensures forall q, c :: 0 <= q < width * height && 0 <= c < 4 ==> data[4 * q + c] == PixelByte(noise, width, height, q, c)
  {
    var size := width * height;
    data := new int[4 * size](_ => 0);
    for i := 0 to height
      invariant Filled(data, noise, width, height, i * width)
    {
      MulMonotone(i + 1, height, width);
      for j := 0 to width
        invariant Filled(data, noise, width, height, i * width + j)
      {
        WritePixel(data, noise, width, height, i, j);
      }
      assert i * width + width == (i + 1) * width;
    }
  }

  /** The first n pixels of the buffer hold their final bytes. */
  ghost predicate Filled(data: array<int>, noise: (real, real) -> real, width: nat, height: nat, n: nat)
    reads data
  {
    && data.Length == 4 * (width * height)
    && n <= width * height
    && forall q, c :: 0 <= q < n && 0 <= c < 4 ==> data[4 * q + c] == PixelByte(noise, width, height, q, c)
  }

  /** The body of the inner loop: the four bytes of pixel (i, j), at offset (i * width + j) * 4. */
  method WritePixel(data: array<int>, noise: (real, real) -> real, width: nat, height: nat, i: nat, j: nat)
    requires i < height && j < width
    requires Filled(data, noise, width, height, i * width + j)
    modifies data
    ensures Filled(data, noise, width, height, i * width + j + 1)
  {
    var pixel := i * width + j;
    var value := PixelValue(noise, width, height, i, j);
    TexturePixel(noise, width, height, i, j, 0);
    forall c | 0 <= c < 4
      ensures PixelByte(noise, width, height, pixel, c) == if c == 3 then 255 else value
    {
      TexturePixel(noise, width, height, i, j, c);
    }
    StorePixel(data, noise, width, height, pixel, value);
  }

  /** The four stores of one pixel at offset pixel * 4: grey level in R, G and B, 255 in A. */
  method StorePixel(data: array<int>, noise: (real, real) -> real, width: nat, height: nat, pixel: nat, value: int)
    requires pixel < width * height
    requires Filled(data, noise, width, height, pixel)
    requires forall c :: 0 <= c < 4 ==> PixelByte(noise, width, height, pixel, c) == if c == 3 then 255 else value
    modifies data
    ensures Filled(data, noise, width, height, pixel + 1)
  {
    var stride := pixel * 4;
    data[stride] := value;
    data[stride + 1] := value;
    data[stride + 2] := value;
    data[stride + 3] := 255;
  }

  /** In row/column terms: pixel (i, j) sits at offset (i * width + j) * 4 and has R = G = B = its grey level, A = 255. */
  lemma TexturePixel(noise: (real, real) -> real, width: nat, height: nat, i: nat, j: nat, c: nat)
    requires i < height && j < width && c < 4
    ensures i * width + j < width * height
    ensures PixelByte(noise, width, height, i * width + j, c) ==
      if c == 3 then 255 else PixelValue(noise, width, height, i, j)
  {
    MulMonotone(i + 1, height, width);
    PixelNumber(i, j, width);
  }

  /** Distinct pixels have disjoint four-byte slots, so each byte is written exactly once. */
  lemma SlotsDisjoint(width: nat, i1: nat, j1: nat, c1: nat, i2: nat, j2: nat, c2: nat)
    requires j1 < width && j2 < width && c1 < 4 && c2 < 4
    requires (i1 * width + j1) * 4 + c1 == (i2 * width + j2) * 4 + c2
    ensures i1 == i2 && j1 == j2 && c1 == c2
  {
    PixelNumber(i1, j1, width);
    PixelNumber(i2, j2, width);
  }
}
