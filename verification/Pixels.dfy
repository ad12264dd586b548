/**
 Premultiplied pixels (src/pixels.rs). A pixel is its four bytes; a bitmap is its rows.
 All byte arithmetic is written on integers and shown to stay within the code's u16 and u8.
 */
module Pixels {
  import opened Arithmetic

  type Byte = x: int | 0 <= x < 256

  datatype Pixel = Pixel(blue: Byte, green: Byte, red: Byte, alpha: Byte)

  /** An image to read from, by column and row. */
  datatype Image = Image(width: nat, height: nat, at: (int, int) -> Pixel)

  /** Every colour is at most the alpha. */
  predicate Premultiplied(p: Pixel) {
    p.blue <= p.alpha && p.green <= p.alpha && p.red <= p.alpha
  }

  const CLEAR := Pixel(0, 0, 0, 0)
  const BLACK := Pixel(0, 0, 0, 255)
  const WHITE := Pixel(255, 255, 255, 255)

  // ---- One pixel over another --------------------------------------------

  /** The sum before it is clamped; the code computes it in 16 bits. */
  function Blend(source: Byte, destination: Byte, alpha: Byte): (r: nat)
    ensures destination * (255 - alpha) + 127 < 0x10000 && r < 0x10000
  {
    MulBound(destination, 255 - alpha);
    source + (destination * (255 - alpha) + 127) / 255
  }

  lemma MulBound(a: Byte, b: Byte)
    ensures 0 <= a * b <= 255 * b && a * b <= 255 * a
  {
    MulMonotone(a, 255, b);
    MulMonotone(b, 255, a);
  }

  function Clamp(x: nat): Byte {
    if x < 255 then x else 255
  }

  function Over(d: Pixel, s: Pixel): Pixel {
    Pixel(Clamp(Blend(s.blue, d.blue, s.alpha)), Clamp(Blend(s.green, d.green, s.alpha)),
          Clamp(Blend(s.red, d.red, s.alpha)), Clamp(Blend(s.alpha, d.alpha, s.alpha)))
  }

  lemma BlendMonotone(s: Byte, s': Byte, d: Byte, d': Byte, alpha: Byte)
    requires s <= s' && d <= d'
    ensures Blend(s, d, alpha) <= Blend(s', d', alpha)
  {
    MulMonotone(d, d', 255 - alpha);
    DivMonotone(d * (255 - alpha) + 127, d' * (255 - alpha) + 127, 255);
  }

  lemma BlendOfOpaque(alpha: Byte)
    ensures Blend(alpha, 255, alpha) == 255
  {
    assert (255 * (255 - alpha) + 127) / 255 == 255 - alpha;
  }

  /** On premultiplied pixels the clamp never takes effect, and the result is premultiplied. */
  lemma OverPremultiplied(d: Pixel, s: Pixel)
    requires Premultiplied(d) && Premultiplied(s)
    ensures Premultiplied(Over(d, s))
    ensures Blend(s.blue, d.blue, s.alpha) <= 255 && Blend(s.green, d.green, s.alpha) <= 255
    ensures Blend(s.red, d.red, s.alpha) <= 255 && Blend(s.alpha, d.alpha, s.alpha) <= 255
  {
    BlendMonotone(s.blue, s.alpha, d.blue, d.alpha, s.alpha);
    BlendMonotone(s.green, s.alpha, d.green, d.alpha, s.alpha);
    BlendMonotone(s.red, s.alpha, d.red, d.alpha, s.alpha);
    BlendMonotone(s.alpha, s.alpha, d.alpha, 255, s.alpha);
    BlendOfOpaque(s.alpha);
  }

  /** The clamp is needed exactly by pixels that are not: for some destination it takes effect
      if and only if a colour of the source exceeds its alpha. */
  lemma ClampIsForOthers(s: Pixel)
    ensures Premultiplied(s) <==>
      forall d: Pixel :: Premultiplied(d) ==>
        Blend(s.blue, d.blue, s.alpha) <= 255 && Blend(s.green, d.green, s.alpha) <= 255
        && Blend(s.red, d.red, s.alpha) <= 255
  {
    if Premultiplied(s) {
      forall d: Pixel | Premultiplied(d)
        ensures Blend(s.blue, d.blue, s.alpha) <= 255 && Blend(s.green, d.green, s.alpha) <= 255
        ensures Blend(s.red, d.red, s.alpha) <= 255
      {
        OverPremultiplied(d, s);
      }
    } else {
      assert (255 * (255 - s.alpha) + 127) / 255 == 255 - s.alpha;
      assert Premultiplied(WHITE);
    }
  }

  /** A clear pixel changes nothing, and an opaque one covers everything. */
  lemma OverEnds(d: Pixel, s: Pixel)
    ensures Over(d, CLEAR) == d
    ensures s.alpha == 255 ==> Over(d, s) == s
  {
    assert forall c: Byte :: Blend(0, c, 0) == c;
    assert forall c: Byte, e: Byte :: Blend(c, e, 255) == c;
  }

  /** `premultiply`: every colour scaled by the alpha, to the nearest byte. */
  function Premultiply(blue: Byte, green: Byte, red: Byte, alpha: Byte): (p: Pixel)
    ensures Premultiplied(p) && p.alpha == alpha
    ensures alpha == 255 ==> p == Pixel(blue, green, red, 255)
  {
    Pixel(Scaled(blue, alpha), Scaled(green, alpha), Scaled(red, alpha), alpha)
  }

  function Scaled(component: Byte, alpha: Byte): (r: Byte)
    ensures r <= alpha && (alpha == 255 ==> r == component)
    ensures component * alpha - 127 <= 255 * r <= component * alpha + 127
  {
    MulMonotone(component, 255, alpha);
    DivMonotone(component * alpha + 127, 255 * alpha + 127, 255);
    assert (255 * alpha + 127) / 255 == alpha;
    assert alpha == 255 ==> (component * 255 + 127) / 255 == component;
    (component * alpha + 127) / 255
  }

  // ---- Recovering alpha --------------------------------------------------

  function Excess(white: Byte, black: Byte): Byte {
    if black <= white then white - black else 0
  }

  /** The pixel whose rendering over black and over white these are. */
  function Recover(black: Pixel, white: Pixel): Pixel {
    var difference := Excess(white.blue, black.blue) + Excess(white.green, black.green) + Excess(white.red, black.red);
    var alpha: Byte := 255 - (difference + 1) / 3;
    var least := (c: Byte) => if c < alpha then c else alpha;
    Pixel(least(black.blue), least(black.green), least(black.red), alpha)
  }

  /** Whatever the renderings, what is recovered is premultiplied. */
  lemma RecoverPremultiplied(black: Pixel, white: Pixel)
    ensures Premultiplied(Recover(black, white))
  {
  }

  lemma OverBlackAndWhite(p: Pixel)
    requires Premultiplied(p)
    ensures Over(BLACK, p) == Pixel(p.blue, p.green, p.red, 255)
    ensures Over(WHITE, p)
         == Pixel(p.blue + (255 - p.alpha), p.green + (255 - p.alpha), p.red + (255 - p.alpha), 255)
  {
    assert (255 * (255 - p.alpha) + 127) / 255 == 255 - p.alpha;
    assert (0 * (255 - p.alpha) + 127) / 255 == 0;
  }

  /** Rendering over black and over white loses nothing: the pixel is recovered exactly. */
  lemma RecoverIsInverse(p: Pixel)
    requires Premultiplied(p)
    ensures Recover(Over(BLACK, p), Over(WHITE, p)) == p
  {
    OverBlackAndWhite(p);
    var inverse := 255 - p.alpha;
    assert (inverse + inverse + inverse + 1) / 3 == inverse;
  }

  // ---- Averaging ---------------------------------------------------------

  /** The rounded average of `samples` bytes that sum to `sum`. */
  function Average(sum: nat, samples: nat): (r: Byte)
    requires samples > 0 && sum <= 255 * samples
    ensures 2 * sum - samples <= 2 * samples * r <= 2 * sum + samples
  {
    var total := sum + samples / 2;
    var r := total / samples;
    assert total == r * samples + total % samples;
    assert r <= 255 by {
      if r >= 256 {
        MulMonotone(256, r, samples);
      }
    }
    r
  }

  lemma AverageMonotone(sum: nat, sum': nat, samples: nat)
    requires samples > 0 && sum <= sum' <= 255 * samples
    ensures Average(sum, samples) <= Average(sum', samples)
  {
    DivMonotone(sum + samples / 2, sum' + samples / 2, samples);
  }

  datatype Sums = Sums(blue: nat, green: nat, red: nat, alpha: nat)

  function Add(sums: Sums, p: Pixel): Sums {
    Sums(sums.blue + p.blue, sums.green + p.green, sums.red + p.red, sums.alpha + p.alpha)
  }

  /** The sums over the first `k` samples of a block, row by row. */
  function BlockSums(image: Image, factor: nat, x: int, y: int, k: nat): Sums
    requires factor > 0
  {
    if k == 0 then Sums(0, 0, 0, 0)
    else Add(BlockSums(image, factor, x, y, k - 1),
             image.at(x * factor + (k - 1) % factor, y * factor + (k - 1) / factor))
  }

  ghost predicate Within(sums: Sums, k: nat) {
    sums.blue <= 255 * k && sums.green <= 255 * k && sums.red <= 255 * k && sums.alpha <= 255 * k
  }

  lemma {:induction false} BlockSumsWithin(image: Image, factor: nat, x: int, y: int, k: nat)
    requires factor > 0
    ensures Within(BlockSums(image, factor, x, y, k), k)
  {
    if k > 0 {
      BlockSumsWithin(image, factor, x, y, k - 1);
    }
  }

  function Downsampled(image: Image, factor: nat, x: int, y: int): Pixel
    requires factor > 0
  {
    var samples := factor * factor;
    var sums := BlockSums(image, factor, x, y, samples);
    BlockSumsWithin(image, factor, x, y, samples);
    Pixel(Average(sums.blue, samples), Average(sums.green, samples), Average(sums.red, samples),
          Average(sums.alpha, samples))
  }

  predicate Inside(width: nat, height: nat, x: int, y: int) {
    0 <= x < width && 0 <= y < height
  }

  /** Every pixel of the image is premultiplied. */
  ghost predicate AllPremultiplied(image: Image) {
    forall x: int, y: int :: Inside(image.width, image.height, x, y) ==> Premultiplied(image.at(x, y))
  }

  /** Every sample of a whole block lies in the image. */
  lemma SampleIsInside(width: nat, height: nat, factor: nat, x: int, y: int, k: nat)
    requires factor > 0 && Inside(width / factor, height / factor, x, y) && k < factor * factor
    ensures Inside(width, height, x * factor + k % factor, y * factor + k / factor)
  {
    BlockIsInside(width, factor, x);
    BlockIsInside(height, factor, y);
    RowsOfABlock(factor, k);
  }

  lemma RowsOfABlock(factor: nat, k: nat)
    requires factor > 0 && k < factor * factor
    ensures 0 <= k / factor < factor && 0 <= k % factor < factor
  {
    assert k == k / factor * factor + k % factor;
    if k / factor >= factor {
      MulMonotone(factor, k / factor, factor);
    }
  }

  lemma BlockIsInside(length: nat, factor: nat, x: int)
    requires factor > 0 && 0 <= x < length / factor
    ensures 0 <= x * factor && x * factor + factor <= length
  {
    MulMonotone(0, x, factor);
    MulMonotone(x + 1, length / factor, factor);
    assert length == length / factor * factor + length % factor;
    assert (x + 1) * factor == x * factor + factor;
  }

  lemma {:induction false} BlockSumsPremultiplied(image: Image, factor: nat, x: int, y: int, k: nat)
    requires factor > 0 && AllPremultiplied(image)
    requires Inside(image.width / factor, image.height / factor, x, y) && k <= factor * factor
    ensures var sums := BlockSums(image, factor, x, y, k);
      sums.blue <= sums.alpha && sums.green <= sums.alpha && sums.red <= sums.alpha
  {
    if k > 0 {
      BlockSumsPremultiplied(image, factor, x, y, k - 1);
      SampleIsInside(image.width, image.height, factor, x, y, k - 1);
    }
  }

  /** Averaging the blocks of a premultiplied image gives premultiplied pixels. */
  lemma DownsampledPremultiplied(image: Image, factor: nat, x: int, y: int)
    requires factor > 0 && AllPremultiplied(image) && Inside(image.width / factor, image.height / factor, x, y)
    ensures Premultiplied(Downsampled(image, factor, x, y))
  {
    var samples := factor * factor;
    var sums := BlockSums(image, factor, x, y, samples);
    BlockSumsWithin(image, factor, x, y, samples);
    BlockSumsPremultiplied(image, factor, x, y, samples);
    AverageMonotone(sums.blue, sums.alpha, samples);
    AverageMonotone(sums.green, sums.alpha, samples);
    AverageMonotone(sums.red, sums.alpha, samples);
  }

  // ---- Whole bitmaps -----------------------------------------------------

  /** `compose`: the source over the destination, or nothing at all if it does not fit. */
  method Compose(destination: array2<Pixel>, source: Image, x: int, y: int) returns (ok: bool)
    modifies destination
    ensures ok <==> 0 <= x && 0 <= y && source.width <= destination.Length1 - x && source.height <= destination.Length0 - y
    ensures forall py, px :: 0 <= py < destination.Length0 && 0 <= px < destination.Length1 ==>
      destination[py, px]
      == if ok && Inside(source.width, source.height, px - x, py - y)
         then Over(old(destination[py, px]), source.at(px - x, py - y)) else old(destination[py, px])
  {
    if !(0 <= x && 0 <= y && source.width <= destination.Length1 - x && source.height <= destination.Length0 - y) {
      return false;
    }
    var sy := 0;
    while sy < source.height
      invariant 0 <= sy <= source.height
      invariant forall py, px :: 0 <= py < destination.Length0 && 0 <= px < destination.Length1 ==>
        destination[py, px]
        == if py < y + sy && Inside(source.width, source.height, px - x, py - y)
           then Over(old(destination[py, px]), source.at(px - x, py - y)) else old(destination[py, px])
    {
      var sx := 0;
      while sx < source.width
        invariant 0 <= sx <= source.width
        invariant forall py, px :: 0 <= py < destination.Length0 && 0 <= px < destination.Length1 ==>
          destination[py, px]
          == if (py < y + sy || (py == y + sy && px < x + sx)) && Inside(source.width, source.height, px - x, py - y)
             then Over(old(destination[py, px]), source.at(px - x, py - y)) else old(destination[py, px])
      {
        destination[y + sy, x + sx] := Over(destination[y + sy, x + sx], source.at(sx, sy));
        sx := sx + 1;
      }
      sy := sy + 1;
    }
    ok := true;
  }

  /** `recover_alpha`, pixel by pixel. */
  method RecoverAlpha(black: array2<Pixel>, white: array2<Pixel>) returns (image: array2<Pixel>)
    requires black.Length0 == white.Length0 && black.Length1 == white.Length1
    ensures fresh(image) && image.Length0 == black.Length0 && image.Length1 == black.Length1
    ensures forall y, x :: 0 <= y < image.Length0 && 0 <= x < image.Length1 ==>
      image[y, x] == Recover(black[y, x], white[y, x])
  {
    image := new Pixel[black.Length0, black.Length1]((_, _) => CLEAR);
    var y := 0;
    while y < image.Length0
      invariant 0 <= y <= image.Length0
      invariant forall j, i :: 0 <= j < y && 0 <= i < image.Length1 ==> image[j, i] == Recover(black[j, i], white[j, i])
    {
      var x := 0;
      while x < image.Length1
        invariant 0 <= x <= image.Length1
        invariant forall j, i :: 0 <= j < y && 0 <= i < image.Length1 ==> image[j, i] == Recover(black[j, i], white[j, i])
        invariant forall i :: 0 <= i < x ==> image[y, i] == Recover(black[y, i], white[y, i])
      {
        image[y, x] := Recover(black[y, x], white[y, x]);
        x := x + 1;
      }
      y := y + 1;
    }
  }

  /** The round trip of a whole bitmap: composited over black and over white and recovered, every
      premultiplied image comes back as it was. */
  method RecoverComposited(source: Image) returns (image: array2<Pixel>)
    requires AllPremultiplied(source)
    ensures fresh(image) && image.Length0 == source.height && image.Length1 == source.width
    ensures forall y, x :: 0 <= y < image.Length0 && 0 <= x < image.Length1 ==> image[y, x] == source.at(x, y)
  {
    var black := Composited(source, BLACK);
    var white := Composited(source, WHITE);
    image := RecoverAlpha(black, white);
    forall y, x | 0 <= y < image.Length0 && 0 <= x < image.Length1
      ensures image[y, x] == source.at(x, y)
    {
      assert Inside(source.width, source.height, x, y);
      RecoverIsInverse(source.at(x, y));
    }
  }

  /** A surface of one colour with the image composited onto it. */
  method Composited(source: Image, base: Pixel) returns (surface: array2<Pixel>)
    ensures fresh(surface) && surface.Length0 == source.height && surface.Length1 == source.width
    ensures forall y, x :: 0 <= y < surface.Length0 && 0 <= x < surface.Length1 ==>
      surface[y, x] == Over(base, source.at(x, y))
  {
    surface := new Pixel[source.height, source.width]((_, _) => base);
    assert forall y, x :: 0 <= y < surface.Length0 && 0 <= x < surface.Length1 ==> surface[y, x] == base;
    label Plain:
    var ok := Compose(surface, source, 0, 0);
    forall y, x | 0 <= y < surface.Length0 && 0 <= x < surface.Length1
      ensures surface[y, x] == Over(base, source.at(x, y))
    {
      assert old@Plain(surface[y, x]) == base && Inside(source.width, source.height, x - 0, y - 0);
    }
  }

  /** The sums of one block, as the two inner loops of `downsample` add them up. */
  method SumBlock(image: Image, factor: nat, x: int, y: int) returns (sums: Sums)
    requires factor > 0
    ensures sums == BlockSums(image, factor, x, y, factor * factor)
  {
    sums := Sums(0, 0, 0, 0);
    var dy := 0;
    ghost var k: nat := 0;
    while dy < factor
      invariant 0 <= dy <= factor && k == dy * factor
      invariant sums == BlockSums(image, factor, x, y, k)
    {
      var dx := 0;
      while dx < factor
        invariant 0 <= dx <= factor && k == dy * factor + dx
        invariant sums == BlockSums(image, factor, x, y, k)
      {
        SampleAt(factor, dx, dy);
        sums := Add(sums, image.at(x * factor + dx, y * factor + dy));
        k := k + 1;
        dx := dx + 1;
      }
      assert (dy + 1) * factor == dy * factor + factor;
      dy := dy + 1;
    }
  }

  lemma SampleAt(factor: nat, dx: nat, dy: nat)
    requires dx < factor
    ensures dy * factor + dx >= 0 && (dy * factor + dx) % factor == dx && (dy * factor + dx) / factor == dy
  {
    assert dy * factor >= 0;
    DivModIs(dy * factor + dx, dy, dx, factor);
  }

  /** `downsample`: every pixel is the average of its block. */
  method Downsample(image: Image, factor: nat) returns (output: array2<Pixel>)
    requires factor > 0 && image.width % factor == 0 && image.height % factor == 0
    ensures fresh(output) && output.Length0 == image.height / factor && output.Length1 == image.width / factor
    ensures forall y, x :: 0 <= y < output.Length0 && 0 <= x < output.Length1 ==>
      output[y, x] == Downsampled(image, factor, x, y)
  {
    output := new Pixel[image.height / factor, image.width / factor]((_, _) => CLEAR);
    var samples := factor * factor;
    var y := 0;
    while y < output.Length0
      invariant 0 <= y <= output.Length0
      invariant forall j, i :: 0 <= j < y && 0 <= i < output.Length1 ==> output[j, i] == Downsampled(image, factor, i, j)
    {
      var x := 0;
      while x < output.Length1
        invariant 0 <= x <= output.Length1
        invariant forall j, i :: 0 <= j < y && 0 <= i < output.Length1 ==> output[j, i] == Downsampled(image, factor, i, j)
        invariant forall i :: 0 <= i < x ==> output[y, i] == Downsampled(image, factor, i, y)
      {
        var sums := SumBlock(image, factor, x, y);
        BlockSumsWithin(image, factor, x, y, samples);
        output[y, x] := Pixel(Average(sums.blue, samples), Average(sums.green, samples),
                              Average(sums.red, samples), Average(sums.alpha, samples));
        x := x + 1;
      }
      y := y + 1;
    }
  }
}
