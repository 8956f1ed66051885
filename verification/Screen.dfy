/** Console frames (internal/hyperv/screen.go): decoding RGB565, and the verdict
    that a frame is blank. */
module Screen {
  import opened Wrappers

  type Byte = x: int | 0 <= x < 256
  type Word = x: int | 0 <= x < 0x1_0000

  datatype Colour = Colour(r: Byte, g: Byte, b: Byte)

  // ---- one pixel -----------------------------------------------------------------------

  // The bit operations, written as arithmetic: where the source ors two parts
  // together they share no bit, so the or is a sum (see OrsAreSums).

  // Sixteen bits, low byte first.
  function WordOf(low: Byte, high: Byte): Word { low + 256 * high }

  // Five bits of red, six of green, five of blue.
  function Red(v: Word): Byte { v / 2048 }
  function Green(v: Word): Byte { v / 32 % 64 }
  function Blue(v: Word): Byte { v % 32 }

  // Widening repeats a channel's high bits below it.
  function Widen5(c: Byte): Byte
    requires c < 32
  {
    8 * c + c / 4
  }

  function Widen6(c: Byte): Byte
    requires c < 64
  {
    4 * c + c / 16
  }

  lemma OrsAreSums(low: bv16, high: bv16, r: bv16, g: bv16)
    ensures low < 256 && high < 256 ==> low | (high << 8) == low + 256 * high
    ensures r < 32 ==> (r << 3) | (r >> 2) == 8 * r + r / 4
    ensures g < 64 ==> (g << 2) | (g >> 4) == 4 * g + g / 16
  {
  }

  function Decoded(v: Word): Colour { Colour(Widen5(Red(v)), Widen6(Green(v)), Widen5(Blue(v))) }

  // Taking the high bits of each channel back.
  function Packed(c: Colour): Word { c.r / 8 * 2048 + c.g / 4 * 32 + c.b / 8 }

  lemma PackingInvertsDecoding(v: Word)
    ensures Packed(Decoded(v)) == v
  {
    hide Widen5, Widen6;
    var r: int, g: int, b: int := Red(v), Green(v), Blue(v);
    HighBitsStay(r, g);
    HighBitsStay(b, g);
    PartsMakeTheWord(v);
    assert Packed(Decoded(v)) == r * 2048 + g * 32 + b;
  }

  lemma HighBitsStay(c: Byte, g: Byte)
    ensures c < 32 ==> Widen5(c) / 8 == c
    ensures g < 64 ==> Widen6(g) / 4 == g
  {
  }

  lemma PartsMakeTheWord(v: Word)
    ensures Red(v) * 2048 + Green(v) * 32 + Blue(v) == v
    ensures Red(v) < 32 && Green(v) < 64 && Blue(v) < 32
  {
    assert v / 32 / 64 == v / 2048;
  }

  // Widening keeps the order, maps zero to zero and full scale to 255, and is
  // off exact scaling (255 * a / 31, and 255 * a / 63) by less than one.
  lemma Widen5Scales(a: Byte, b: Byte)
    requires a < 32 && b < 32
    ensures a < b ==> Widen5(a) < Widen5(b)
    ensures Widen5(0) == 0 && Widen5(31) == 255
    ensures -31 < 31 * Widen5(a) - 255 * a < 31
    ensures Widen5(a) / 8 == a && Widen5(a) % 8 == a / 4
  {
  }

  lemma Widen6Scales(a: Byte, b: Byte)
    requires a < 64 && b < 64
    ensures a < b ==> Widen6(a) < Widen6(b)
    ensures Widen6(0) == 0 && Widen6(63) == 255
    ensures -63 < 63 * Widen6(a) - 255 * a < 63
    ensures Widen6(a) / 4 == a && Widen6(a) % 4 == a / 16
  {
  }

  lemma RedOf(low: Byte, high: Byte)
    ensures Red(WordOf(low, high)) == high / 8
  {
    assert WordOf(low, high) == 2048 * (high / 8) + (256 * (high % 8) + low);
  }

  lemma GreenOf(low: Byte, high: Byte)
    ensures Green(WordOf(low, high)) == high % 8 * 8 + low / 32
  {
    var part := high % 8 * 8 + low / 32;
    assert WordOf(low, high) == 32 * (64 * (high / 8) + part) + low % 32;
    assert WordOf(low, high) / 32 == 64 * (high / 8) + part;
  }

  lemma BlueOf(low: Byte, high: Byte)
    ensures Blue(WordOf(low, high)) == low % 32
  {
    assert WordOf(low, high) == 32 * (8 * high + low / 32) + low % 32;
  }

  // Which bits of a pixel's two bytes are whose: red has the high five of the second
  // byte, green the other three and the high three of the first, blue the rest.
  lemma PixelMeans(low: Byte, high: Byte)
    ensures var c := Decoded(WordOf(low, high));
            c.r / 8 == high / 8 && c.g / 4 == high % 8 * 8 + low / 32 && c.b / 8 == low % 32
  {
    hide Widen5, Widen6, Red, Green, Blue, WordOf;
    var v := WordOf(low, high);
    RedOf(low, high);
    GreenOf(low, high);
    BlueOf(low, high);
    HighBitsStay(Red(v), Green(v));
    HighBitsStay(Blue(v), Green(v));
  }

  // ---- a frame ------------------------------------------------------------------------

  function Words(frame: seq<Byte>, pixels: nat): seq<Word>
    requires 2 * pixels <= |frame|
  {
    seq(pixels, k requires 0 <= k < pixels => WordOf(frame[2 * k], frame[2 * k + 1]))
  }

  function Picture(words: seq<Word>): seq<Colour> {
    seq(|words|, k requires 0 <= k < |words| => Decoded(words[k]))
  }

  lemma PixelInFrame(x: nat, y: nat, width: nat, height: nat)
    requires x < width && y < height
    ensures y * width + x < width * height
  {
    assert (y + 1) * width <= height * width;
  }

  // decodeRGB565, row by row; the image is row-major.
  method DecodeRGB565(frame: seq<Byte>, width: nat, height: nat) returns (img: Option<array<Colour>>)
    ensures img.None? <==> |frame| < width * height * 2
    ensures img.Some? ==> fresh(img.value) && img.value[..] == Picture(Words(frame, width * height))
  {
    hide Decoded, WordOf;
    var want := width * height * 2;
    if |frame| < want {
      return None;
    }
    ghost var picture := Picture(Words(frame, width * height));
    var pix := new Colour[width * height](_ => Colour(0, 0, 0));
    for y := 0 to height
      invariant y * width <= width * height
      invariant forall k :: 0 <= k < y * width ==> pix[k] == picture[k]
    {
      assert y * width + width == (y + 1) * width <= height * width;
      for x := 0 to width
        invariant forall k :: 0 <= k < y * width + x ==> pix[k] == picture[k]
      {
        PixelInFrame(x, y, width, height);
        var k := y * width + x;
        var i := k * 2;
        pix[k] := Decoded(WordOf(frame[i], frame[i + 1]));
      }
    }
    img := Some(pix);
  }

  // Nothing is lost: the picture gives back the frame's first width*height*2 bytes.
  lemma PictureGivesBackTheFrame(frame: seq<Byte>, pixels: nat, i: nat)
    requires 2 * pixels <= |frame| && i < 2 * pixels
    ensures var word := Packed(Picture(Words(frame, pixels))[i / 2]);
            frame[i] == if i % 2 == 0 then word % 256 else word / 256
  {
    hide Decoded, Packed, WordOf;
    var k := i / 2;
    PackingInvertsDecoding(WordOf(frame[2 * k], frame[2 * k + 1]));
    assert Picture(Words(frame, pixels))[k] == Decoded(WordOf(frame[2 * k], frame[2 * k + 1]));
    BytesOfWord(frame[2 * k], frame[2 * k + 1]);
  }

  lemma BytesOfWord(low: Byte, high: Byte)
    ensures WordOf(low, high) % 256 == low && WordOf(low, high) / 256 == high
  {
  }

  // ---- the blank verdict -----------------------------------------------------------------

  function Occurrences<T(==)>(s: seq<T>, x: T): nat {
    if s == [] then 0 else Occurrences(s[..|s| - 1], x) + if s[|s| - 1] == x then 1 else 0
  }

  // `m` is how often the commonest element occurs.
  ghost predicate IsTop<T>(s: seq<T>, m: int) {
    && (forall i :: 0 <= i < |s| ==> Occurrences(s, s[i]) <= m)
    && (exists i :: 0 <= i < |s| && Occurrences(s, s[i]) == m)
  }

  lemma {:induction false} OccursSomewhere<T>(s: seq<T>, x: T)
    requires Occurrences(s, x) > 0
    ensures exists i :: 0 <= i < |s| && s[i] == x
  {
    if s[|s| - 1] != x {
      OccursSomewhere(s[..|s| - 1], x);
    }
  }

  // Go's int32, which wraps.
  function Wrapped(n: int): int { (n + 0x8000_0000) % 0x1_0000_0000 - 0x8000_0000 }

  // `best` is the largest counter after counting `words`, or zero.
  ghost predicate IsBestCounter(words: seq<Word>, best: int) {
    && best >= 0 && (forall i :: 0 <= i < |words| ==> Wrapped(Occurrences(words, words[i])) <= best)
    && (best == 0 || exists i :: 0 <= i < |words| && Wrapped(Occurrences(words, words[i])) == best)
  }

  lemma WrappingAddsUp(n: nat)
    ensures Wrapped(0) == 0 && Wrapped(Wrapped(n) + 1) == Wrapped(n + 1)
  {
  }

  lemma NoneYet<T>(s: seq<T>, x: T)
    ensures s == [] ==> Occurrences(s, x) == 0
  {
  }

  lemma OneMoreWord<T>(s: seq<T>, p: nat, x: T)
    requires p < |s|
    ensures Occurrences(s[..p + 1], x) == Occurrences(s[..p], x) + if x == s[p] then 1 else 0
  {
    assert s[..p + 1][..p] == s[..p];
  }

  // One bucket for each possible word.
  method Count(frame: seq<Byte>, pixels: nat) returns (counts: array<int>)
    requires 2 * pixels <= |frame|
    ensures fresh(counts) && counts.Length == 0x1_0000
    ensures forall v: Word :: counts[v] == Wrapped(Occurrences(Words(frame, pixels), v))
  {
    hide WordOf, Wrapped, Occurrences;
    ghost var words := Words(frame, pixels);
    WrappingAddsUp(0);
    forall v: Word
      ensures Occurrences(words[..0], v) == 0
    {
      NoneYet(words[..0], v);
    }
    counts := new int[0x1_0000](_ => 0);
    for p := 0 to pixels
      invariant forall v: Word :: counts[v] == Wrapped(Occurrences(words[..p], v))
    {
      var word := WordOf(frame[2 * p], frame[2 * p + 1]);
      forall v: Word
        ensures Occurrences(words[..p + 1], v) == Occurrences(words[..p], v) + if v == word then 1 else 0
      {
        OneMoreWord(words, p, v);
      }
      WrappingAddsUp(Occurrences(words[..p], word));
      counts[word] := Wrapped(counts[word] + 1);
    }
    assert words[..pixels] == words;
  }

  method Largest(counts: array<int>) returns (best: int)
    ensures best >= 0 && forall i :: 0 <= i < counts.Length ==> counts[i] <= best
    ensures best == 0 || exists i :: 0 <= i < counts.Length && counts[i] == best
  {
    best := 0;
    for j := 0 to counts.Length
      invariant best >= 0 && forall i :: 0 <= i < j ==> counts[i] <= best
      invariant best == 0 || exists i :: 0 <= i < j && counts[i] == best
    {
      if counts[j] > best {
        best := counts[j];
      }
    }
  }

  // dominantShare. `n` is the number of bytes that make up the frame, two a pixel.
  method DominantShare(frame: seq<Byte>, n: nat) returns (share: real)
    requires n % 2 == 0
    ensures n < 4 || |frame| < n ==> share == 0.0
    ensures n >= 4 && |frame| >= n ==>
              exists best :: IsBestCounter(Words(frame, n / 2), best) && share == best as real / (n / 2) as real
  {
    if n < 4 || |frame| < n {
      return 0.0;
    }
    var counts := Count(frame, n / 2);
    var best := Largest(counts);
    if best > 0 {
      var v: Word :| counts[v] == best;
      OccursSomewhere(Words(frame, n / 2), v);
    }
    assert IsBestCounter(Words(frame, n / 2), best);
    share := best as real / (n / 2) as real;
  }

  lemma {:induction false} OccurrencesBound<T>(s: seq<T>, x: T)
    ensures Occurrences(s, x) <= |s|
  {
    if s != [] {
      OccurrencesBound(s[..|s| - 1], x);
    }
  }

  const WRAPS_AT := 0x8000_0000

  ghost predicate NoneWraps(words: seq<Word>) {
    forall i :: 0 <= i < |words| ==> Occurrences(words, words[i]) < WRAPS_AT
  }

  // The best counter is the count of the commonest word exactly when no word occurs
  // 2^31 times, whatever the size of the frame.
  lemma BestIsTopUnlessOneWraps(words: seq<Word>, best: int)
    requires |words| > 0 && IsBestCounter(words, best)
    ensures IsTop(words, best) <==> NoneWraps(words)
  {
    WrappedFits();
    assert Occurrences(words, words[|words| - 1]) > 0;
  }

  lemma WrappedFits()
    ensures forall n: nat :: Wrapped(n) < WRAPS_AT && (n < WRAPS_AT ==> Wrapped(n) == n)
  {
  }

  // None does below 2^31 pixels; and a frame read from a .NET byte array, which is
  // shorter than 2^31 bytes, has fewer than 2^30.
  lemma NoCounterWraps(words: seq<Word>)
    requires |words| < WRAPS_AT
    ensures NoneWraps(words)
  {
    forall i | 0 <= i < |words|
      ensures Occurrences(words, words[i]) < WRAPS_AT
    {
      OccurrencesBound(words, words[i]);
    }
  }

  // With 2^31 pixels of a single colour the best counter is zero.
  lemma OneColourWraps(words: seq<Word>, best: int)
    requires |words| == WRAPS_AT && (forall i :: 0 <= i < |words| ==> words[i] == words[0])
    requires IsBestCounter(words, best)
    ensures best == 0
  {
    OneColour(words, words[0]);
  }

  lemma {:induction false} OneColour(words: seq<Word>, colour: Word)
    requires forall i :: 0 <= i < |words| ==> words[i] == colour
    ensures Occurrences(words, colour) == |words|
  {
    if words != [] {
      OneColour(words[..|words| - 1], colour);
    }
  }

  // Distinct words are distinct colours, so a colour occurs in the picture as
  // often as its word in the frame, and the commonest is as common in both.
  lemma {:induction false} PictureCounts(words: seq<Word>, v: Word)
    ensures Occurrences(Picture(words), Decoded(v)) == Occurrences(words, v)
  {
    if words != [] {
      var n := |words| - 1;
      PictureCounts(words[..n], v);
      assert Picture(words)[..n] == Picture(words[..n]);
      PackingInvertsDecoding(words[n]);
      PackingInvertsDecoding(v);
    }
  }

  lemma SameTop(words: seq<Word>, m: int)
    ensures IsTop(words, m) <==> IsTop(Picture(words), m)
  {
    forall i | 0 <= i < |words|
      ensures Occurrences(words, words[i]) == Occurrences(Picture(words), Picture(words)[i])
    {
      PictureCounts(words, words[i]);
    }
    if IsTop(words, m) {
      var i :| 0 <= i < |words| && Occurrences(words, words[i]) == m;
      assert Occurrences(Picture(words), Picture(words)[i]) == m;
    }
  }

  const BLANK_THRESHOLD := 0.999

  // The verdict in CaptureScreen, and the same judged from the picture: one
  // colour covers the threshold's share of it.
  ghost predicate OneColourCovers(picture: seq<Colour>) {
    exists m :: IsTop(picture, m) && m as real >= BLANK_THRESHOLD * |picture| as real
  }

  lemma TopIsUnique<T>(s: seq<T>, a: int, b: int)
    requires IsTop(s, a) && IsTop(s, b)
    ensures a == b
  {
  }

  method BlankVerdict(frame: seq<Byte>, width: nat, height: nat) returns (blank: bool)
    ensures width * height >= 2 && |frame| >= width * height * 2 && NoneWraps(Words(frame, width * height)) ==>
              (blank <==> OneColourCovers(Picture(Words(frame, width * height))))
    ensures |frame| >= width * height * 2 && |frame| < 0x8000_0000 ==> NoneWraps(Words(frame, width * height))
    ensures width * height < 2 || |frame| < width * height * 2 ==> !blank
  {
    var pixels := width * height;
    var share := DominantShare(frame, pixels * 2);
    blank := share >= BLANK_THRESHOLD;
    if |frame| >= pixels * 2 && |frame| < 0x8000_0000 {
      NoCounterWraps(Words(frame, pixels));
    }
    if pixels >= 2 && |frame| >= pixels * 2 && NoneWraps(Words(frame, pixels)) {
      ghost var words := Words(frame, pixels);
      ghost var best :| IsBestCounter(words, best) && share == best as real / pixels as real;
      BestIsTopUnlessOneWraps(words, best);
      SameTop(words, best);
      ShareMeans(best, pixels);
      forall m | IsTop(Picture(words), m)
        ensures m == best
      {
        TopIsUnique(Picture(words), m, best);
      }
    }
  }

  lemma ShareMeans(m: int, pixels: nat)
    requires pixels > 0
    ensures m as real / pixels as real >= BLANK_THRESHOLD <==> m as real >= BLANK_THRESHOLD * pixels as real
  {
    var share := m as real / pixels as real;
    assert share * pixels as real == m as real;
  }
}
