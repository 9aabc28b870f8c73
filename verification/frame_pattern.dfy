/** The float image patterns that a CUDA share is compared with (matrix.cpp). */
module FramePattern {
  import opened Concatenation
  import opened Arithmetic
  import opened ByteStrings

  /** The four bytes of a float. */
  type Float = w: seq<Byte> | |w| == 4 witness [0, 0, 0, 0]

  /** ratio is the float division; its words are not interpreted. */
  datatype Image = Image(width: nat, height: nat, frame: nat, ratio: (int, int) -> Float)

  // ----- the buffer, row by row -----

  function Channels(f: Image, x: nat, y: nat): seq<Float>
    requires x < f.width
  {
    [f.ratio((x + f.frame) % f.width, f.width - 1), f.ratio(y, f.height - 1), f.ratio((x + y) % f.width, f.width - 1)]
  }

  function Flat(words: seq<Float>): (r: seq<Byte>)
    ensures |r| == 4 * |words|
  {
    if words == [] then [] else Flat(words[..|words| - 1]) + words[|words| - 1]
  }

  /** The first x pixels of row y, each with the extra words behind its three channels. */
  function RowBytes(f: Image, extra: seq<Float>, y: nat, x: nat): seq<Byte>
    requires x <= f.width
  {
    if x == 0 then [] else RowBytes(f, extra, y, x - 1) + Flat(Channels(f, x - 1, y) + extra)
  }

  /** The first y rows. */
  function ImageBytes(f: Image, extra: seq<Float>, y: nat): seq<Byte> {
    if y == 0 then [] else ImageBytes(f, extra, y - 1) + RowBytes(f, extra, y - 1, f.width)
  }

  // ----- where the loops write -----

  function Offset(f: Image, channels: nat, y: nat, x: nat, c: nat): nat {
    ((y * f.width + x) * channels + c) * 4
  }

  function Size(f: Image, channels: nat): nat {
    f.width * f.height * channels * 4
  }

  /** Inside its loops, a word fits behind its offset. */
  lemma InBounds(f: Image, channels: nat, y: nat, x: nat, c: nat)
    requires y < f.height && x < f.width && c < channels
    ensures Offset(f, channels, y, x, c) + 4 <= Size(f, channels)
  {
    var p := y * f.width + x;
    Distributes(y, 1, f.width);
    ProductGrows(y + 1, f.height, f.width);
    assert p + 1 <= f.width * f.height;
    Distributes(p, 1, channels);
    ProductGrows(p + 1, f.width * f.height, channels);
  }

  /** Every byte of the buffer belongs to exactly one row, column, channel and byte of a word, so the
      loops write each byte once. */
  lemma EachByteOnce(f: Image, channels: nat, y: nat, x: nat, c: nat, b: nat, i: nat)
    requires x < f.width && c < channels && b < 4
    ensures i == Offset(f, channels, y, x, c) + b <==>
            b == i % 4 && c == i / 4 % channels && x == i / 4 / channels % f.width && y == i / 4 / channels / f.width
    ensures i < Size(f, channels) ==> i / 4 / channels / f.width < f.height
  {
    if i < Size(f, channels) {
      RowInside(f, channels, i);
    }
    var p := y * f.width + x;
    var w := p * channels + c;
    if i == w * 4 + b {
      QuotientUnique(w, channels, p, c);
      RemainderUnique(w, channels, p, c);
      QuotientUnique(p, f.width, y, x);
      RemainderUnique(p, f.width, y, x);
    }
    if b == i % 4 && c == i / 4 % channels && x == i / 4 / channels % f.width && y == i / 4 / channels / f.width {
      var q := i / 4;
      Divided(q, channels);
      Divided(q / channels, f.width);
    }
  }

  /** An offset inside the buffer lies in one of the image's rows. */
  lemma RowInside(f: Image, channels: nat, i: nat)
    requires 0 < f.width && 0 < channels && i < Size(f, channels)
    ensures i / 4 / channels / f.width < f.height
  {
    QuotientBelow(i, f.width * f.height * channels, 4);
    QuotientBelow(i / 4, f.width * f.height, channels);
    QuotientBelow(i / 4 / channels, f.height, f.width);
  }

  lemma Divided(n: nat, d: nat)
    requires d > 0
    ensures n / d * d + n % d == n
  {
  }

  lemma NextPixel(f: Image, channels: nat, y: nat, x: nat)
    ensures Offset(f, channels, y, x, channels) == Offset(f, channels, y, x + 1, 0)
  {
    Distributes(y * f.width + x, 1, channels);
  }

  lemma NextRow(f: Image, channels: nat, y: nat)
    ensures Offset(f, channels, y, f.width, 0) == Offset(f, channels, y + 1, 0, 0)
  {
    Distributes(y, 1, f.width);
  }

  lemma WholeBuffer(f: Image, channels: nat)
    ensures Offset(f, channels, f.height, 0, 0) == Size(f, channels)
  {
  }

  /** Both builders: extra is empty for RGB and the word of one for RGBA. */
  method BuildPattern(f: Image, extra: seq<Float>) returns (bytes: array<Byte>)
    ensures fresh(bytes) && bytes[..] == ImageBytes(f, extra, f.height)
  {
    var channels := 3 + |extra|;
    var size := Size(f, channels);
    bytes := new Byte[size](_ => 0);
    ghost var n: nat := 0;
    WholeBuffer(f, channels);
    for y := 0 to f.height
      invariant n == Offset(f, channels, y, 0, 0) <= size
      invariant bytes[..n] == ImageBytes(f, extra, y)
    {
      ghost var rows := ImageBytes(f, extra, y);
      n := BuildRow(f, extra, bytes, y, rows);
    }
    assert bytes[..size] == bytes[..];
  }

  /** The inner loops for one row. */
  method BuildRow(f: Image, extra: seq<Float>, bytes: array<Byte>, y: nat, ghost rows: seq<Byte>) returns (ghost n: nat)
    requires y < f.height && bytes.Length == Size(f, 3 + |extra|)
    requires Offset(f, 3 + |extra|, y, 0, 0) <= bytes.Length && bytes[..Offset(f, 3 + |extra|, y, 0, 0)] == rows
    modifies bytes
    ensures n == Offset(f, 3 + |extra|, y + 1, 0, 0) <= bytes.Length
    ensures bytes[..n] == rows + RowBytes(f, extra, y, f.width)
  {
    var channels := 3 + |extra|;
    n := Offset(f, channels, y, 0, 0);
    assert rows + [] == rows;
    for x := 0 to f.width
      invariant n == Offset(f, channels, y, x, 0) <= bytes.Length
      invariant bytes[..n] == rows + RowBytes(f, extra, y, x)
    {
      n := BuildPixel(f, Channels(f, x, y) + extra, bytes, y, x, rows + RowBytes(f, extra, y, x));
      Regroup(rows, RowBytes(f, extra, y, x), Flat(Channels(f, x, y) + extra));
    }
    NextRow(f, channels, y);
  }

  /** The innermost loop: the words of one pixel. */
  method BuildPixel(f: Image, values: seq<Float>, bytes: array<Byte>, y: nat, x: nat, ghost done: seq<Byte>)
    returns (ghost n: nat)
    requires y < f.height && x < f.width && bytes.Length == Size(f, |values|)
    requires Offset(f, |values|, y, x, 0) <= bytes.Length && bytes[..Offset(f, |values|, y, x, 0)] == done
    modifies bytes
    ensures n == Offset(f, |values|, y, x + 1, 0) <= bytes.Length
    ensures bytes[..n] == done + Flat(values)
  {
    n := Offset(f, |values|, y, x, 0);
    assert done + [] == done;
    for c := 0 to |values|
      invariant n == Offset(f, |values|, y, x, c) <= bytes.Length
      invariant bytes[..n] == done + Flat(values[..c])
    {
      InBounds(f, |values|, y, x, c);
      var offset := ((y * f.width + x) * |values| + c) * 4;
      var src := values[c];
      ghost var before := bytes[..n];
      bytes[offset + 0] := src[0];
      bytes[offset + 1] := src[1];
      bytes[offset + 2] := src[2];
      bytes[offset + 3] := src[3];
      n := n + 4;
      assert bytes[..n] == before + src;
      assert values[..c + 1][..c] == values[..c];
      Regroup(done, Flat(values[..c]), src);
    }
    assert values[..|values|] == values;
    NextPixel(f, |values|, y, x);
  }

  // ----- what the buffer holds -----

  lemma {:induction false} RowSize(f: Image, extra: seq<Float>, y: nat, x: nat)
    requires x <= f.width
    ensures |RowBytes(f, extra, y, x)| == x * ((3 + |extra|) * 4)
  {
    if x > 0 {
      RowSize(f, extra, y, x - 1);
      Distributes(x - 1, 1, (3 + |extra|) * 4);
    }
  }

  lemma {:induction false} ImageSize(f: Image, extra: seq<Float>, y: nat)
    ensures |ImageBytes(f, extra, y)| == y * (f.width * ((3 + |extra|) * 4))
  {
    if y > 0 {
      ImageSize(f, extra, y - 1);
      RowSize(f, extra, y - 1, f.width);
      Distributes(y - 1, 1, f.width * ((3 + |extra|) * 4));
    }
  }

  predicate WordAt(bytes: seq<Byte>, at: int, word: Float) {
    0 <= at && at + 4 <= |bytes| && bytes[at..at + 4] == word
  }

  lemma InFront(a: seq<Byte>, b: seq<Byte>, at: int, word: Float)
    requires WordAt(a, at, word)
    ensures WordAt(a + b, at, word)
  {
  }

  lemma InBack(a: seq<Byte>, b: seq<Byte>, at: int, word: Float)
    requires WordAt(b, at, word)
    ensures WordAt(a + b, |a| + at, word)
  {
  }

  lemma {:induction false} WordsInOrder(words: seq<Float>, c: nat)
    requires c < |words|
    ensures WordAt(Flat(words), 4 * c, words[c])
  {
    var n := |words| - 1;
    if c < n {
      WordsInOrder(words[..n], c);
      InFront(Flat(words[..n]), words[n], 4 * c, words[c]);
    } else {
      assert words[n][0..4] == words[n];
      InBack(Flat(words[..n]), words[n], 0, words[n]);
    }
  }

  /** A row holds the words of its pixels in order. */
  lemma {:induction false} PixelInRow(f: Image, extra: seq<Float>, y: nat, end: nat, x: nat, c: nat, size: nat)
    requires x < end <= f.width && c < 3 + |extra| && size == (3 + |extra|) * 4
    ensures WordAt(RowBytes(f, extra, y, end), x * size + 4 * c, (Channels(f, x, y) + extra)[c])
  {
    var before, words := RowBytes(f, extra, y, end - 1), Channels(f, end - 1, y) + extra;
    RowSize(f, extra, y, end - 1);
    assert |before| == (end - 1) * size;
    if x < end - 1 {
      PixelInRow(f, extra, y, end - 1, x, c, size);
      InFront(before, Flat(words), x * size + 4 * c, (Channels(f, x, y) + extra)[c]);
    } else {
      WordsInOrder(words, c);
      InBack(before, Flat(words), 4 * c, words[c]);
    }
  }

  lemma {:induction false} PixelInImage(f: Image, extra: seq<Float>, rows: nat, y: nat, x: nat, c: nat, size: nat,
                                        line: nat)
    requires y < rows && x < f.width && c < 3 + |extra| && size == (3 + |extra|) * 4 && line == f.width * size
    ensures WordAt(ImageBytes(f, extra, rows), y * line + (x * size + 4 * c), (Channels(f, x, y) + extra)[c])
  {
    var before, row := ImageBytes(f, extra, rows - 1), RowBytes(f, extra, rows - 1, f.width);
    var word := (Channels(f, x, y) + extra)[c];
    ImageSize(f, extra, rows - 1);
    if y < rows - 1 {
      PixelInImage(f, extra, rows - 1, y, x, c, size, line);
      InFront(before, row, y * line + (x * size + 4 * c), word);
    } else {
      PixelInRow(f, extra, y, f.width, x, c, size);
      InBack(before, row, x * size + 4 * c, word);
    }
  }

  lemma PlaceOfWord(f: Image, y: nat, x: nat, n: nat, c: nat, size: nat, line: nat)
    requires size == n * 4 && line == f.width * size
    ensures Offset(f, n, y, x, c) == y * line + (x * size + 4 * c)
  {
    var w := f.width;
    Distributes(y * w, x, n);
    Distributes(y * w * n + x * n, c, 4);
    Distributes(y * w * n, x * n, 4);
    Regrouped(y, w, n);
    Regrouped(1, x, n);
  }

  lemma Regrouped(y: nat, w: nat, n: nat)
    ensures y * w * n * 4 == y * (w * (n * 4))
  {
    assert w * n * 4 == w * (n * 4);
    assert y * w * n == y * (w * n);
    assert y * (w * n) * 4 == y * (w * n * 4);
  }

  /** The words of a pixel: its column shifted by the frame, its row, and column and row together, each as a part of the
      whole, then the extra words. */
  function WordOf(f: Image, extra: seq<Float>, y: nat, x: nat, c: nat): Float
    requires x < f.width && c < 3 + |extra|
  {
    if c == 0 then f.ratio((x + f.frame) % f.width, f.width - 1)
    else if c == 1 then f.ratio(y, f.height - 1)
    else if c == 2 then f.ratio((x + y) % f.width, f.width - 1)
    else extra[c - 3]
  }

  /** The built buffer holds the word of each row, column and channel where the loops write it. */
  lemma PixelAt(f: Image, extra: seq<Float>, y: nat, x: nat, c: nat)
    requires y < f.height && x < f.width && c < 3 + |extra|
    ensures WordAt(ImageBytes(f, extra, f.height), Offset(f, 3 + |extra|, y, x, c), WordOf(f, extra, y, x, c))
  {
    var n := 3 + |extra|;
    var size := n * 4;
    var line := f.width * size;
    PixelInImage(f, extra, f.height, y, x, c, size, line);
    PlaceOfWord(f, y, x, n, c, size, line);
  }

  // ----- RGB against RGBA -----

  /** The alpha word behind every twelve bytes. */
  function WithAlpha(rgb: seq<Byte>, alpha: Float): seq<Byte>
    decreases |rgb|
  {
    if |rgb| < 12 then [] else rgb[..12] + alpha + WithAlpha(rgb[12..], alpha)
  }

  lemma {:induction false} WithAlphaConcat(a: seq<Byte>, b: seq<Byte>, alpha: Float)
    requires |a| % 12 == 0
    ensures WithAlpha(a + b, alpha) == WithAlpha(a, alpha) + WithAlpha(b, alpha)
    decreases |a|
  {
    if a == [] {
      assert a + b == b;
    } else {
      assert (a + b)[..12] == a[..12] && (a + b)[12..] == a[12..] + b;
      WithAlphaConcat(a[12..], b, alpha);
      Regroup(a[..12] + alpha, WithAlpha(a[12..], alpha), WithAlpha(b, alpha));
    }
  }

  lemma PixelWithAlpha(rgb: seq<Float>, alpha: Float)
    requires |rgb| == 3
    ensures WithAlpha(Flat(rgb), alpha) == Flat(rgb + [alpha])
  {
    var s := Flat(rgb);
    assert (rgb + [alpha])[..3] == rgb;
    assert s[..12] == s && s[12..] == [];
    assert s + alpha + [] == s + alpha;
  }

  lemma {:induction false} RowWithAlpha(f: Image, alpha: Float, y: nat, x: nat)
    requires x <= f.width
    ensures |RowBytes(f, [], y, x)| % 12 == 0
    ensures WithAlpha(RowBytes(f, [], y, x), alpha) == RowBytes(f, [alpha], y, x)
  {
    if x > 0 {
      var rgb := Channels(f, x - 1, y);
      RowWithAlpha(f, alpha, y, x - 1);
      assert rgb + [] == rgb;
      WithAlphaConcat(RowBytes(f, [], y, x - 1), Flat(rgb), alpha);
      PixelWithAlpha(rgb, alpha);
    }
  }

  /** The expected RGBA rows are the uploaded RGB rows with the alpha word inserted behind each pixel's
      three channels. */
  lemma {:induction false} RowsWithAlpha(f: Image, alpha: Float, y: nat)
    ensures |ImageBytes(f, [], y)| % 12 == 0
    ensures WithAlpha(ImageBytes(f, [], y), alpha) == ImageBytes(f, [alpha], y)
  {
    if y > 0 {
      RowsWithAlpha(f, alpha, y - 1);
      RowWithAlpha(f, alpha, y - 1, f.width);
      var above, row := ImageBytes(f, [], y - 1), RowBytes(f, [], y - 1, f.width);
      WithAlphaConcat(above, row, alpha);
      SumOfTwelves(|above|, |row|);
    }
  }

  lemma SumOfTwelves(a: nat, b: nat)
    requires a % 12 == 0 && b % 12 == 0
    ensures (a + b) % 12 == 0
  {
  }
}
