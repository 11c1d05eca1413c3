/**
 * The frame layout layer of the video manipulation system: frames as
 * shaped pixel buffers, the pixel transforms reduced to what they do to a
 * frame's shape, and the concatenation of frames into strips and grids.
 */
module Frames {

  /** One 8-bit channel value. */
  type Channel = x: int | 0 <= x < 256

  /** A pixel holds one value per channel (blue, green, red for a colour frame). */
  type Pixel = seq<Channel>

  datatype Shape = Shape(height: nat, width: nat, channels: nat)

  /** A frame: its shape and its pixel rows, top to bottom. */
  datatype Frame = Frame(shape: Shape, rows: seq<seq<Pixel>>)

  /** The rows, their pixels and the pixels' channels agree with the shape. */
  predicate Conforms(f: Frame) {
    && |f.rows| == f.shape.height
    && (forall r :: 0 <= r < |f.rows| ==> |f.rows[r]| == f.shape.width)
    && (forall r, c :: 0 <= r < |f.rows| && 0 <= c < |f.rows[r]| ==> |f.rows[r][c]| == f.shape.channels)
  }

  /** A rectangular frame, as every array the imaging library hands out is. */
  type Image = f: Frame | Conforms(f) witness Frame(Shape(0, 0, 0), [])

  /** Why a concatenation fails. */
  datatype LayoutError =
    | NothingToConcatenate  // an empty list of frames
    | DimensionMismatch     // frames disagree on a dimension other than the joined one
    | ZeroStep              // a grid of zero columns

  datatype Result<+T> = Success(value: T) | Failure(error: LayoutError)

  /**
   * The pixel-level routines of the imaging library, which this model does
   * not look into: the luminance of a colour pixel, the value a Gaussian
   * blur with a kw x kh kernel gives channel ch at (r, c), whether the Canny
   * detector with the given thresholds marks (r, c) as an edge, and the
   * value the interpolation of a resize to dw x dh gives channel ch at (r, c).
   */
  datatype Imaging = Imaging(
    luma: Pixel -> Channel,
    smooth: (Image, nat, nat, nat, nat, nat) -> Channel,
    edge: (Image, int, int, nat, nat) -> bool,
    sample: (Image, nat, nat, nat, nat, nat) -> Channel)

  // ---------------------------------------------------------------------
  // Sequences of sequences
  // ---------------------------------------------------------------------

  function Sum(ns: seq<nat>): nat {
    if ns == [] then 0 else ns[0] + Sum(ns[1..])
  }

  /** The concatenation of all the pieces, in order. */
  function Flatten<T>(ss: seq<seq<T>>): seq<T> {
    if ss == [] then [] else ss[0] + Flatten(ss[1..])
  }

  /** An element of the flattening is an element of one of the pieces, and back. */
  lemma {:induction false} FlattenMembers<T>(ss: seq<seq<T>>)
    ensures forall x :: x in Flatten(ss) ==> exists k :: 0 <= k < |ss| && x in ss[k]
    ensures forall k, x :: 0 <= k < |ss| && x in ss[k] ==> x in Flatten(ss)
  {
    if ss != [] {
      FlattenMembers(ss[1..]);
      forall x | x in Flatten(ss[1..]) ensures exists k :: 0 <= k < |ss| && x in ss[k] {
        var j :| 0 <= j < |ss[1..]| && x in ss[1..][j];
        assert x in ss[j + 1];
      }
      forall k, x | 1 <= k < |ss| && x in ss[k] ensures x in Flatten(ss[1..]) {
        assert ss[k] == ss[1..][k - 1];
      }
    }
  }

  /** Every element of the flattening is an element of one of the pieces. */
  lemma {:induction false} FlattenIndex<T>(ss: seq<seq<T>>, i: nat) returns (k: nat, j: nat)
    requires i < |Flatten(ss)|
    ensures k < |ss| && j < |ss[k]| && Flatten(ss)[i] == ss[k][j]
  {
    assert ss != [];
    assert Flatten(ss) == ss[0] + Flatten(ss[1..]);
    if i < |ss[0]| {
      k, j := 0, i;
    } else {
      var k', j' := FlattenIndex(ss[1..], i - |ss[0]|);
      k, j := k' + 1, j';
    }
  }

  lemma {:induction false} FlattenLength<T>(ss: seq<seq<T>>, ns: seq<nat>)
    requires |ss| == |ns|
    requires forall k :: 0 <= k < |ss| ==> |ss[k]| == ns[k]
    ensures |Flatten(ss)| == Sum(ns)
  {
    if ss != [] {
      FlattenLength(ss[1..], ns[1..]);
    }
  }

  lemma {:induction false} SumUniform(ns: seq<nat>, v: nat)
    requires forall k :: 0 <= k < |ns| ==> ns[k] == v
    ensures Sum(ns) == |ns| * v
  {
    if ns != [] {
      SumUniform(ns[1..], v);
    }
  }

  /** In a flattening of pieces of one length, piece k starts at k * len. */
  lemma {:induction false} FlattenUniformAt<T>(ss: seq<seq<T>>, len: nat, k: nat, j: nat)
    requires forall i :: 0 <= i < |ss| ==> |ss[i]| == len
    requires k < |ss| && j < len
    ensures k * len + j < |Flatten(ss)| && Flatten(ss)[k * len + j] == ss[k][j]
  {
    if k == 0 {
      assert Flatten(ss) == ss[0] + Flatten(ss[1..]);
    } else {
      FlattenUniformAt(ss[1..], len, k - 1, j);
      assert k * len + j == len + ((k - 1) * len + j);
    }
  }

  /** In a flattening of pieces of one length, piece k is the slice starting at k * len. */
  lemma {:induction false} FlattenUniformSlice<T>(ss: seq<seq<T>>, len: nat, k: nat, start: nat)
    requires forall i :: 0 <= i < |ss| ==> |ss[i]| == len
    requires k < |ss| && start == k * len
    ensures start + len <= |Flatten(ss)| && Flatten(ss)[start .. start + len] == ss[k]
  {
    assert Flatten(ss) == ss[0] + Flatten(ss[1..]);
    if k == 0 {
      assert Flatten(ss)[0 .. len] == ss[0];
    } else {
      var before := start - len;
      assert before == (k - 1) * len;
      FlattenUniformSlice(ss[1..], len, k - 1, before);
      assert Flatten(ss)[start .. start + len] == Flatten(ss[1..])[before .. before + len];
    }
  }

  lemma MulNonneg(a: nat, b: nat)
    ensures 0 <= a * b
  {
  }

  lemma MulBound(a: nat, b: nat, m: nat, n: nat)
    requires a < m && b < n
    ensures a * n + b < m * n
  {
    assert (a + 1) * n <= m * n;
  }

  // ---------------------------------------------------------------------
  // Concatenation (utils.py hstack, vstack, grid)
  // ---------------------------------------------------------------------

  function Widths(imgs: seq<Image>): (ws: seq<nat>)
    ensures |ws| == |imgs| && forall k :: 0 <= k < |imgs| ==> ws[k] == imgs[k].shape.width
  {
    seq(|imgs|, k requires 0 <= k < |imgs| => imgs[k].shape.width)
  }

  function Heights(imgs: seq<Image>): (hs: seq<nat>)
    ensures |hs| == |imgs| && forall k :: 0 <= k < |imgs| ==> hs[k] == imgs[k].shape.height
  {
    seq(|imgs|, k requires 0 <= k < |imgs| => imgs[k].shape.height)
  }

  /** Every frame has the height and channel count of the first. */
  predicate RowsAgree(imgs: seq<Image>)
    requires |imgs| > 0
  {
    forall k :: 0 <= k < |imgs| ==>
      imgs[k].shape.height == imgs[0].shape.height && imgs[k].shape.channels == imgs[0].shape.channels
  }

  /** Every frame has the width and channel count of the first. */
  predicate ColumnsAgree(imgs: seq<Image>)
    requires |imgs| > 0
  {
    forall k :: 0 <= k < |imgs| ==>
      imgs[k].shape.width == imgs[0].shape.width && imgs[k].shape.channels == imgs[0].shape.channels
  }

  /** Row r of every frame, left to right. */
  function Pieces(imgs: seq<Image>, r: nat): (ps: seq<seq<Pixel>>)
    requires forall k :: 0 <= k < |imgs| ==> r < imgs[k].shape.height
    ensures |ps| == |imgs| && forall k :: 0 <= k < |imgs| ==> ps[k] == imgs[k].rows[r]
  {
    seq(|imgs|, k requires 0 <= k < |imgs| => imgs[k].rows[r])
  }

  function HStackFrame(imgs: seq<Image>): Frame
    requires |imgs| > 0 && RowsAgree(imgs)
  {
    var h := imgs[0].shape.height;
    Frame(Shape(h, Sum(Widths(imgs)), imgs[0].shape.channels),
          seq(h, r requires 0 <= r < h => Flatten(Pieces(imgs, r))))
  }

  lemma HStackConforms(imgs: seq<Image>)
    requires |imgs| > 0 && RowsAgree(imgs)
    ensures Conforms(HStackFrame(imgs))
  {
    var f := HStackFrame(imgs);
    forall r | 0 <= r < |f.rows|
      ensures |f.rows[r]| == f.shape.width
    {
      FlattenLength(Pieces(imgs, r), Widths(imgs));
    }
    forall r, c | 0 <= r < |f.rows| && 0 <= c < |f.rows[r]|
      ensures |f.rows[r][c]| == f.shape.channels
    {
      var k, j := FlattenIndex(Pieces(imgs, r), c);
    }
  }

  /** Side-by-side concatenation (numpy concatenate along the columns). */
  function HStack(imgs: seq<Image>): (res: Result<Image>)
    ensures res.Success? <==> |imgs| > 0 && RowsAgree(imgs)
    ensures |imgs| == 0 ==> res == Failure(NothingToConcatenate)
    ensures res.Failure? && |imgs| > 0 ==> res.error == DimensionMismatch
    ensures res.Success? ==>
      res.value.shape == Shape(imgs[0].shape.height, Sum(Widths(imgs)), imgs[0].shape.channels)
  {
    if |imgs| == 0 then Failure(NothingToConcatenate)
    else if !RowsAgree(imgs) then Failure(DimensionMismatch)
    else
      HStackConforms(imgs);
      Success(HStackFrame(imgs))
  }

  function VStackFrame(imgs: seq<Image>): Frame
    requires |imgs| > 0 && ColumnsAgree(imgs)
  {
    Frame(Shape(Sum(Heights(imgs)), imgs[0].shape.width, imgs[0].shape.channels),
          Flatten(seq(|imgs|, k requires 0 <= k < |imgs| => imgs[k].rows)))
  }

  lemma VStackConforms(imgs: seq<Image>)
    requires |imgs| > 0 && ColumnsAgree(imgs)
    ensures Conforms(VStackFrame(imgs))
  {
    var parts := seq(|imgs|, k requires 0 <= k < |imgs| => imgs[k].rows);
    var f := VStackFrame(imgs);
    FlattenLength(parts, Heights(imgs));
    forall r | 0 <= r < |f.rows|
      ensures |f.rows[r]| == f.shape.width
      ensures forall c :: 0 <= c < |f.rows[r]| ==> |f.rows[r][c]| == f.shape.channels
    {
      var k, j := FlattenIndex(parts, r);
    }
  }

  /** Top-to-bottom concatenation (numpy concatenate along the rows). */
  function VStack(imgs: seq<Image>): (res: Result<Image>)
    ensures res.Success? <==> |imgs| > 0 && ColumnsAgree(imgs)
    ensures |imgs| == 0 ==> res == Failure(NothingToConcatenate)
    ensures res.Failure? && |imgs| > 0 ==> res.error == DimensionMismatch
    ensures res.Success? ==>
      res.value.shape == Shape(Sum(Heights(imgs)), imgs[0].shape.width, imgs[0].shape.channels)
  {
    if |imgs| == 0 then Failure(NothingToConcatenate)
    else if !ColumnsAgree(imgs) then Failure(DimensionMismatch)
    else
      VStackConforms(imgs);
      Success(VStackFrame(imgs))
  }

  /**
   * The slices imgs[i:i+cols] for i = 0, cols, 2 * cols, ...: nonempty,
   * at most cols long, and together exactly imgs in order.
   */
  function Chunks<T>(s: seq<T>, cols: nat): (cs: seq<seq<T>>)
    requires cols > 0
    ensures forall i :: 0 <= i < |cs| ==> 0 < |cs[i]| <= cols
    decreases |s|
  {
    if s == [] then []
    else if |s| <= cols then [s]
    else [s[..cols]] + Chunks(s[cols..], cols)
  }

  /** The chunks are the whole sequence, in order. */
  lemma {:induction false} ChunksFlatten<T>(s: seq<T>, cols: nat)
    requires cols > 0
    ensures Flatten(Chunks(s, cols)) == s
    decreases |s|
  {
    var cs := Chunks(s, cols);
    if s == [] {
    } else if |s| <= cols {
      assert Flatten(cs) == s + Flatten(cs[1..]);
    } else {
      ChunksFlatten(s[cols..], cols);
      assert cs[1..] == Chunks(s[cols..], cols);
      assert s == s[..cols] + s[cols..];
    }
  }

  /** hstack of every chunk, in order; the first failure is the result. */
  function HStackEach(chunks: seq<seq<Image>>): (res: Result<seq<Image>>)
    ensures res.Success? ==> |res.value| == |chunks|
    ensures res.Success? ==> forall i :: 0 <= i < |chunks| ==> HStack(chunks[i]) == Success(res.value[i])
    ensures res.Success? <==> forall i :: 0 <= i < |chunks| ==> HStack(chunks[i]).Success?
    ensures res.Failure? ==> exists i :: 0 <= i < |chunks| && HStack(chunks[i]) == Failure(res.error)
  {
    if chunks == [] then Success([])
    else
      match HStack(chunks[0])
      case Failure(e) => Failure(e)
      case Success(strip) =>
        match HStackEach(chunks[1..])
        case Failure(e) =>
          assert exists i :: 0 <= i < |chunks| && HStack(chunks[i]) == Failure(e) by {
            var j :| 0 <= j < |chunks[1..]| && HStack(chunks[1..][j]) == Failure(e);
            assert HStack(chunks[j + 1]) == Failure(e);
          }
          Failure(e)
        case Success(strips) =>
          assert forall i :: 1 <= i < |chunks| ==> HStack(chunks[i]) == HStack(chunks[1..][i - 1]);
          Success([strip] + strips)
  }

  /**
   * The grid of utils.py: the frames are taken cols at a time, each group is
   * concatenated side by side, and the strips are stacked top to bottom.
   * A zero step is refused by Python's range; a negative one gives no strips.
   */
  function Grid(imgs: seq<Image>, cols: int): (res: Result<Image>)
    ensures cols == 0 ==> res == Failure(ZeroStep)
    ensures cols < 0 || |imgs| == 0 ==> res == Failure(NothingToConcatenate) || cols == 0
  {
    if cols == 0 then Failure(ZeroStep)
    else if cols < 0 then VStack([])
    else
      match HStackEach(Chunks(imgs, cols))
      case Failure(e) => Failure(e)
      case Success(strips) => VStack(strips)
  }

  /** The h x w block of f whose top-left pixel is at (top, left). */
  function Crop(f: Image, top: nat, left: nat, h: nat, w: nat): (b: Image)
    requires top + h <= f.shape.height && left + w <= f.shape.width
    ensures b.shape == Shape(h, w, f.shape.channels)
    ensures forall r, c :: 0 <= r < h && 0 <= c < w ==> b.rows[r][c] == f.rows[top + r][left + c]
  {
    Frame(Shape(h, w, f.shape.channels),
          seq(h, r requires 0 <= r < h => f.rows[top + r][left..left + w]))
  }

  lemma MulStep(a: nat, m: nat, n: nat)
    requires a < m
    ensures a * n + n <= m * n
  {
    assert a * n + n == (a + 1) * n;
  }

  // ---------------------------------------------------------------------
  // Frames of one shape
  // ---------------------------------------------------------------------

  /** Every frame has shape sh. */
  predicate AllShaped(imgs: seq<Image>, sh: Shape) {
    forall k :: 0 <= k < |imgs| ==> imgs[k].shape == sh
  }

  /** When chunk i is complete, it is s[i * cols .. i * cols + cols]. */
  lemma {:induction false} ChunkAt<T>(s: seq<T>, cols: nat, i: nat, start: nat)
    requires cols > 0 && start == i * cols && start + cols <= |s|
    ensures i < |Chunks(s, cols)| && Chunks(s, cols)[i] == s[start .. start + cols]
  {
    var cs := Chunks(s, cols);
    if i == 0 {
      assert s[0 .. cols] == s[..cols];
    } else {
      var rest := s[cols..];
      MulPred(i, cols);
      var before := (i - 1) * cols;
      assert before + cols == start;
      ChunkAt(rest, cols, i - 1, before);
      assert cs == [s[..cols]] + Chunks(rest, cols);
      assert cs[i] == Chunks(rest, cols)[i - 1];
      SliceOfSlice(s, cols, before, before + cols);
    }
  }

  lemma {:induction false} ChunksOfMultiple<T>(s: seq<T>, cols: nat, m: nat)
    requires cols > 0 && |s| == m * cols
    ensures |Chunks(s, cols)| == m
    ensures forall i :: 0 <= i < m ==>
      i * cols + cols <= |s| && Chunks(s, cols)[i] == s[i * cols .. i * cols + cols]
  {
    if m == 1 {
      assert Chunks(s, cols) == [s];
    } else if m > 1 {
      MulPred(m, cols);
      ChunksOfMultiple(s[cols..], cols, m - 1);
    }
    forall i | 0 <= i < m
      ensures i * cols + cols <= |s| && Chunks(s, cols)[i] == s[i * cols .. i * cols + cols]
    {
      MulStep(i, m, cols);
      ChunkAt(s, cols, i, i * cols);
    }
  }

  lemma SliceOfSlice<T>(s: seq<T>, a: nat, b: nat, c: nat)
    requires a <= |s| && b <= c <= |s| - a
    ensures s[a..][b..c] == s[a + b .. a + c]
  {
    forall j | 0 <= j < c - b
      ensures s[a..][b..c][j] == s[a + b .. a + c][j]
    {
    }
  }

  lemma MulPred(m: nat, n: nat)
    requires m > 0
    ensures (m - 1) * n + n == m * n
  {
  }

  /** Side by side, frames of one shape give a strip as wide as all of them. */
  lemma HStackUniform(row: seq<Image>, sh: Shape)
    requires |row| > 0 && AllShaped(row, sh)
    ensures HStack(row).Success?
    ensures HStack(row).value.shape == Shape(sh.height, |row| * sh.width, sh.channels)
  {
    SumUniform(Widths(row), sh.width);
  }

  /** Row row of f, from column left on, holds the w pixels of piece. */
  predicate RowSliceIs(f: Image, row: nat, left: nat, w: nat, piece: seq<Pixel>) {
    row < |f.rows| && left + w <= |f.rows[row]| && f.rows[row][left .. left + w] == piece
  }

  /** In a strip of frames of one shape, row r of frame j is the slice of row r starting at j * w. */
  lemma HStackUniformSlice(row: seq<Image>, sh: Shape, r: nat, j: nat, left: nat)
    requires |row| > 0 && AllShaped(row, sh)
    requires r < sh.height && j < |row| && left == j * sh.width
    ensures HStack(row).Success? && RowSliceIs(HStack(row).value, r, left, sh.width, row[j].rows[r])
  {
    HStackUniform(row, sh);
    var ps := Pieces(row, r);
    assert HStack(row).value.rows[r] == Flatten(ps);
    FlattenUniformSlice(ps, sh.width, j, left);
  }

  lemma VStackUniform(col: seq<Image>, sh: Shape)
    requires |col| > 0 && AllShaped(col, sh)
    ensures VStack(col).Success?
    ensures VStack(col).value.shape == Shape(|col| * sh.height, sh.width, sh.channels)
  {
    SumUniform(Heights(col), sh.height);
  }

  lemma VStackUniformAt(col: seq<Image>, sh: Shape, i: nat, r: nat)
    requires |col| > 0 && AllShaped(col, sh)
    requires i < |col| && r < sh.height
    ensures VStack(col).Success?
    ensures VStack(col).value.shape == Shape(|col| * sh.height, sh.width, sh.channels)
    ensures i * sh.height + r < |col| * sh.height
    ensures VStack(col).value.rows[i * sh.height + r] == col[i].rows[r]
  {
    VStackUniform(col, sh);
    MulBound(i, r, |col|, sh.height);
    var parts := seq(|col|, k requires 0 <= k < |col| => col[k].rows);
    assert VStack(col).value.rows == Flatten(parts);
    FlattenUniformAt(parts, sh.height, i, r);
  }

  /** Groups of cols frames of one shape join into strips of one shape, one per group. */
  lemma StripsShaped(cs: seq<seq<Image>>, cols: nat, sh: Shape)
    requires cols > 0
    requires forall i :: 0 <= i < |cs| ==> |cs[i]| == cols && AllShaped(cs[i], sh)
    ensures HStackEach(cs).Success? && |HStackEach(cs).value| == |cs|
    ensures AllShaped(HStackEach(cs).value, Shape(sh.height, cols * sh.width, sh.channels))
  {
    forall i | 0 <= i < |cs|
      ensures HStack(cs[i]).Success?
      ensures HStack(cs[i]).value.shape == Shape(sh.height, cols * sh.width, sh.channels)
    {
      HStackUniform(cs[i], sh);
    }
  }

  /** The strips of a grid of m * cols frames of one shape. */
  lemma GridStrips(imgs: seq<Image>, cols: nat, m: nat, sh: Shape) returns (strips: seq<Image>)
    requires cols > 0 && |imgs| == m * cols && AllShaped(imgs, sh)
    ensures HStackEach(Chunks(imgs, cols)) == Success(strips)
    ensures |strips| == m
    ensures AllShaped(strips, Shape(sh.height, cols * sh.width, sh.channels))
    ensures Grid(imgs, cols) == VStack(strips)
  {
    ChunksOfMultiple(imgs, cols, m);
    var cs := Chunks(imgs, cols);
    StripsShaped(cs, cols, sh);
    strips := HStackEach(cs).value;
  }

  /** Strip bi of a grid of m * cols frames of one shape joins frames lo .. hi - 1. */
  lemma StripAt(imgs: seq<Image>, cols: nat, m: nat, sh: Shape, bi: nat, lo: nat, hi: nat) returns (strips: seq<Image>)
    requires cols > 0 && |imgs| == m * cols && AllShaped(imgs, sh)
    requires lo == bi * cols && hi == lo + cols && hi <= |imgs|
    ensures |strips| == m && bi < m
    ensures AllShaped(strips, Shape(sh.height, cols * sh.width, sh.channels))
    ensures Grid(imgs, cols) == VStack(strips)
    ensures HStack(imgs[lo..hi]) == Success(strips[bi])
  {
    ChunkAt(imgs, cols, bi, lo);
    strips := GridStrips(imgs, cols, m, sh);
    var cs := Chunks(imgs, cols);
    assert |cs| == m;
    assert HStack(cs[bi]) == Success(strips[bi]);
  }

  /** A grid of m * cols frames of shape sh is m frames high and cols frames wide. */
  lemma GridUniform(imgs: seq<Image>, cols: nat, m: nat, sh: Shape)
    requires cols > 0 && m > 0 && |imgs| == m * cols && AllShaped(imgs, sh)
    ensures Grid(imgs, cols).Success?
    ensures Grid(imgs, cols).value.shape == Shape(m * sh.height, cols * sh.width, sh.channels)
  {
    var strips := GridStrips(imgs, cols, m, sh);
    VStackUniform(strips, Shape(sh.height, cols * sh.width, sh.channels));
  }

  /** Rows top .. top + h of g are the rows of strip, which has at least h rows. */
  predicate RowsAt(g: Image, top: nat, strip: Image, h: nat) {
    forall r :: 0 <= r < h ==> RowFrom(g, top, strip, r)
  }

  /** Row top + r of g is row r of strip. */
  predicate RowFrom(g: Image, top: nat, strip: Image, r: nat) {
    top + r < |g.rows| && r < |strip.rows| && g.rows[top + r] == strip.rows[r]
  }

  /** In every row r of f, the columns left .. left + f's width of strip hold row r of f. */
  predicate SlicesAt(strip: Image, left: nat, f: Image) {
    forall r :: 0 <= r < f.shape.height ==> RowSliceIs(strip, r, left, f.shape.width, f.rows[r])
  }

  /** Rows top .. top + h of a stack of strips of height h are the rows of strip bi. */
  lemma StripRows(strips: seq<Image>, ssh: Shape, g: Image, bi: nat, top: nat)
    requires |strips| > 0 && AllShaped(strips, ssh) && VStack(strips) == Success(g)
    requires bi < |strips| && top == bi * ssh.height
    ensures RowsAt(g, top, strips[bi], ssh.height)
  {
    forall r | 0 <= r < ssh.height
      ensures RowFrom(g, top, strips[bi], r)
    {
      VStackUniformAt(strips, ssh, bi, r);
      assert g == VStack(strips).value;
      assert top + r == bi * ssh.height + r;
      assert g.rows[top + r] == strips[bi].rows[r];
    }
  }

  /** In a strip of frames of one shape, the columns left .. left + w of every row belong to frame j. */
  lemma ChunkRows(chunk: seq<Image>, sh: Shape, strip: Image, j: nat, left: nat)
    requires |chunk| > 0 && AllShaped(chunk, sh) && HStack(chunk) == Success(strip)
    requires j < |chunk| && left == j * sh.width
    ensures SlicesAt(strip, left, chunk[j])
  {
    forall r | 0 <= r < sh.height
      ensures RowSliceIs(strip, r, left, sh.width, chunk[j].rows[r])
    {
      HStackUniformSlice(chunk, sh, r, j, left);
    }
  }

  /** A block whose rows are the matching row slices of f is f. */
  lemma CropOfRows(g: Image, strip: Image, f: Image, top: nat, left: nat)
    requires top + f.shape.height <= g.shape.height && left + f.shape.width <= g.shape.width
    requires f.shape.channels == g.shape.channels
    requires RowsAt(g, top, strip, f.shape.height) && SlicesAt(strip, left, f)
    ensures Crop(g, top, left, f.shape.height, f.shape.width) == f
  {
    var b := Crop(g, top, left, f.shape.height, f.shape.width);
    forall r | 0 <= r < f.shape.height
      ensures b.rows[r] == f.rows[r]
    {
      assert RowFrom(g, top, strip, r);
      assert RowSliceIs(strip, r, left, f.shape.width, f.rows[r]);
    }
    assert b.rows == f.rows;
  }

  /**
   * The grid g of m * cols frames of one shape, the strip of block row bi,
   * and how the rows of frame k == bi * cols + bj sit in them.
   */
  lemma GridBlockRows(imgs: seq<Image>, cols: nat, m: nat, sh: Shape, bi: nat, bj: nat, k: nat, top: nat, left: nat)
    returns (g: Image, strip: Image)
    requires cols > 0 && |imgs| == m * cols && AllShaped(imgs, sh)
    requires bi < m && bj < cols
    requires k == bi * cols + bj && top == bi * sh.height && left == bj * sh.width
    ensures k < |imgs| && Grid(imgs, cols) == Success(g)
    ensures g.shape == Shape(m * sh.height, cols * sh.width, sh.channels)
    ensures RowsAt(g, top, strip, sh.height) && SlicesAt(strip, left, imgs[k])
  {
    MulStep(bi, m, cols);
    MulNonneg(bi, cols);
    var lo: nat := bi * cols;
    var hi := lo + cols;
    var chunk := imgs[lo..hi];
    assert |chunk| == cols && AllShaped(chunk, sh) && chunk[bj] == imgs[k];
    var strips := StripAt(imgs, cols, m, sh, bi, lo, hi);
    var ssh := Shape(sh.height, cols * sh.width, sh.channels);
    VStackUniform(strips, ssh);
    g, strip := VStack(strips).value, strips[bi];
    assert HStack(chunk) == Success(strip);
    StripRows(strips, ssh, g, bi, top);
    ChunkRows(chunk, sh, strip, bj, left);
  }

  /**
   * In a grid g of m * cols frames of one shape, frame bi * cols + bj is the
   * block in block row bi and block column bj.
   */
  lemma GridBlock(imgs: seq<Image>, cols: nat, m: nat, sh: Shape, bi: nat, bj: nat)
    returns (top: nat, left: nat, g: Image)
    requires cols > 0 && |imgs| == m * cols && AllShaped(imgs, sh)
    requires bi < m && bj < cols
    ensures top == bi * sh.height && left == bj * sh.width
    ensures bi * cols + bj < |imgs| && Grid(imgs, cols) == Success(g)
    ensures top + sh.height <= g.shape.height && left + sh.width <= g.shape.width
    ensures Crop(g, top, left, sh.height, sh.width) == imgs[bi * cols + bj]
  {
    MulBound(bi, bj, m, cols);
    MulStep(bi, m, sh.height);
    MulStep(bj, cols, sh.width);
    MulNonneg(bi, sh.height);
    MulNonneg(bj, sh.width);
    top, left := bi * sh.height, bj * sh.width;
    var k: nat := bi * cols + bj;
    var strip;
    g, strip := GridBlockRows(imgs, cols, m, sh, bi, bj, k, top, left);
    CropOfRows(g, strip, imgs[k], top, left);
  }

  /**
   * The same placement by frame index: when cols divides the number of
   * frames, frame k is the block in block row k / cols, block column k % cols.
   */
  lemma GridPlacement(imgs: seq<Image>, cols: nat, sh: Shape, k: nat) returns (top: nat, left: nat, g: Image)
    requires cols > 0 && |imgs| % cols == 0 && AllShaped(imgs, sh)
    requires k < |imgs|
    ensures top == (k / cols) * sh.height && left == (k % cols) * sh.width
    ensures Grid(imgs, cols) == Success(g)
    ensures top + sh.height <= g.shape.height && left + sh.width <= g.shape.width
    ensures Crop(g, top, left, sh.height, sh.width) == imgs[k]
  {
    var m := DivMod(|imgs|, cols);
    var bi := DivMod(k, cols);
    var bj := k % cols;
    if bi >= m {
      MulMono(m, bi, cols);
    }
    assert k == bi * cols + bj;
    top, left, g := GridBlock(imgs, cols, m, sh, bi, bj);
  }

  /** Euclidean division of n by d, as quotient and remainder. */
  lemma DivMod(n: nat, d: nat) returns (q: nat)
    requires d > 0
    ensures q == n / d && n == q * d + n % d && 0 <= n % d < d
  {
    q := n / d;
  }

  /**
   * A grid of no more frames than columns is the side-by-side join of all
   * of them: it succeeds exactly when they agree in height and channels,
   * and fails as that join does otherwise.
   */
  lemma GridSingleStrip(imgs: seq<Image>, cols: nat)
    requires 0 < cols && |imgs| <= cols
    ensures Grid(imgs, cols) == HStack(imgs)
  {
    if imgs == [] {
      assert Chunks(imgs, cols) == [];
      assert HStackEach([]) == Success([]);
    } else {
      assert Chunks(imgs, cols) == [imgs];
      assert [imgs][1..] == [];
      assert HStackEach([]) == Success([]);
      if HStack(imgs).Success? {
        var strip := HStack(imgs).value;
        assert HStackEach([imgs]) == Success([strip] + []);
        assert [strip] + [] == [strip];
        StackOfOne(strip);
      }
    }
  }

  /** Stacking a single frame gives that frame. */
  lemma StackOfOne(f: Image)
    ensures VStack([f]) == Success(f)
  {
    assert Sum(Heights([f])) == f.shape.height;
    var parts := seq(1, k requires 0 <= k < 1 => [f][k].rows);
    assert parts == [f.rows];
    assert Flatten(parts) == f.rows + Flatten(parts[1..]);
    assert ColumnsAgree([f]);
    assert VStackFrame([f]).rows == f.rows;
    assert VStackFrame([f]) == f;
  }

  /**
   * Frames of one nonzero width do not fill a grid when there are more of
   * them than columns and cols does not divide their number: the last
   * strip is narrower than the first.
   */
  lemma GridRagged(imgs: seq<Image>, cols: nat, sh: Shape)
    requires cols > 0 && |imgs| > cols && |imgs| % cols != 0
    requires AllShaped(imgs, sh) && sh.width > 0
    ensures Grid(imgs, cols) == Failure(DimensionMismatch)
  {
    var cs := Chunks(imgs, cols);
    assert cs[0] == imgs[..cols];
    ChunksFlatten(imgs, cols);
    FlattenMembers(cs);
    forall i | 0 <= i < |cs|
      ensures AllShaped(cs[i], sh)
    {
      forall j | 0 <= j < |cs[i]| ensures cs[i][j].shape == sh {
        assert cs[i][j] in cs[i];
        assert cs[i][j] in Flatten(cs);
      }
    }
    forall i | 0 <= i < |cs|
      ensures HStack(cs[i]).Success?
      ensures HStack(cs[i]).value.shape == Shape(sh.height, |cs[i]| * sh.width, sh.channels)
    {
      HStackUniform(cs[i], sh);
    }
    var strips := HStackEach(cs).value;
    var i := ShortChunk(imgs, cols);
    assert strips[0].shape.width == cols * sh.width;
    assert strips[i].shape.width == |cs[i]| * sh.width;
    MulStrict(|cs[i]|, cols, sh.width);
    assert !ColumnsAgree(strips);
  }

  lemma MulStrict(a: nat, b: nat, n: nat)
    requires a < b && n > 0
    ensures a * n < b * n
  {
  }

  /** Some chunk is short when cols does not divide the number of frames. */
  lemma ShortChunk<T>(s: seq<T>, cols: nat) returns (i: nat)
    requires cols > 0 && |s| % cols != 0
    ensures i < |Chunks(s, cols)| && |Chunks(s, cols)[i]| < cols
  {
    var cs := Chunks(s, cols);
    if forall j :: 0 <= j < |cs| ==> |cs[j]| == cols {
      var ns := seq(|cs|, j requires 0 <= j < |cs| => cols);
      ChunksFlatten(s, cols);
      FlattenLength(cs, ns);
      SumUniform(ns, cols);
      NotMultiple(|s|, cols, |cs|);
      assert false;
    }
    var j :| 0 <= j < |cs| && |cs[j]| != cols;
    i := j;
  }

  /** A number that cols does not divide is no multiple of cols. */
  lemma NotMultiple(n: nat, cols: nat, m: nat)
    requires cols > 0 && n % cols != 0
    ensures n != m * cols
  {
    var q := n / cols;
    assert n == q * cols + n % cols;
    if m <= q {
      MulMono(m, q, cols);
    } else {
      MulMono(q + 1, m, cols);
    }
  }

  lemma MulMono(a: nat, b: nat, n: nat)
    requires a <= b
    ensures a * n <= b * n
  {
    assert b * n == a * n + (b - a) * n;
  }

  // ---------------------------------------------------------------------
  // Pixel transforms (utils.py resize, blur, edge_detect, grayscale,
  // convert_to_3_channels) and the two display layouts
  // ---------------------------------------------------------------------

  /** A pixel of three equal channels. */
  predicate Neutral(p: Pixel) {
    |p| == 3 && p[0] == p[1] == p[2]
  }

  /** Every pixel of the frame is a shade of gray in three channels. */
  predicate IsGray(f: Image) {
    forall r, c :: 0 <= r < |f.rows| && 0 <= c < |f.rows[r]| ==> Neutral(f.rows[r][c])
  }

  /** The one-channel pixel p as three equal channels. */
  function Replicate(p: Pixel): (q: Pixel)
    requires |p| == 1
    ensures Neutral(q) && q[0] == p[0]
  {
    [p[0], p[0], p[0]]
  }

  /** Gray to colour conversion: each single value is copied into three channels. */
  function ConvertTo3Channels(g: Image): (res: Image)
    requires g.shape.channels == 1
    ensures res.shape == Shape(g.shape.height, g.shape.width, 3)
    ensures IsGray(res)
    ensures forall r, c :: 0 <= r < g.shape.height && 0 <= c < g.shape.width ==>
      res.rows[r][c][0] == g.rows[r][c][0]
  {
    var h, w := g.shape.height, g.shape.width;
    Frame(Shape(h, w, 3),
          seq(h, r requires 0 <= r < h => seq(w, c requires 0 <= c < w => Replicate(g.rows[r][c]))))
  }

  /** The h x w frame of n channels whose channel ch at (r, c) is value(r, c, ch). */
  function Fill(h: nat, w: nat, n: nat, value: (nat, nat, nat) -> Channel): (res: Image)
    ensures res.shape == Shape(h, w, n)
    ensures forall r, c, ch :: 0 <= r < h && 0 <= c < w && 0 <= ch < n ==> res.rows[r][c][ch] == value(r, c, ch)
  {
    var rows := seq(h, r requires 0 <= r < h => seq(w, c requires 0 <= c < w => FillPixel(n, value, r, c)));
    Frame(Shape(h, w, n), rows)
  }

  function FillPixel(n: nat, value: (nat, nat, nat) -> Channel, r: nat, c: nat): (p: Pixel)
    ensures |p| == n && forall ch :: 0 <= ch < n ==> p[ch] == value(r, c, ch)
  {
    seq(n, ch requires 0 <= ch < n => value(r, c, ch))
  }

  function LumaAt(lib: Imaging, img: Image, r: nat, c: nat): Channel {
    if r < |img.rows| && c < |img.rows[r]| then lib.luma(img.rows[r][c]) else 0
  }

  /** Colour to gray conversion: one luminance value per pixel. */
  function ToGray(lib: Imaging, img: Image): (res: Image)
    requires img.shape.channels == 3 || img.shape.channels == 4
    ensures res.shape == Shape(img.shape.height, img.shape.width, 1)
    ensures forall r, c :: 0 <= r < img.shape.height && 0 <= c < img.shape.width ==>
      res.rows[r][c][0] == lib.luma(img.rows[r][c])
  {
    Fill(img.shape.height, img.shape.width, 1, (r, c, ch) => LumaAt(lib, img, r, c))
  }

  /** The grayscale view, kept in three channels so that it concatenates with colour frames. */
  function Grayscale(lib: Imaging, img: Image): (res: Image)
    requires img.shape.channels == 3 || img.shape.channels == 4
    ensures res.shape == Shape(img.shape.height, img.shape.width, 3)
    ensures IsGray(res)
    ensures forall r, c :: 0 <= r < img.shape.height && 0 <= c < img.shape.width ==>
      res.rows[r][c][0] == lib.luma(img.rows[r][c])
  {
    ConvertTo3Channels(ToGray(lib, img))
  }

  /** Gaussian blur with a kw x kh kernel; the library demands odd kernel sides. */
  function Blur(lib: Imaging, img: Image, kw: nat, kh: nat): (res: Image)
    requires kw % 2 == 1 && kh % 2 == 1
    ensures res.shape == img.shape
    ensures forall r, c, ch :: 0 <= r < img.shape.height && 0 <= c < img.shape.width && 0 <= ch < img.shape.channels ==>
      res.rows[r][c][ch] == lib.smooth(img, kw, kh, r, c, ch)
  {
    var sh := img.shape;
    Fill(sh.height, sh.width, sh.channels, (r, c, ch) => lib.smooth(img, kw, kh, r, c, ch))
  }

  /** The Canny edge map: one channel, 255 on an edge and 0 elsewhere. */
  function Canny(lib: Imaging, img: Image, low: int, high: int): (res: Image)
    ensures res.shape == Shape(img.shape.height, img.shape.width, 1)
    ensures forall r, c :: 0 <= r < img.shape.height && 0 <= c < img.shape.width ==>
      res.rows[r][c][0] == if lib.edge(img, low, high, r, c) then 255 else 0
  {
    Fill(img.shape.height, img.shape.width, 1, (r, c, ch) => if lib.edge(img, low, high, r, c) then 255 else 0)
  }

  /** The edge view in three channels: every pixel black or white. */
  function EdgeDetect(lib: Imaging, img: Image, low: int, high: int): (res: Image)
    ensures res.shape == Shape(img.shape.height, img.shape.width, 3)
    ensures IsGray(res)
    ensures forall r, c :: 0 <= r < img.shape.height && 0 <= c < img.shape.width ==>
      res.rows[r][c][0] == if lib.edge(img, low, high, r, c) then 255 else 0
  {
    ConvertTo3Channels(Canny(lib, img, low, high))
  }

  /**
   * res is src resized by the library to width scale ws and height scale hs:
   * w * ws wide, h * hs high, and every channel value the library's
   * interpolation of src for that target size.
   */
  predicate ResizedFrom(lib: Imaging, src: Image, ws: nat, hs: nat, res: Image) {
    var h, w := src.shape.height * hs, src.shape.width * ws;
    && res.shape == Shape(h, w, src.shape.channels)
    && forall r, c, ch :: 0 <= r < h && 0 <= c < w && 0 <= ch < src.shape.channels ==>
      res.rows[r][c][ch] == lib.sample(src, w, h, r, c, ch)
  }

  /**
   * Resize to width scale ws and height scale hs. The target size
   * (w * ws, h * hs) must be nonempty for the library to accept it.
   */
  function Resize(lib: Imaging, img: Image, ws: nat, hs: nat): (res: Image)
    requires img.shape.width * ws > 0 && img.shape.height * hs > 0
    ensures res.shape == Shape(img.shape.height * hs, img.shape.width * ws, img.shape.channels)
    ensures ResizedFrom(lib, img, ws, hs, res)
  {
    var h, w := img.shape.height * hs, img.shape.width * ws;
    Fill(h, w, img.shape.channels, (r, c, ch) => lib.sample(img, w, h, r, c, ch))
  }

  /** A single view enlarged to the area a grid of gridRows x gridCols frames covers. */
  function FullscreenImage(lib: Imaging, img: Image, gridCols: nat, gridRows: nat): (res: Image)
    requires img.shape.width * gridCols > 0 && img.shape.height * gridRows > 0
    ensures res.shape == Shape(gridRows * img.shape.height, gridCols * img.shape.width, img.shape.channels)
    ensures ResizedFrom(lib, img, gridCols, gridRows, res)
  {
    Resize(lib, img, gridCols, gridRows)
  }

  /** The four views of one frame, in reading order. */
  function Views(lib: Imaging, img: Image, kw: nat, kh: nat, low: int, high: int): (vs: seq<Image>)
    requires img.shape.channels == 3 || img.shape.channels == 4
    requires kw % 2 == 1 && kh % 2 == 1
    ensures |vs| == 4 && vs[0] == img
    ensures img.shape.channels == 3 ==> AllShaped(vs, img.shape)
  {
    [img, Grayscale(lib, img), Blur(lib, img, kw, kh), EdgeDetect(lib, img, low, high)]
  }

  /**
   * v is the comparison view of a colour frame: twice as high and twice as
   * wide, with the original top left, grayscale top right, blurred bottom
   * left and edges bottom right.
   */
  predicate ComparisonBlocks(lib: Imaging, img: Image, kw: nat, kh: nat, low: int, high: int, v: Image)
    requires img.shape.channels == 3
    requires kw % 2 == 1 && kh % 2 == 1
  {
    var h, w := img.shape.height, img.shape.width;
    && v.shape == Shape(2 * h, 2 * w, 3)
    && Crop(v, 0, 0, h, w) == img
    && Crop(v, 0, w, h, w) == Grayscale(lib, img)
    && Crop(v, h, 0, h, w) == Blur(lib, img, kw, kh)
    && Crop(v, h, w, h, w) == EdgeDetect(lib, img, low, high)
  }

  /**
   * The 2 x 2 comparison view: original, grayscale / blurred, edges. A
   * colour frame has one; a frame with an alpha channel has none.
   */
  function ComparisonView(lib: Imaging, img: Image, kw: nat, kh: nat, low: int, high: int): (res: Result<Image>)
    requires img.shape.channels == 3 || img.shape.channels == 4
    requires kw % 2 == 1 && kh % 2 == 1
    ensures img.shape.channels == 3 ==> res.Success? && ComparisonBlocks(lib, img, kw, kh, low, high, res.value)
    ensures img.shape.channels == 4 ==> res == Failure(DimensionMismatch)
  {
    if img.shape.channels == 3 then
      ComparisonLayout(lib, img, kw, kh, low, high);
      Grid(Views(lib, img, kw, kh, low, high), 2)
    else
      ComparisonRejectsAlpha(lib, img, kw, kh, low, high);
      Grid(Views(lib, img, kw, kh, low, high), 2)
  }

  /** The top row of a grid of four frames of one shape in two columns. */
  lemma GridTwoByTwoTop(vs: seq<Image>, sh: Shape)
    requires |vs| == 4 && AllShaped(vs, sh)
    ensures Grid(vs, 2).Success?
    ensures var g := Grid(vs, 2).value;
      var h, w := sh.height, sh.width;
      && g.shape == Shape(2 * h, 2 * w, sh.channels)
      && Crop(g, 0, 0, h, w) == vs[0]
      && Crop(g, 0, w, h, w) == vs[1]
  {
    var top0, left0, g0 := GridBlock(vs, 2, 2, sh, 0, 0);
    var top1, left1, g1 := GridBlock(vs, 2, 2, sh, 0, 1);
    GridUniform(vs, 2, 2, sh);
  }

  /** The bottom row of a grid of four frames of one shape in two columns. */
  lemma GridTwoByTwoBottom(vs: seq<Image>, sh: Shape)
    requires |vs| == 4 && AllShaped(vs, sh)
    ensures Grid(vs, 2).Success?
    ensures var g := Grid(vs, 2).value;
      var h, w := sh.height, sh.width;
      && g.shape == Shape(2 * h, 2 * w, sh.channels)
      && Crop(g, h, 0, h, w) == vs[2]
      && Crop(g, h, w, h, w) == vs[3]
  {
    var top2, left2, g2 := GridBlock(vs, 2, 2, sh, 1, 0);
    var top3, left3, g3 := GridBlock(vs, 2, 2, sh, 1, 1);
    GridUniform(vs, 2, 2, sh);
  }

  /**
   * The grid of a colour frame's four views in two columns is twice as high
   * and twice as wide, with the original top left, grayscale top right,
   * blurred bottom left and edges bottom right.
   */
  lemma ComparisonLayout(lib: Imaging, img: Image, kw: nat, kh: nat, low: int, high: int)
    requires img.shape.channels == 3
    requires kw % 2 == 1 && kh % 2 == 1
    ensures Grid(Views(lib, img, kw, kh, low, high), 2).Success?
    ensures ComparisonBlocks(lib, img, kw, kh, low, high, Grid(Views(lib, img, kw, kh, low, high), 2).value)
  {
    var vs := Views(lib, img, kw, kh, low, high);
    assert AllShaped(vs, img.shape);
    GridTwoByTwoTop(vs, img.shape);
    GridTwoByTwoBottom(vs, img.shape);
  }

  /**
   * A four-channel frame's views do not form a grid: its grayscale view has
   * three channels, and the first strip cannot be joined.
   */
  lemma ComparisonRejectsAlpha(lib: Imaging, img: Image, kw: nat, kh: nat, low: int, high: int)
    requires img.shape.channels == 4
    requires kw % 2 == 1 && kh % 2 == 1
    ensures Grid(Views(lib, img, kw, kh, low, high), 2) == Failure(DimensionMismatch)
  {
    var vs := Views(lib, img, kw, kh, low, high);
    ChunksOfMultiple(vs, 2, 2);
    var cs := Chunks(vs, 2);
    assert cs[0] == vs[0..2] == [img, Grayscale(lib, img)];
    assert cs[0][1].shape.channels == 3;
    assert !RowsAgree(cs[0]);
  }
}
