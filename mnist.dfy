/** The MNIST IDX readers of utils.h. A file is `None` when it cannot be
    opened and `Some(bytes)` with its contents otherwise; every reader appends
    the vectors it decodes to `data` and returns the result.

    An image file holds four big-endian 32-bit integers (magic number, image
    count, rows, columns) and then one byte per pixel, image after image and
    row after row; a label file holds two (magic number, item count) and then
    one byte per label. Past the end of the file a read leaves its
    zero-initialised destination as it was, so every byte beyond the end
    reads as 0. */
module Mnist {
  import opened Options
  import opened LinAlg
  import opened Loops

  /** An `unsigned char`. */
  newtype Byte = b: int | 0 <= b < 0x100
  type File = Option<seq<Byte>>

  const TwoTo31: int := 0x8000_0000
  const TwoTo32: int := 0x1_0000_0000

  /** What a one-byte read at stream offset `off` leaves in a zeroed byte. */
  function ByteAt(bytes: seq<Byte>, off: nat): (b: Byte) {
    if off < |bytes| then bytes[off] else 0
  }

  /** `ntohl` of the four bytes at `off` read into a zeroed `int`: the bytes
      are taken most significant first and the result is two's complement. */
  function Int32At(bytes: seq<Byte>, off: nat): (v: int)
    ensures -TwoTo31 <= v < TwoTo31
  {
    var u := ((ByteAt(bytes, off) as int * 0x100 + ByteAt(bytes, off + 1) as int) * 0x100
              + ByteAt(bytes, off + 2) as int) * 0x100 + ByteAt(bytes, off + 3) as int;
    if u < TwoTo31 then u else u - TwoTo32
  }

  /** The four bytes an IDX writer stores for the 32-bit integer `v`. */
  function Int32Bytes(v: int): (bs: seq<Byte>)
    requires -TwoTo31 <= v < TwoTo31
    ensures |bs| == 4
  {
    var u := if v < 0 then v + TwoTo32 else v;
    [(u / 0x100_0000) as Byte, (u / 0x1_0000 % 0x100) as Byte,
     (u / 0x100 % 0x100) as Byte, (u % 0x100) as Byte]
  }

  /** Reading back the bytes written for `v` gives `v`, wherever they sit
      in the file. */
  lemma Int32RoundTrip(before: seq<Byte>, v: int, after: seq<Byte>)
    requires -TwoTo31 <= v < TwoTo31
    ensures Int32At(before + Int32Bytes(v) + after, |before|) == v
  {
    var bytes := before + Int32Bytes(v) + after;
    var u := if v < 0 then v + TwoTo32 else v;
    var o := |before|;
    assert ByteAt(bytes, o) as int == u / 0x100_0000;
    assert ByteAt(bytes, o + 1) as int == u / 0x1_0000 % 0x100;
    assert ByteAt(bytes, o + 2) as int == u / 0x100 % 0x100;
    assert ByteAt(bytes, o + 3) as int == u % 0x100;
    Digits(u);
  }

  /** `u` is put back together from its four base-256 digits. */
  lemma Digits(u: int)
    requires 0 <= u < TwoTo32
    ensures ((u / 0x100_0000 * 0x100 + u / 0x1_0000 % 0x100) * 0x100
             + u / 0x100 % 0x100) * 0x100 + u % 0x100 == u
  {
    var a := u / 0x100;
    var b := a / 0x100;
    assert u == a * 0x100 + u % 0x100;
    assert a == b * 0x100 + a % 0x100;
    assert b == u / 0x1_0000;
    assert b / 0x100 == u / 0x100_0000;
    assert b == b / 0x100 * 0x100 + b % 0x100;
  }

  /** A pixel: the byte divided by 255. */
  function Pixel(b: Byte): (p: real)
    ensures 0.0 <= p <= 1.0
  {
    (b as int) as real / 255.0
  }

  /** The number of pixels in a `rows` × `cols` image, as the reading loops
      visit them: none unless both are positive. */
  function ImageSize(rows: int, cols: int): (n: nat)
    ensures rows > 0 && cols > 0 ==> n == rows * cols
    ensures rows <= 0 || cols <= 0 ==> n == 0
  {
    if rows > 0 && cols > 0 then rows * cols else 0
  }

  /** The `n` pixels that start at stream offset `from`. */
  function Pixels(bytes: seq<Byte>, from: nat, n: nat): (v: Vector)
    ensures |v| == n
  {
    if n == 0 then [] else Pixels(bytes, from, n - 1) + [Pixel(ByteAt(bytes, from + n - 1))]
  }

  lemma {:induction false} PixelsAt(bytes: seq<Byte>, from: nat, n: nat, k: nat)
    requires k < n
    ensures Pixels(bytes, from, n)[k] == Pixel(ByteAt(bytes, from + k))
  {
    if k < n - 1 {
      PixelsAt(bytes, from, n - 1, k);
    }
  }

  /** The first `count` images of size `size`, the pixels starting at offset 16. */
  function ImagesFrom(bytes: seq<Byte>, count: nat, size: nat): (imgs: seq<Vector>)
    ensures |imgs| == count
  {
    if count == 0 then []
    else ImagesFrom(bytes, count - 1, size) + [Pixels(bytes, 16 + (count - 1) * size, size)]
  }

  lemma {:induction false} ImagesFromAt(bytes: seq<Byte>, count: nat, size: nat, i: nat)
    requires i < count
    ensures ImagesFrom(bytes, count, size)[i] == Pixels(bytes, 16 + i * size, size)
  {
    if i < count - 1 {
      ImagesFromAt(bytes, count - 1, size, i);
    }
  }

  /** The pixels of an image file's images: `rows * cols` per image. */
  function ImageSizeOf(bytes: seq<Byte>): (size: nat) {
    ImageSize(Int32At(bytes, 8), Int32At(bytes, 12))
  }

  /** The vectors `read_mnist_train_data` appends for `file`. */
  function Images(file: File): (imgs: seq<Vector>)
    ensures |imgs| == if file.None? then 0 else LoopCount(Int32At(file.value, 4))
  {
    match file
    case None => []
    case Some(bytes) =>
      var count := Int32At(bytes, 4);
      if count <= 0 then []
      else ImagesFrom(bytes, count, ImageSizeOf(bytes))
  }

  /** What the image reader needs of the header: when there are images,
      `rows * cols` is a size Eigen accepts and the `int` product does not
      overflow, and the loops fill every entry of each vector. */
  predicate ImagesReadable(file: File) {
    file.Some? ==>
      var count := Int32At(file.value, 4);
      var rows := Int32At(file.value, 8);
      var cols := Int32At(file.value, 12);
      count <= 0 || rows * cols == 0 || (rows > 0 && cols > 0 && rows * cols < TwoTo31)
  }

  /** An unopened file gives no images; otherwise there are as many as the
      header's count says (none if it is not positive), each of `rows * cols`
      pixels when both are positive and of none otherwise. */
  lemma ImagesShape(file: File)
    ensures file.None? ==> Images(file) == []
    ensures file.Some? ==>
      var count := Int32At(file.value, 4);
      |Images(file)| == (if count <= 0 then 0 else count)
      && forall i :: 0 <= i < |Images(file)| ==>
           |Images(file)[i]| == ImageSizeOf(file.value)
  {
    if file.Some? {
      var bytes := file.value;
      var size := ImageSizeOf(bytes);
      forall i | 0 <= i < |Images(file)| ensures |Images(file)[i]| == size {
        ImagesFromAt(bytes, Int32At(bytes, 4), size, i);
      }
    }
  }

  /** Pixel `k` of image `i` is the byte at offset `16 + i * size + k` over
      255, and lies in [0, 1]. */
  lemma ImagesEntry(bytes: seq<Byte>, i: nat, k: nat)
    requires i < |Images(Some(bytes))| && k < ImageSizeOf(bytes)
    ensures k < |Images(Some(bytes))[i]|
    ensures Images(Some(bytes))[i][k] == Pixel(ByteAt(bytes, 16 + i * ImageSizeOf(bytes) + k))
    ensures 0.0 <= Images(Some(bytes))[i][k] <= 1.0
  {
    var size := ImageSizeOf(bytes);
    assert Images(Some(bytes)) == ImagesFrom(bytes, Int32At(bytes, 4), size);
    ImagesFromEntry(bytes, Int32At(bytes, 4), size, i, k);
  }

  lemma ImagesFromEntry(bytes: seq<Byte>, count: nat, size: nat, i: nat, k: nat)
    requires i < count && k < size
    ensures k < |ImagesFrom(bytes, count, size)[i]|
    ensures ImagesFrom(bytes, count, size)[i][k] == Pixel(ByteAt(bytes, 16 + i * size + k))
    ensures 0.0 <= ImagesFrom(bytes, count, size)[i][k] <= 1.0
  {
    var base := 16 + i * size;
    ImagesFromAt(bytes, count, size, i);
    PixelsAt(bytes, base, size, k);
  }

  /** The magic number is read but never checked: files that differ only in
      their first four bytes give the same images. */
  lemma ImagesIgnoreMagic(bytes: seq<Byte>, other: seq<Byte>)
    requires |bytes| == |other| >= 4 && bytes[4..] == other[4..]
    ensures Images(Some(bytes)) == Images(Some(other))
  {
    forall off | off >= 4 ensures ByteAt(bytes, off) == ByteAt(other, off) {
      if off < |bytes| {
        assert bytes[off] == bytes[4..][off - 4];
      }
    }
    var count := Int32At(bytes, 4);
    if count > 0 {
      ImagesFromSame(bytes, other, count, ImageSize(Int32At(bytes, 8), Int32At(bytes, 12)));
    }
  }

  lemma {:induction false} ImagesFromSame(bytes: seq<Byte>, other: seq<Byte>, count: nat, size: nat)
    requires forall off :: off >= 4 ==> ByteAt(bytes, off) == ByteAt(other, off)
    ensures ImagesFrom(bytes, count, size) == ImagesFrom(other, count, size)
  {
    if count > 0 {
      ImagesFromSame(bytes, other, count - 1, size);
      PixelsSame(bytes, other, 16 + (count - 1) * size, size);
    }
  }

  lemma {:induction false} PixelsSame(bytes: seq<Byte>, other: seq<Byte>, from: nat, n: nat)
    requires from >= 4
    requires forall off :: off >= 4 ==> ByteAt(bytes, off) == ByteAt(other, off)
    ensures Pixels(bytes, from, n) == Pixels(other, from, n)
  {
    if n > 0 {
      PixelsSame(bytes, other, from, n - 1);
    }
  }

  /** `read_mnist_train_data`: read the header, then for each image fill a
      fresh vector of `rows * cols` entries row by row from the stream and
      append it. */
  method ReadMnistTrainData(file: File, data: seq<Vector>) returns (result: seq<Vector>)
    requires ImagesReadable(file)
    ensures result == data + Images(file)
  {
    result := data;
    if file.None? {
      return;
    }
    var bytes := file.value;
    var pos := 0;
    var magicNumber := Int32At(bytes, pos);
    pos := pos + 4;
    var numberOfImages := Int32At(bytes, pos);
    pos := pos + 4;
    var rows := Int32At(bytes, pos);
    pos := pos + 4;
    var cols := Int32At(bytes, pos);
    pos := pos + 4;
    ghost var size := ImageSize(rows, cols);
    var i := 0;
    while i < numberOfImages
      invariant 0 <= i <= LoopCount(numberOfImages)
      invariant pos == 16 + i * size
      invariant result == data + ImagesFrom(bytes, i, size)
    {
      var image;
      image, pos := ReadImage(bytes, pos, rows, cols);
      MulSucc(i, size);
      result := result + [image];
      i := i + 1;
    }
    assert Images(file) == ImagesFrom(bytes, i, size);
  }

  /** The body of the image loop: the nested row and column loops that fill
      one vector from stream offset `start`; `next` is the offset after them. */
  method ReadImage(bytes: seq<Byte>, start: nat, rows: int, cols: int) returns (image: Vector, next: nat)
    requires rows * cols == 0 || (rows > 0 && cols > 0 && rows * cols < TwoTo31)
    ensures image == Pixels(bytes, start, ImageSize(rows, cols))
    ensures next == start + ImageSize(rows, cols)
  {
    var vec := new real[rows * cols];
    var pos := start;
    var width := if rows > 0 && cols > 0 then cols else 0;
    var r := 0;
    while r < rows
      invariant 0 <= r <= LoopCount(rows)
      invariant width > 0 ==> r * width <= vec.Length
      invariant pos == start + r * width
      invariant forall k :: 0 <= k < r * width ==> vec[k] == Pixel(ByteAt(bytes, start + k))
    {
      var c := 0;
      while c < cols
        invariant 0 <= c <= cols && width == cols
        invariant pos == start + r * cols + c
        invariant r * cols + c <= vec.Length
        invariant forall k :: 0 <= k < r * cols + c ==> vec[k] == Pixel(ByteAt(bytes, start + k))
      {
        IndexInImage(r, c, rows, cols);
        var temp := ByteAt(bytes, pos);
        pos := pos + 1;
        vec[r * cols + c] := (temp as int) as real / 255.0;
        c := c + 1;
      }
      MulSucc(r, width);
      r := r + 1;
    }
    image := vec[..];
    next := pos;
    ghost var n := ImageSize(rows, cols);
    assert |image| == n by {
      if rows > 0 && cols > 0 {
        assert r == rows;
      }
    }
    forall k | 0 <= k < n ensures image[k] == Pixels(bytes, start, n)[k] {
      PixelsAt(bytes, start, n, k);
      MulSucc(rows - 1, cols);
    }
  }

  /** Entry `r * cols + c` of a `rows * cols` vector exists for `r < rows`, `c < cols`. */
  lemma IndexInImage(r: int, c: int, rows: int, cols: int)
    requires 0 <= r < rows && 0 <= c < cols
    ensures r * cols + c < rows * cols
  {
    MulSucc(r, cols);
    MulLeq(r + 1, rows, cols);
  }

  lemma MulLeq(a: int, b: int, n: int)
    requires a <= b && n >= 0
    ensures a * n <= b * n
  {
  }

  /** `vec.setZero(); vec(digit) = 1.0` on a vector of 10 entries. */
  function OneHot(digit: nat): (v: Vector)
    requires digit < 10
    ensures |v| == 10
  {
    Zeros(10)[digit := 1.0]
  }

  /** The label vector has a 1 at the digit and 0 everywhere else, so the
      digit is where its first maximum is, the index `test` compares. */
  lemma OneHotEntries(digit: nat)
    requires digit < 10
    ensures forall k :: 0 <= k < 10 ==> OneHot(digit)[k] == if k == digit then 1.0 else 0.0
    ensures FirstArgMax(OneHot(digit)) == digit
  {
    var v := OneHot(digit);
    var k := FirstArgMax(v);
    assert v[digit] == 1.0;
    assert v[k] == 1.0;
  }

  /** Every label byte the reader will visit names a digit; a larger one
      would be written outside the 10-entry vector. */
  predicate LabelsReadable(file: File) {
    file.Some? ==>
      forall off :: 8 <= off < 8 + Int32At(file.value, 4) ==> ByteAt(file.value, off) <= 9
  }

  /** The first `count` label vectors, the label bytes starting at offset 8. */
  function LabelsFrom(bytes: seq<Byte>, count: nat): (ls: seq<Vector>)
    requires forall off :: 8 <= off < 8 + count ==> ByteAt(bytes, off) <= 9
    ensures |ls| == count
  {
    if count == 0 then []
    else LabelsFrom(bytes, count - 1) + [OneHot(ByteAt(bytes, 8 + count - 1) as int)]
  }

  lemma {:induction false} LabelsFromAt(bytes: seq<Byte>, count: nat, i: nat)
    requires forall off :: 8 <= off < 8 + count ==> ByteAt(bytes, off) <= 9
    requires i < count
    ensures ByteAt(bytes, 8 + i) <= 9
    ensures LabelsFrom(bytes, count)[i] == OneHot(ByteAt(bytes, 8 + i) as int)
  {
    if i < count - 1 {
      LabelsFromAt(bytes, count - 1, i);
    }
  }

  /** The vectors `read_mnist_train_label` appends for `file`. */
  function Labels(file: File): (labels: seq<Vector>)
    requires LabelsReadable(file)
    ensures |labels| == if file.None? then 0 else LoopCount(Int32At(file.value, 4))
  {
    match file
    case None => []
    case Some(bytes) =>
      var count := Int32At(bytes, 4);
      if count <= 0 then [] else LabelsFrom(bytes, count)
  }

  /** An unopened file gives no labels; otherwise there are as many as the
      header's count says (none if it is not positive), and label `i` is the
      one-hot vector of byte `8 + i`. */
  lemma LabelsShape(file: File)
    requires LabelsReadable(file)
    ensures file.None? ==> Labels(file) == []
    ensures file.Some? ==>
      var count := Int32At(file.value, 4);
      |Labels(file)| == (if count <= 0 then 0 else count)
      && forall i :: 0 <= i < |Labels(file)| ==>
           ByteAt(file.value, 8 + i) <= 9
           && Labels(file)[i] == OneHot(ByteAt(file.value, 8 + i) as int)
  {
    if file.Some? {
      var count := Int32At(file.value, 4);
      forall i | 0 <= i < |Labels(file)|
        ensures ByteAt(file.value, 8 + i) <= 9
        ensures Labels(file)[i] == OneHot(ByteAt(file.value, 8 + i) as int)
      {
        LabelsFromAt(file.value, count, i);
      }
    }
  }

  /** The magic number of a label file is not checked either. */
  lemma LabelsIgnoreMagic(bytes: seq<Byte>, other: seq<Byte>)
    requires |bytes| == |other| >= 4 && bytes[4..] == other[4..]
    requires LabelsReadable(Some(bytes))
    ensures LabelsReadable(Some(other))
    ensures Labels(Some(bytes)) == Labels(Some(other))
  {
    forall off | off >= 4 ensures ByteAt(bytes, off) == ByteAt(other, off) {
      if off < |bytes| {
        assert bytes[off] == bytes[4..][off - 4];
      }
    }
    var count := Int32At(bytes, 4);
    if count > 0 {
      LabelsFromSame(bytes, other, count);
    }
  }

  lemma {:induction false} LabelsFromSame(bytes: seq<Byte>, other: seq<Byte>, count: nat)
    requires forall off :: off >= 4 ==> ByteAt(bytes, off) == ByteAt(other, off)
    requires forall off :: 8 <= off < 8 + count ==> ByteAt(bytes, off) <= 9
    ensures LabelsFrom(bytes, count) == LabelsFrom(other, count)
  {
    if count > 0 {
      LabelsFromSame(bytes, other, count - 1);
    }
  }

  /** `read_mnist_train_label`: read the header, then for each item read one
      byte and append the one-hot vector of that digit. */
  method ReadMnistTrainLabel(file: File, data: seq<Vector>) returns (result: seq<Vector>)
    requires LabelsReadable(file)
    ensures result == data + Labels(file)
  {
    result := data;
    if file.None? {
      return;
    }
    var bytes := file.value;
    var pos := 0;
    var magicNumber := Int32At(bytes, pos);
    pos := pos + 4;
    var numberOfItems := Int32At(bytes, pos);
    pos := pos + 4;
    var i := 0;
    while i < numberOfItems
      invariant 0 <= i <= LoopCount(numberOfItems)
      invariant pos == 8 + i
      invariant result == data + LabelsFrom(bytes, i)
    {
      var temp := ByteAt(bytes, pos);
      pos := pos + 1;
      var vec := new real[10];
      forall k | 0 <= k < 10 {
        vec[k] := 0.0;
      }
      vec[temp as int] := 1.0;
      assert vec[..] == OneHot(temp as int);
      result := result + [vec[..]];
      i := i + 1;
    }
    assert Labels(file) == LabelsFrom(bytes, i);
  }

  /** `read_mnist_test_data` does exactly what `read_mnist_train_data` does. */
  method ReadMnistTestData(file: File, data: seq<Vector>) returns (result: seq<Vector>)
    requires ImagesReadable(file)
    ensures result == data + Images(file)
  {
    result := ReadMnistTrainData(file, data);
  }

  /** `read_mnist_test_label` does exactly what `read_mnist_train_label` does. */
  method ReadMnistTestLabel(file: File, data: seq<Vector>) returns (result: seq<Vector>)
    requires LabelsReadable(file)
    ensures result == data + Labels(file)
  {
    result := ReadMnistTrainLabel(file, data);
  }
}
