/** Object detection by color coding: a single pass over an image whose pixels are object
    handles finds the bounding rectangle of every visible object, grouped by vision class. */
module Vision {
  import opened Wrappers

  /** Three bytes per pixel, in rows. */
  type Byte = i: nat | i < 256

  datatype Rect = Rect(minI: nat, maxI: nat, minJ: nat, maxJ: nat)

  /** By class and then by object. */
  type Rects = map<nat, map<int, Rect>>

  function MinNat(a: nat, b: nat): nat {
    if b < a then b else a
  }

  function MaxNat(a: nat, b: nat): nat {
    if a < b then b else a
  }

  /** The constructor of `ImageRect`, whose fields are 16 bits wide. */
  function PixelRect(i: nat, j: nat): Rect {
    Rect(i % 65536, i % 65536, j % 65536, j % 65536)
  }

  /** `ImageRect::update`. */
  function Extended(r: Rect, i: nat, j: nat): Rect {
    Rect(MinNat(r.minI, i % 65536), MaxNat(r.maxI, i % 65536), MinNat(r.minJ, j % 65536), MaxNat(r.maxJ, j % 65536))
  }

  /** `vision_class_for_handle` and `root_for_handle`, which are filled together. */
  datatype Scene = Scene(classOf: map<int, nat>, rootOf: map<int, int>) {
    predicate Valid() {
      classOf.Keys <= rootOf.Keys
    }
  }

  predicate Enabled(k: nat, mask: bv8) {
    k < 8 && (1 << k) & mask != 0
  }

  /** Class `k` is bit `k` of the mask: one bit enables one class, and masks add up. */
  lemma EnabledBits(k: nat, j: nat, a: bv8, b: bv8)
    requires k < 8 && j < 8
    ensures Enabled(k, 1 << j) <==> k == j
    ensures Enabled(k, a | b) <==> Enabled(k, a) || Enabled(k, b)
    ensures !Enabled(k, 0)
  {
    SingleBit(k, j);
    UnionBit(1 << k, a, b);
  }

  lemma UnionBit(bit: bv8, a: bv8, b: bv8)
    ensures bit & (a | b) != 0 <==> bit & a != 0 || bit & b != 0
  {}

  lemma SingleBit(k: nat, j: nat)
    requires k < 8 && j < 8
    ensures (1 as bv8 << k) & (1 as bv8 << j) != 0 <==> k == j
  {
    PowerOf(k);
    PowerOf(j);
  }

  lemma PowerOf(k: nat)
    requires k < 8
    ensures (1 as bv8 << k) == [1, 2, 4, 8, 16, 32, 64, 128][k]
  {}

  // ---------- what the scan should find ----------

  function Handle(buffer: seq<Byte>, offset: nat): int
    requires offset + 3 <= |buffer|
  {
    buffer[offset] as int + 256 * buffer[offset + 1] as int + 65536 * buffer[offset + 2] as int
  }

  /** A pixel holds a handle of 24 bits, lowest byte first: its bytes are the digits to the base 256. */
  lemma HandleDigits(buffer: seq<Byte>, offset: nat, handle: int)
    requires offset + 3 <= |buffer|
    ensures Handle(buffer, offset) == handle
       <==> && 0 <= handle < 16777216
            && buffer[offset] == handle % 256 && buffer[offset + 1] == handle / 256 % 256 && buffer[offset + 2] == handle / 65536
  {
    Digits(buffer[offset], buffer[offset + 1], buffer[offset + 2], handle);
  }

  lemma Digits(a: Byte, b: Byte, c: Byte, n: int)
    ensures a as int + 256 * b as int + 65536 * c as int == n
       <==> 0 <= n < 16777216 && a as int == n % 256 && b as int == n / 256 % 256 && c as int == n / 65536
  {
    if n == a as int + 256 * b as int + 65536 * c as int {
      LowDigit(a as int, b as int + 256 * c as int);
      LowDigit(b as int, c as int);
      assert n / 65536 == n / 256 / 256;
    }
  }

  lemma LowDigit(a: int, rest: int)
    requires 0 <= a < 256
    ensures (a + 256 * rest) % 256 == a && (a + 256 * rest) / 256 == rest
  {}

  function Pixels(buffer: seq<Byte>): nat {
    |buffer| / 3
  }

  function PixelHandle(buffer: seq<Byte>, p: nat): int
    requires p < Pixels(buffer)
  {
    Handle(buffer, 3 * p)
  }

  /** The handle of the pixel stands for object `r` of class `k`; objects are told apart by
      their roots modulo 256 only. */
  predicate StandsFor(s: Scene, handle: int, mask: bv8, k: nat, r: int)
    requires s.Valid()
  {
    handle in s.classOf && s.classOf[handle] == k && Enabled(k, mask) && s.rootOf[handle] % 256 == r
  }

  predicate Shows(s: Scene, buffer: seq<Byte>, mask: bv8, p: nat, k: nat, r: int)
    requires s.Valid() && p < Pixels(buffer)
  {
    StandsFor(s, PixelHandle(buffer, p), mask, k, r)
  }

  /** The row and the column of pixel number `p`. */
  function RowOf(width: nat, p: nat): nat
    requires width > 0
  {
    if p < width then 0 else 1 + RowOf(width, p - width)
  }

  function ColumnOf(width: nat, p: nat): nat
    requires width > 0
  {
    if p < width then p else ColumnOf(width, p - width)
  }

  /** As stored in 16 bits. */
  function Row(width: nat, p: nat): nat
    requires width > 0
  {
    RowOf(width, p) % 65536
  }

  function Column(width: nat, p: nat): nat
    requires width > 0
  {
    ColumnOf(width, p) % 65536
  }

  predicate Inside(rect: Rect, i: nat, j: nat) {
    rect.minI <= i <= rect.maxI && rect.minJ <= j <= rect.maxJ
  }

  datatype Side = Top | Bottom | Left | Right

  predicate Touches(rect: Rect, side: Side, i: nat, j: nat) {
    match side
    case Top => i == rect.minI
    case Bottom => i == rect.maxI
    case Left => j == rect.minJ
    case Right => j == rect.maxJ
  }

  /** One of the pixels of the object lies on the given side. */
  ghost predicate Attained(s: Scene, buffer: seq<Byte>, width: nat, mask: bv8, n: nat, k: nat, r: int, rect: Rect, side: Side)
    requires s.Valid() && width > 0 && n <= Pixels(buffer)
  {
    exists p: nat :: p < n && Shows(s, buffer, mask, p, k, r) && Touches(rect, side, Row(width, p), Column(width, p))
  }

  /** The rectangle holds all pixels of the object among the first `n`, and each of its four
      sides has one of them. */
  ghost predicate Tight(s: Scene, buffer: seq<Byte>, width: nat, mask: bv8, n: nat, k: nat, r: int, rect: Rect)
    requires s.Valid() && width > 0 && n <= Pixels(buffer)
  {
    && (forall p: nat :: p < n && Shows(s, buffer, mask, p, k, r) ==> Inside(rect, Row(width, p), Column(width, p)))
    && (forall side :: Attained(s, buffer, width, mask, n, k, r, rect, side))
  }

  ghost predicate Visible(s: Scene, buffer: seq<Byte>, mask: bv8, n: nat, k: nat, r: int)
    requires s.Valid() && n <= Pixels(buffer)
  {
    exists p: nat :: p < n && Shows(s, buffer, mask, p, k, r)
  }

  /** The result for object `r` of class `k`. */
  function Found(rects: Rects, k: nat, r: int): Option<Rect> {
    if k in rects && r in rects[k] then Some(rects[k][r]) else None
  }

  ghost predicate ExactFor(s: Scene, buffer: seq<Byte>, width: nat, mask: bv8, n: nat, k: nat, r: int, found: Option<Rect>)
    requires s.Valid() && width > 0 && n <= Pixels(buffer)
  {
    if Visible(s, buffer, mask, n, k, r)
    then found.Some? && Tight(s, buffer, width, mask, n, k, r, found.value)
    else found == None
  }

  // ---------- the scan as a function ----------

  function NoRects(mask: bv8, count: nat): Rects {
    map k: nat | k < count && Enabled(k, mask) :: map[]
  }

  ghost predicate Grouped(rects: Rects, mask: bv8) {
    forall k :: k in rects <==> Enabled(k, mask)
  }

  function AfterPixel(s: Scene, mask: bv8, rects: Rects, handle: int, i: nat, j: nat): (rects': Rects)
    requires s.Valid() && Grouped(rects, mask)
    ensures Grouped(rects', mask)
  {
    if handle !in s.classOf || !Enabled(s.classOf[handle], mask) then rects else
    var k, r := s.classOf[handle], s.rootOf[handle] % 256;
    rects[k := rects[k][r := if r in rects[k] then Extended(rects[k][r], i, j) else PixelRect(i, j)]]
  }

  /** The rectangles after the first `n` pixels. */
  function Scan(s: Scene, buffer: seq<Byte>, width: nat, mask: bv8, n: nat): (rects: Rects)
    requires s.Valid() && (width > 0 || n == 0) && n <= Pixels(buffer)
    ensures Grouped(rects, mask)
  {
    if n == 0 then NoRects(mask, 8) else
    AfterPixel(s, mask, Scan(s, buffer, width, mask, n - 1), PixelHandle(buffer, n - 1), RowOf(width, n - 1), ColumnOf(width, n - 1))
  }

  lemma AfterPixelFound(s: Scene, mask: bv8, rects: Rects, handle: int, i: nat, j: nat, k: nat, r: int)
    requires s.Valid() && Grouped(rects, mask)
    ensures Found(AfterPixel(s, mask, rects, handle, i, j), k, r)
         == if !StandsFor(s, handle, mask, k, r) then Found(rects, k, r)
            else if Found(rects, k, r) == None then Some(PixelRect(i, j))
            else Some(Extended(Found(rects, k, r).value, i, j))
  {}

  // ---------- the scan finds it ----------

  lemma ExtendedHolds(rect: Rect, i: nat, j: nat, i': nat, j': nat)
    requires Inside(rect, i', j')
    ensures Inside(Extended(rect, i, j), i', j')
    ensures Inside(Extended(rect, i, j), i % 65536, j % 65536)
  {}

  lemma ExtendedTouches(rect: Rect, i: nat, j: nat, side: Side, i': nat, j': nat)
    requires Touches(rect, side, i', j')
    ensures var e := Extended(rect, i, j);
            Touches(e, side, i', j') || Touches(e, side, i % 65536, j % 65536)
  {}

  function SideOf(rect: Rect, side: Side): nat {
    match side
    case Top => rect.minI
    case Bottom => rect.maxI
    case Left => rect.minJ
    case Right => rect.maxJ
  }

  lemma SameSide(s: Scene, buffer: seq<Byte>, width: nat, mask: bv8, n: nat, k: nat, r: int, a: Rect, b: Rect, side: Side)
    requires s.Valid() && width > 0 && n <= Pixels(buffer)
    requires Tight(s, buffer, width, mask, n, k, r, a) && Tight(s, buffer, width, mask, n, k, r, b)
    ensures SideOf(a, side) == SideOf(b, side)
  {
    assert Attained(s, buffer, width, mask, n, k, r, a, side) && Attained(s, buffer, width, mask, n, k, r, b, side);
  }

  /** There is only one tight rectangle. */
  lemma TightUnique(s: Scene, buffer: seq<Byte>, width: nat, mask: bv8, n: nat, k: nat, r: int, a: Rect, b: Rect)
    requires s.Valid() && width > 0 && n <= Pixels(buffer)
    requires Tight(s, buffer, width, mask, n, k, r, a) && Tight(s, buffer, width, mask, n, k, r, b)
    ensures a == b
  {
    SameSide(s, buffer, width, mask, n, k, r, a, b, Top);
    SameSide(s, buffer, width, mask, n, k, r, a, b, Bottom);
    SameSide(s, buffer, width, mask, n, k, r, a, b, Left);
    SameSide(s, buffer, width, mask, n, k, r, a, b, Right);
  }

  lemma PixelKeepsExact(s: Scene, buffer: seq<Byte>, width: nat, mask: bv8, n: nat, k: nat, r: int,
                        found: Option<Rect>, found': Option<Rect>)
    requires s.Valid() && width > 0 && n < Pixels(buffer)
    requires ExactFor(s, buffer, width, mask, n, k, r, found)
    requires found' == if !Shows(s, buffer, mask, n, k, r) then found
                       else if found == None then Some(PixelRect(RowOf(width, n), ColumnOf(width, n)))
                       else Some(Extended(found.value, RowOf(width, n), ColumnOf(width, n)))
    ensures ExactFor(s, buffer, width, mask, n + 1, k, r, found')
  {
    if Shows(s, buffer, mask, n, k, r) {
      if found.Some? {
        PixelExtends(s, buffer, width, mask, n, k, r, found.value, found'.value);
      } else {
        FirstPixel(s, buffer, width, mask, n, k, r);
      }
    } else {
      OtherPixel(s, buffer, width, mask, n, k, r, found);
    }
  }

  lemma OtherPixel(s: Scene, buffer: seq<Byte>, width: nat, mask: bv8, n: nat, k: nat, r: int, found: Option<Rect>)
    requires s.Valid() && width > 0 && n < Pixels(buffer) && !Shows(s, buffer, mask, n, k, r)
    requires ExactFor(s, buffer, width, mask, n, k, r, found)
    ensures ExactFor(s, buffer, width, mask, n + 1, k, r, found)
  {
    if found.Some? {
      var m := n + 1;
      forall side: Side ensures Attained(s, buffer, width, mask, m, k, r, found.value, side) {
        assert Attained(s, buffer, width, mask, n, k, r, found.value, side);
      }
    }
  }

  lemma FirstPixel(s: Scene, buffer: seq<Byte>, width: nat, mask: bv8, n: nat, k: nat, r: int)
    requires s.Valid() && width > 0 && n < Pixels(buffer) && Shows(s, buffer, mask, n, k, r)
    requires !Visible(s, buffer, mask, n, k, r)
    ensures Tight(s, buffer, width, mask, n + 1, k, r, PixelRect(RowOf(width, n), ColumnOf(width, n)))
  {
    var rect, m := PixelRect(RowOf(width, n), ColumnOf(width, n)), n + 1;
    forall side: Side ensures Attained(s, buffer, width, mask, m, k, r, rect, side) {
      assert Touches(rect, side, Row(width, n), Column(width, n));
    }
  }

  lemma SideExtends(s: Scene, buffer: seq<Byte>, width: nat, mask: bv8, n: nat, k: nat, r: int, rect: Rect, rect': Rect, side: Side)
    requires s.Valid() && width > 0 && n < Pixels(buffer) && Shows(s, buffer, mask, n, k, r)
    requires Attained(s, buffer, width, mask, n, k, r, rect, side) && rect' == Extended(rect, RowOf(width, n), ColumnOf(width, n))
    ensures Attained(s, buffer, width, mask, n + 1, k, r, rect', side)
  {
    var p: nat :| p < n && Shows(s, buffer, mask, p, k, r) && Touches(rect, side, Row(width, p), Column(width, p));
    ExtendedTouches(rect, RowOf(width, n), ColumnOf(width, n), side, Row(width, p), Column(width, p));
    assert Touches(rect', side, Row(width, p), Column(width, p)) || Touches(rect', side, Row(width, n), Column(width, n));
  }

  lemma InsideExtends(width: nat, rect: Rect, rect': Rect, n: nat, p: nat)
    requires width > 0 && rect' == Extended(rect, RowOf(width, n), ColumnOf(width, n))
    requires p == n || Inside(rect, Row(width, p), Column(width, p))
    ensures Inside(rect', Row(width, p), Column(width, p))
  {
    if p != n {
      ExtendedHolds(rect, RowOf(width, n), ColumnOf(width, n), Row(width, p), Column(width, p));
    }
  }

  lemma PixelExtends(s: Scene, buffer: seq<Byte>, width: nat, mask: bv8, n: nat, k: nat, r: int, rect: Rect, rect': Rect)
    requires s.Valid() && width > 0 && n < Pixels(buffer) && Shows(s, buffer, mask, n, k, r)
    requires Tight(s, buffer, width, mask, n, k, r, rect) && rect' == Extended(rect, RowOf(width, n), ColumnOf(width, n))
    ensures Tight(s, buffer, width, mask, n + 1, k, r, rect')
  {
    forall p: nat | p < n + 1 && Shows(s, buffer, mask, p, k, r)
      ensures Inside(rect', Row(width, p), Column(width, p))
    {
      InsideExtends(width, rect, rect', n, p);
    }
    var m := n + 1;
    forall side: Side ensures Attained(s, buffer, width, mask, m, k, r, rect', side) {
      SideExtends(s, buffer, width, mask, n, k, r, rect, rect', side);
    }
  }

  /** For every image, and after every pixel of the pass: an object has an entry exactly if one
      of its pixels has been seen, and the entry is its tight bounding rectangle. */
  lemma {:induction false} ScanExact(s: Scene, buffer: seq<Byte>, width: nat, mask: bv8, n: nat, k: nat, r: int)
    requires s.Valid() && width > 0 && n <= Pixels(buffer)
    ensures ExactFor(s, buffer, width, mask, n, k, r, Found(Scan(s, buffer, width, mask, n), k, r))
  {
    if n > 0 {
      var rects, handle := Scan(s, buffer, width, mask, n - 1), PixelHandle(buffer, n - 1);
      ScanExact(s, buffer, width, mask, n - 1, k, r);
      AfterPixelFound(s, mask, rects, handle, RowOf(width, n - 1), ColumnOf(width, n - 1), k, r);
      PixelKeepsExact(s, buffer, width, mask, n - 1, k, r, Found(rects, k, r), Found(Scan(s, buffer, width, mask, n), k, r));
    }
  }

  // ---------- the pass over the image ----------

  lemma MulMonotone(a: nat, b: nat, w: nat)
    requires a <= b
    ensures a * w <= b * w
  {
    if a < b {
      MulMonotone(a, b - 1, w);
      assert b * w == (b - 1) * w + w;
    }
  }

  lemma {:induction false} PixelNumber(width: nat, p: nat, i: nat, j: nat)
    requires j < width && p == i * width + j
    ensures RowOf(width, p) == i && ColumnOf(width, p) == j
  {
    if i > 0 {
      assert i * width == (i - 1) * width + width;
      MulMonotone(0, i - 1, width);
      PixelNumber(width, p - width, i - 1, j);
    }
  }

  lemma RowInside(height: nat, width: nat, i: nat)
    requires i < height
    ensures (i + 1) * width == i * width + width
    ensures (i + 1) * width <= height * width
  {
    MulMonotone(i + 1, height, width);
  }

  /** Pixel `j` of row `i` is the next one that the scan looks at. */
  lemma ScanNext(s: Scene, buffer: seq<Byte>, width: nat, mask: bv8, n: nat, i: nat, j: nat)
    requires s.Valid() && j < width && n == i * width + j && n < Pixels(buffer)
    ensures Scan(s, buffer, width, mask, n + 1)
         == AfterPixel(s, mask, Scan(s, buffer, width, mask, n), Handle(buffer, 3 * n), i, j)
  {
    PixelNumber(width, n, i, j);
  }

  /** The two nested loops. `offset` is how far the source has moved along the buffer, and `n`
      the number of pixels passed. */
  method DetectRects(s: Scene, buffer: seq<Byte>, width: nat, height: nat, mask: bv8) returns (rects: Rects)
    requires s.Valid() && |buffer| == 3 * (height * width)
    ensures width > 0 || height * width == 0
    ensures rects == Scan(s, buffer, width, mask, height * width)
  {
    rects := EmptyGroups(mask);
    var offset := 0;
    ghost var n := 0;
    for i := 0 to height
      invariant n == i * width && offset == 3 * n && n <= height * width
      invariant rects == Scan(s, buffer, width, mask, n)
    {
      RowInside(height, width, i);
      for j := 0 to width
        invariant n == i * width + j && offset == 3 * n
        invariant rects == Scan(s, buffer, width, mask, n)
      {
        rects := SeeNextPixel(s, buffer, width, mask, rects, offset, i, j, n);
        offset := offset + 3;
        n := n + 1;
      }
    }
  }

  lemma OneMoreGroup(mask: bv8, k: nat)
    ensures NoRects(mask, k + 1) == if Enabled(k, mask) then NoRects(mask, k)[k := map[]] else NoRects(mask, k)
  {}

  method EmptyGroups(mask: bv8) returns (rects: Rects)
    ensures rects == NoRects(mask, 8)
  {
    rects := map[];
    for k := 0 to 8
      invariant rects == NoRects(mask, k)
    {
      OneMoreGroup(mask, k);
      if Enabled(k, mask) {
        rects := rects[k := map[]];
      }
    }
  }

  /** The body of the inner loop. */
  method SeeNextPixel(s: Scene, buffer: seq<Byte>, width: nat, mask: bv8, rects: Rects, offset: nat, i: nat, j: nat,
                      ghost n: nat)
    returns (rects': Rects)
    requires s.Valid() && j < width && n == i * width + j && offset == 3 * n && n < Pixels(buffer)
    requires rects == Scan(s, buffer, width, mask, n)
    ensures rects' == Scan(s, buffer, width, mask, n + 1)
  {
    ScanNext(s, buffer, width, mask, n, i, j);
    rects' := SeePixel(s, mask, rects, Handle(buffer, offset), i, j);
  }

  method SeePixel(s: Scene, mask: bv8, rects: Rects, handle: int, i: nat, j: nat) returns (rects': Rects)
    requires s.Valid() && Grouped(rects, mask)
    ensures rects' == AfterPixel(s, mask, rects, handle, i, j)
  {
    rects' := rects;
    if handle in s.classOf {
      var k, r := s.classOf[handle], s.rootOf[handle] % 256;
      if Enabled(k, mask) {
        if r !in rects[k] {
          rects' := rects[k := rects[k][r := PixelRect(i, j)]];
        } else {
          rects' := rects[k := rects[k][r := Extended(rects[k][r], i, j)]];
        }
      }
    }
  }

  // ---------- boxes relative to the size of the image ----------

  /** Center and size, as shares of the width and height. */
  datatype BoundingBox = BoundingBox(x: real, y: real, width: real, height: real)

  /** `ImageRect::box`; the size comes in 16 bits. */
  function BoxOf(r: Rect, w: nat, h: nat): BoundingBox
    requires w > 0 && h > 0
  {
    BoundingBox((r.maxJ + r.minJ) as real / w as real * 0.5, 1.0 - (r.maxI + r.minI) as real / h as real * 0.5,
                (r.maxJ - r.minJ + 1) as real / w as real, (r.maxI - r.minI + 1) as real / h as real)
  }

  /** Where the size in 16 bits is zero, the source's floats are infinite: there is no box. */
  function BoxIn(r: Rect, w: nat, h: nat): Option<BoundingBox> {
    if w > 0 && h > 0 then Some(BoxOf(r, w, h)) else None
  }

  type Boxes = map<nat, map<int, Option<BoundingBox>>>

  lemma ScanKeys(s: Scene, buffer: seq<Byte>, width: nat, mask: bv8, n: nat, k: nat, r: int)
    requires s.Valid() && (width > 0 || n == 0) && n <= Pixels(buffer)
    requires k in Scan(s, buffer, width, mask, n) && r in Scan(s, buffer, width, mask, n)[k]
    ensures k < 8 && 0 <= r < 256
  {
    if n > 0 {
      ScanExact(s, buffer, width, mask, n, k, r);
    }
  }

  /** The final loops over the two levels of the map, in the order of the keys. */
  method DetectBoundingBoxes(s: Scene, buffer: seq<Byte>, width: nat, height: nat, mask: bv8) returns (boxes: Boxes)
    requires s.Valid() && |buffer| == 3 * (height * width)
    ensures var rects := Scan(s, buffer, width, mask, height * width);
            && boxes.Keys == rects.Keys
            && forall k <- rects :: boxes[k] == map r | r in rects[k] :: BoxIn(rects[k][r], width % 65536, height % 65536)
  {
    var rects := DetectRects(s, buffer, width, height, mask);
    boxes := map[];
    for k := 0 to 8
      invariant forall l :: l in boxes <==> l in rects && l < k
      invariant forall l <- boxes :: boxes[l] == map r | r in rects[l] :: BoxIn(rects[l][r], width % 65536, height % 65536)
    {
      if k in rects {
        forall r <- rects[k] ensures 0 <= r < 256 {
          ScanKeys(s, buffer, width, mask, height * width, k, r);
        }
        var group := BoxesOf(rects[k], width % 65536, height % 65536);
        boxes := boxes[k := group];
      }
    }
  }

  method BoxesOf(group: map<int, Rect>, w: nat, h: nat) returns (boxes: map<int, Option<BoundingBox>>)
    requires forall r <- group :: 0 <= r < 256
    ensures boxes == map r | r in group :: BoxIn(group[r], w, h)
  {
    boxes := map[];
    for r := 0 to 256
      invariant boxes == map q | q in group && q < r :: BoxIn(group[q], w, h)
    {
      if r in group {
        boxes := boxes[r := BoxIn(group[r], w, h)];
      }
    }
  }

  /** A box reaches half a pixel beyond the outermost pixels of its object on every side, if pixel
      `j` is placed at `j / w`; the first row is at the top of the scale. */
  lemma BoxEdges(r: Rect, w: nat, h: nat)
    requires w > 0 && h > 0
    ensures var b := BoxOf(r, w, h);
            && (b.x - b.width / 2.0) * w as real == r.minJ as real - 0.5
            && (b.x + b.width / 2.0) * w as real == r.maxJ as real + 0.5
            && (1.0 - b.y - b.height / 2.0) * h as real == r.minI as real - 0.5
            && (1.0 - b.y + b.height / 2.0) * h as real == r.maxI as real + 0.5
  {
    Halves(r.minJ as real, r.maxJ as real, w as real);
    Halves(r.minI as real, r.maxI as real, h as real);
  }

  lemma Halves(lo: real, hi: real, w: real)
    requires w > 0.0
    ensures ((hi + lo) / w * 0.5 - (hi - lo + 1.0) / w / 2.0) * w == lo - 0.5
    ensures ((hi + lo) / w * 0.5 + (hi - lo + 1.0) / w / 2.0) * w == hi + 0.5
  {
    var a, b := (hi + lo) / w, (hi - lo + 1.0) / w;
    assert a * w == hi + lo && b * w == hi - lo + 1.0;
    assert (a * 0.5 - b / 2.0) * w == (a * w) / 2.0 - (b * w) / 2.0;
    assert (a * 0.5 + b / 2.0) * w == (a * w) / 2.0 + (b * w) / 2.0;
  }

  /** In images of up to 65536 rows and columns the 16 bits hold every coordinate. */
  lemma {:induction false} CoordinatesFit(width: nat, height: nat, p: nat)
    requires width <= 65536 && height <= 65536 && p < height * width
    ensures width > 0 && RowOf(width, p) < height && ColumnOf(width, p) < width
    ensures p == RowOf(width, p) * width + ColumnOf(width, p)
    ensures Row(width, p) == RowOf(width, p) && Column(width, p) == ColumnOf(width, p)
    decreases height
  {
    Positive(height, width);
    assert height * width == (height - 1) * width + width;
    if p >= width {
      CoordinatesFit(width, height - 1, p - width);
      assert RowOf(width, p) * width == RowOf(width, p - width) * width + width;
    }
  }

  lemma Positive(a: nat, b: nat)
    requires a * b > 0
    ensures a > 0 && b > 0
  {}
}
