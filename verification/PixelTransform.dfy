/**
 * Turning an image upright by its EXIF orientation, and shrinking it to the longest permitted
 * edge: the pixel loops, the group the eight orientations form, and the sizes.
 */
module PixelTransform {
  type Color = int

  datatype Size = Size(w: nat, h: nat)

  datatype Point = Point(x: int, y: int)

  const MAX_EDGE := 1600

  predicate Valid(o: int) { 1 <= o <= 8 }

  predicate Inside(p: Point, s: Size)
  {
    0 <= p.x < s.w && 0 <= p.y < s.h
  }

  /** Orientations 5 to 8 swap width and height. */
  function Turned(s: Size, o: int): Size
  {
    if 5 <= o <= 8 then Size(s.h, s.w) else s
  }

  /** Where orientation `o` puts pixel `p` of an image of size `s`. */
  function Moved(p: Point, s: Size, o: int): Point
  {
    match o
    case 2 => Point(s.w - 1 - p.x, p.y)
    case 3 => Point(s.w - 1 - p.x, s.h - 1 - p.y)
    case 4 => Point(p.x, s.h - 1 - p.y)
    case 5 => Point(p.y, p.x)
    case 6 => Point(s.h - 1 - p.y, p.x)
    case 7 => Point(s.h - 1 - p.y, s.w - 1 - p.x)
    case 8 => Point(p.y, s.w - 1 - p.x)
    case _ => p
  }

  // ---- The group ----

  /** Swap the axes or not, then flip the new image along each axis or not. */
  datatype Act = Act(swap: bool, flipX: bool, flipY: bool)

  function Sized(s: Size, a: Act): Size
  {
    if a.swap then Size(s.h, s.w) else s
  }

  function Applied(p: Point, s: Size, a: Act): Point
  {
    var t := Sized(s, a);
    var q := if a.swap then Point(p.y, p.x) else p;
    Point(if a.flipX then t.w - 1 - q.x else q.x, if a.flipY then t.h - 1 - q.y else q.y)
  }

  function Composed(a: Act, b: Act): Act
  {
    Act(a.swap != b.swap, (if b.swap then a.flipY else a.flipX) != b.flipX,
        (if b.swap then a.flipX else a.flipY) != b.flipY)
  }

  function ActOf(o: int): Act
  {
    Act(o >= 5, o == 2 || o == 3 || o == 6 || o == 7, o == 3 || o == 4 || o == 7 || o == 8)
  }

  function Named(a: Act): (o: int)
    ensures Valid(o) && ActOf(o) == a
  {
    if a.swap then
      if a.flipX then (if a.flipY then 7 else 6) else if a.flipY then 8 else 5
    else
      if a.flipX then (if a.flipY then 3 else 2) else if a.flipY then 4 else 1
  }

  /** The orientation that does `a` and then `b`. */
  function Then(a: int, b: int): int
  {
    Named(Composed(ActOf(a), ActOf(b)))
  }

  function Inverse(o: int): int
  {
    if o == 6 then 8 else if o == 8 then 6 else o
  }

  lemma MovedIsApplied(p: Point, s: Size, o: int)
    requires Valid(o)
    ensures Moved(p, s, o) == Applied(p, s, ActOf(o)) && Turned(s, o) == Sized(s, ActOf(o))
  {
  }

  lemma AppliedTwice(p: Point, s: Size, a: Act, b: Act)
    ensures Applied(Applied(p, s, a), Sized(s, a), b) == Applied(p, s, Composed(a, b))
    ensures Sized(Sized(s, a), b) == Sized(s, Composed(a, b))
  {
  }

  lemma NamedOf(o: int)
    requires Valid(o)
    ensures Named(ActOf(o)) == o
  {
  }

  /** The eight orientations are closed under composition, on every image and pixel. */
  lemma ThenComposes(a: int, b: int, p: Point, s: Size)
    requires Valid(a) && Valid(b)
    ensures Moved(Moved(p, s, a), Turned(s, a), b) == Moved(p, s, Then(a, b))
    ensures Turned(Turned(s, a), b) == Turned(s, Then(a, b))
  {
    MovedIsApplied(p, s, a);
    MovedIsApplied(Moved(p, s, a), Turned(s, a), b);
    MovedIsApplied(p, s, Then(a, b));
    hide Moved, Applied, Turned, Sized, Composed, ActOf;
    AppliedTwice(p, s, ActOf(a), ActOf(b));
  }

  /** 6 and 8 undo each other, every other orientation undoes itself, and nothing else undoes it. */
  lemma InverseUndoes(o: int, b: int, p: Point, s: Size)
    requires Valid(o) && Valid(b)
    ensures Then(o, b) == 1 <==> b == Inverse(o)
    ensures Moved(Moved(p, s, o), Turned(s, o), Inverse(o)) == p && Turned(Turned(s, o), Inverse(o)) == s
  {
    ThenComposes(o, Inverse(o), p, s);
  }

  lemma GroupLaws(a: int, b: int, c: int)
    requires Valid(a) && Valid(b) && Valid(c)
    ensures Then(Then(a, b), c) == Then(a, Then(b, c))
    ensures Then(1, a) == a == Then(a, 1)
  {
    NamedOf(a);
    assert Composed(Composed(ActOf(a), ActOf(b)), ActOf(c)) == Composed(ActOf(a), Composed(ActOf(b), ActOf(c)));
    assert Composed(ActOf(1), ActOf(a)) == ActOf(a) == Composed(ActOf(a), ActOf(1));
  }

  /** The destination lies inside the turned image, and each destination has exactly one source. */
  lemma MovedIsBijection(q: Point, s: Size, o: int, p: Point)
    requires Valid(o)
    ensures Inside(p, s) <==> Inside(Moved(p, s, o), Turned(s, o))
    ensures Moved(p, s, o) == q <==> p == Moved(q, Turned(s, o), Inverse(o))
  {
    InverseUndoes(o, 1, p, s);
    InverseUndoes(Inverse(o), 1, q, Turned(s, o));
  }

  /**
   * What the orientations mean, as the Exif standard defines them by where row 0 and column 0 of the
   * stored image are to be seen: at the top or bottom, and at the left or right.
   */
  lemma RowAndColumn(s: Size, x: int, y: int)
    ensures Moved(Point(x, 0), s, 1).y == 0 && Moved(Point(0, y), s, 1).x == 0                 // top, left
    ensures Moved(Point(x, 0), s, 2).y == 0 && Moved(Point(0, y), s, 2).x == s.w - 1           // top, right
    ensures Moved(Point(x, 0), s, 3).y == s.h - 1 && Moved(Point(0, y), s, 3).x == s.w - 1     // bottom, right
    ensures Moved(Point(x, 0), s, 4).y == s.h - 1 && Moved(Point(0, y), s, 4).x == 0           // bottom, left
    ensures Moved(Point(x, 0), s, 5).x == 0 && Moved(Point(0, y), s, 5).y == 0                 // left, top
    ensures Moved(Point(x, 0), s, 6).x == s.h - 1 && Moved(Point(0, y), s, 6).y == 0           // right, top
    ensures Moved(Point(x, 0), s, 7).x == s.h - 1 && Moved(Point(0, y), s, 7).y == s.w - 1     // right, bottom
    ensures Moved(Point(x, 0), s, 8).x == 0 && Moved(Point(0, y), s, 8).y == s.w - 1           // left, bottom
  {
  }

  /** Neighbours stay neighbours: one step along a row or a column is one step along either axis. */
  lemma MovedKeepsDistance(p: Point, q: Point, s: Size, o: int)
    ensures var a, b := Moved(p, s, o), Moved(q, s, o);
            if 5 <= o <= 8 then Distance(a.x, b.x) == Distance(p.y, q.y) && Distance(a.y, b.y) == Distance(p.x, q.x)
            else Distance(a.x, b.x) == Distance(p.x, q.x) && Distance(a.y, b.y) == Distance(p.y, q.y)
  {
  }

  function Distance(a: int, b: int): int { if a < b then b - a else a - b }

  // ---- The loops ----

  /** Row-major pixels of an image. */
  class Image {
    const size: Size
    const pixels: array2<Color>

    ghost predicate Valid()
      reads this
    {
      pixels.Length0 == size.h && pixels.Length1 == size.w
    }

    constructor (size: Size)
      ensures Valid() && this.size == size && fresh(pixels)
    {
      this.size := size;
      this.pixels := new Color[size.h, size.w];
    }
  }

  /** Pixel `p` of an image, 0 outside. */
  function Pixel(pixels: array2<Color>, p: Point): Color
    reads pixels
  {
    if 0 <= p.y < pixels.Length0 && 0 <= p.x < pixels.Length1 then pixels[p.y, p.x] else 0
  }

  /** Reading order. */
  predicate Earlier(p: Point, x: int, y: int)
  {
    p.y < y || (p.y == y && p.x < x)
  }

  ghost predicate Copied(src: array2<Color>, dst: array2<Color>, s: Size, o: int, x: int, y: int)
    reads src, dst
  {
    forall p :: Inside(p, s) && Earlier(p, x, y) ==> Pixel(dst, Moved(p, s, o)) == Pixel(src, p)
  }

  /**
   * Orientation 1 and anything out of range pass the image through; otherwise every pixel of the
   * turned image is the one pixel of the original that the inverse orientation leads to.
   */
  method Orient(img: Image, o: int) returns (out: Image)
    requires img.Valid()
    ensures out.Valid()
    ensures o <= 1 || o > 8 ==> out == img
    ensures 2 <= o <= 8 ==> fresh(out) && fresh(out.pixels) && out.size == Turned(img.size, o)
    ensures 2 <= o <= 8 ==> forall q :: Inside(q, out.size) ==>
              Inside(Moved(q, out.size, Inverse(o)), img.size) &&
              Pixel(out.pixels, q) == Pixel(img.pixels, Moved(q, out.size, Inverse(o)))
  {
    if o <= 1 || o > 8 {
      return img;
    }
    var w, h := img.size.w, img.size.h;
    out := new Image(if o >= 5 then Size(h, w) else Size(w, h));
    for y := 0 to h
      invariant Copied(img.pixels, out.pixels, img.size, o, 0, y)
    {
      for x := 0 to w
        invariant Copied(img.pixels, out.pixels, img.size, o, x, y)
      {
        CopyOne(img.pixels, out.pixels, img.size, o, x, y);
      }
      assert forall p :: Inside(p, img.size) && Earlier(p, 0, y + 1) ==> Earlier(p, w, y);
    }
    forall q | Inside(q, out.size)
      ensures Inside(Moved(q, out.size, Inverse(o)), img.size)
      ensures Pixel(out.pixels, q) == Pixel(img.pixels, Moved(q, out.size, Inverse(o)))
    {
      hide Moved, Turned;
      var p := Moved(q, out.size, Inverse(o));
      MovedIsBijection(q, img.size, o, p);
      assert Earlier(p, 0, h) && Moved(p, img.size, o) == q;
    }
  }

  /** The destination of one pixel, as the switch computes it. */
  method Destination(x: int, y: int, s: Size, o: int) returns (dx: int, dy: int)
    requires 2 <= o <= 8
    ensures Moved(Point(x, y), s, o) == Point(dx, dy)
  {
    var w, h := s.w, s.h;
    match o {
      case 2 => dx, dy := w - 1 - x, y;
      case 3 => dx, dy := w - 1 - x, h - 1 - y;
      case 4 => dx, dy := x, h - 1 - y;
      case 5 => dx, dy := y, x;
      case 6 => dx, dy := h - 1 - y, x;
      case 7 => dx, dy := h - 1 - y, w - 1 - x;
      case _ => dx, dy := y, w - 1 - x;
    }
  }

  method CopyOne(src: array2<Color>, dst: array2<Color>, s: Size, o: int, x: int, y: int)
    requires 2 <= o <= 8 && Inside(Point(x, y), s) && src != dst
    requires src.Length0 == s.h && src.Length1 == s.w
    requires dst.Length0 == Turned(s, o).h && dst.Length1 == Turned(s, o).w
    requires Copied(src, dst, s, o, x, y)
    modifies dst
    ensures Copied(src, dst, s, o, x + 1, y)
  {
    hide Moved, Turned;
    var dx, dy := Destination(x, y, s, o);
    MovedIsBijection(Point(dx, dy), s, o, Point(x, y));
    dst[dy, dx] := src[y, x];
    forall p | Inside(p, s) && Earlier(p, x + 1, y)
      ensures Pixel(dst, Moved(p, s, o)) == Pixel(src, p)
    {
      if p != Point(x, y) {
        MovedIsBijection(Point(dx, dy), s, o, p);
        assert Earlier(p, x, y) && Moved(p, s, o) != Point(dx, dy);
        assert Pixel(dst, Moved(p, s, o)) == old(Pixel(dst, Moved(p, s, o)));
      }
    }
  }

  // ---- Sizes ----

  function Max(a: int, b: int): int { if a > b then a else b }

  function Min(a: int, b: int): int { if a < b then a else b }

  /** `scaled * 1600 / longest`, at least 1. */
  function Shorter(scaled: nat, longest: nat): nat
    requires longest > 0
  {
    Max(1, scaled * MAX_EDGE / longest)
  }

  /** The size of the shrunk image. */
  function Shrunk(s: Size): Size
  {
    if Max(s.w, s.h) <= MAX_EDGE then s
    else if s.w >= s.h then Size(MAX_EDGE, Shorter(s.h, s.w))
    else Size(Shorter(s.w, s.h), MAX_EDGE)
  }

  lemma TimesLess(a: int, b: int, k: int)
    requires k > 0 && a < b
    ensures a * k < b * k
  {
    assert (b - a) * k > 0;
  }

  lemma CancelLess(a: int, b: int, k: int)
    requires k > 0 && a * k < b * k
    ensures a < b
  {
    if a > b {
      TimesLess(b, a, k);
    }
  }

  lemma Quotient(a: nat, k: nat)
    requires k > 0
    ensures a / k * k <= a < (a / k + 1) * k
  {
    assert a == a / k * k + a % k;
  }

  lemma ShorterBounds(a: nat, b: nat)
    requires 1 <= a <= b && MAX_EDGE < b
    ensures 1 <= Shorter(a, b) <= MAX_EDGE && Shorter(a, b) <= a
    ensures 0 - b < Shorter(a, b) * b - MAX_EDGE * a < b
  {
    var q := a * MAX_EDGE / b;
    Quotient(a * MAX_EDGE, b);
    assert (q + 1) * b == q * b + b;
    if a < b {
      TimesLess(a, b, MAX_EDGE);
    }
    assert q * b <= b * MAX_EDGE == MAX_EDGE * b < (MAX_EDGE + 1) * b;
    CancelLess(q, MAX_EDGE + 1, b);
    TimesLess(MAX_EDGE, b, a);
    assert a * MAX_EDGE == MAX_EDGE * a && b * a == a * b;
    CancelLess(q, a, b);
  }

  /**
   * Shrinking never enlarges, keeps every edge between 1 and 1600, leaves exactly what fits alone,
   * and keeps the aspect ratio to within one pixel of the shorter edge.
   */
  lemma ShrunkSize(s: Size)
    requires s.w >= 1 && s.h >= 1
    ensures var t := Shrunk(s);
            && 1 <= t.w <= Min(s.w, 1600) && 1 <= t.h <= Min(s.h, 1600)
            && (Max(s.w, s.h) <= 1600 <==> t == s)
            && (Max(s.w, s.h) > 1600 ==> Max(t.w, t.h) == 1600)
            && -Max(s.w, s.h) < t.w * s.h - t.h * s.w < Max(s.w, s.h)
  {
    if Max(s.w, s.h) > MAX_EDGE {
      if s.w >= s.h {
        ShorterBounds(s.h, s.w);
      } else {
        ShorterBounds(s.w, s.h);
      }
    }
  }

  /** `q` is 1600 `a` / `b` rounded down, or 1 where that is nothing. */
  predicate RoundedDown(q: int, a: int, b: int)
  {
    q * b <= 1600 * a < (q + 1) * b || (q == 1 && 1600 * a < b)
  }

  lemma ShorterRoundsDown(a: nat, b: nat)
    requires b > 0
    ensures RoundedDown(Shorter(a, b), a, b)
  {
    var q := a * MAX_EDGE / b;
    assert a * MAX_EDGE == 1600 * a;
    Quotient(a * MAX_EDGE, b);
    if q < 1 {
      assert q == 0 && (q + 1) * b == b;
    }
  }

  /** The shorter edge is the exact proportion rounded down, but never nothing. */
  lemma ShrunkExactly(s: Size)
    requires s.w >= 1 && s.h >= 1 && Max(s.w, s.h) > 1600
    ensures var t := Shrunk(s);
            if s.w >= s.h then t.w == 1600 && RoundedDown(t.h, s.h, s.w) else t.h == 1600 && RoundedDown(t.w, s.w, s.h)
  {
    hide RoundedDown, Shorter;
    if s.w >= s.h {
      ShorterRoundsDown(s.h, s.w);
    } else {
      ShorterRoundsDown(s.w, s.h);
    }
  }

  /** Shrinking and then turning gives the size that turning and then shrinking gives. */
  lemma ShrinkThenTurn(s: Size, o: int)
    ensures Turned(Shrunk(s), o) == Shrunk(Turned(s, o))
  {
    if s.w == s.h > MAX_EDGE {
      ShorterBounds(s.w, s.w);
      assert Shorter(s.w, s.w) * s.w > (MAX_EDGE - 1) * s.w;
      CancelLess(MAX_EDGE - 1, Shorter(s.w, s.w), s.w);
    }
    hide Shorter;
  }
}
