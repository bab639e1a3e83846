/**
 * The 64x32 monochrome display of src/chip8screen.c: a pixel grid indexed
 * pixels[x][y] (column first), with clear, set-on, set-off, query and the
 * XOR sprite draw that reports collisions.
 *
 * The first half of the module is the specification on values (a Grid is a
 * sequence of columns); the class Screen at the end is the in-place grid that
 * the interpreter updates, and each of its methods is proved against that
 * specification.
 */
module Screen {
  import opened Config

  /** The display as a value: g[x][y] is the pixel in column x, row y. */
  type Grid = seq<seq<bool>>

  predicate IsGrid(g: Grid) {
    |g| == Width && forall i | 0 <= i < Width :: |g[i]| == Height
  }

  /** The coordinate check that set-on, set-off and is-set assert. */
  predicate InBounds(x: int, y: int) {
    0 <= x < Width && 0 <= y < Height
  }

  /** The grid with every pixel off. */
  function Blank(): (g: Grid)
    ensures IsGrid(g)
    ensures forall i, j | InBounds(i, j) :: !g[i][j]
  {
    seq(Width, _ => seq(Height, _ => false))
  }

  /** Bit lx of a sprite row, counting from the most significant bit (lx = 0). */
  predicate Bit(row: Byte, lx: nat)
    requires lx < 8
  {
    (row as bv8) & (0x80 >> lx) != 0
  }

  /** The display column that sprite column lx lands on: it wraps around, it is never clipped. */
  function Column(x: nat, lx: nat): (c: nat)
    ensures c < Width
    ensures (x + lx - c) % Width == 0
    ensures x + lx < Width ==> c == x + lx
  {
    (x + lx) % Width
  }

  /** The display row that sprite row ly lands on, wrapping in the same way. */
  function Row(y: nat, ly: nat): (r: nat)
    ensures r < Height
    ensures (y + ly - r) % Height == 0
    ensures y + ly < Height ==> r == y + ly
  {
    (y + ly) % Height
  }

  /** Step (ly, lx) of the drawing loop toggles pixel (i, j). */
  predicate Targets(x: nat, y: nat, rows: seq<Byte>, ly: nat, lx: nat, i: int, j: int)
    requires ly < |rows| && lx < 8
  {
    Bit(rows[ly], lx) && Column(x, lx) == i && Row(y, ly) == j
  }

  /**
   * How many of the first k steps of the drawing loop (row-major, step
   * k' being row k' / 8 and column k' % 8) toggle pixel (i, j).
   */
  function Count(x: nat, y: nat, rows: seq<Byte>, k: nat, i: int, j: int): nat
    requires k <= 8 * |rows|
  {
    if k == 0 then 0
    else Count(x, y, rows, k - 1, i, j) + (if Targets(x, y, rows, (k - 1) / 8, (k - 1) % 8, i, j) then 1 else 0)
  }

  predicate Odd(n: nat) {
    n % 2 == 1
  }

  /** The grid after the first k steps of drawing `rows` at (x, y) over g: a pixel flips once per hit. */
  function Partial(g: Grid, x: nat, y: nat, rows: seq<Byte>, k: nat): (r: Grid)
    requires IsGrid(g) && k <= 8 * |rows|
    ensures IsGrid(r)
  {
    seq(Width, i requires 0 <= i < Width =>
      seq(Height, j requires 0 <= j < Height => g[i][j] != Odd(Count(x, y, rows, k, i, j))))
  }

  /** The grid after drawing every row of `rows` at (x, y). */
  function Drawn(g: Grid, x: nat, y: nat, rows: seq<Byte>): (r: Grid)
    requires IsGrid(g)
    ensures IsGrid(r)
  {
    Partial(g, x, y, rows, 8 * |rows|)
  }

  /** g with pixel (c, r) set to on: that pixel and no other changes. */
  function Painted(g: Grid, c: int, r: int, on: bool): (h: Grid)
    requires IsGrid(g) && InBounds(c, r)
    ensures IsGrid(h)
    ensures forall i, j | InBounds(i, j) :: h[i][j] == if i == c && j == r then on else g[i][j]
  {
    g[c := g[c][r := on]]
  }

  /** g with pixel (c, r) inverted: that pixel and no other changes. */
  function Toggle(g: Grid, c: int, r: int): (h: Grid)
    requires IsGrid(g) && InBounds(c, r)
    ensures IsGrid(h)
    ensures forall i, j | InBounds(i, j) :: h[i][j] == if i == c && j == r then !g[i][j] else g[i][j]
  {
    g[c := g[c][r := !g[c][r]]]
  }

  /**
   * Within the first k steps some toggle found its pixel already on: either a
   * pixel that was on in g is hit, or one pixel is hit twice (the second hit
   * finds the pixel the first hit turned on).
   */
  predicate CollidedWithin(g: Grid, x: nat, y: nat, rows: seq<Byte>, k: nat)
    requires IsGrid(g) && k <= 8 * |rows|
  {
    exists i, j | 0 <= i < Width && 0 <= j < Height :: CollidesAt(g, x, y, rows, k, i, j)
  }

  /** Pixel (i, j) witnesses a collision within the first k steps. */
  predicate CollidesAt(g: Grid, x: nat, y: nat, rows: seq<Byte>, k: nat, i: int, j: int)
    requires IsGrid(g) && k <= 8 * |rows|
  {
    InBounds(i, j) && Count(x, y, rows, k, i, j) > 0 && (g[i][j] || Count(x, y, rows, k, i, j) > 1)
  }

  /** The collision flag of a whole sprite draw. */
  predicate Collides(g: Grid, x: nat, y: nat, rows: seq<Byte>)
    requires IsGrid(g)
  {
    CollidedWithin(g, x, y, rows, 8 * |rows|)
  }

  /** Pixel (i, j) is the target of some set bit of the sprite. */
  predicate Targeted(x: nat, y: nat, rows: seq<Byte>, i: int, j: int) {
    exists ly, lx | 0 <= ly < |rows| && 0 <= lx < 8 :: Targets(x, y, rows, ly, lx, i, j)
  }

  /** One more loop step adds one to the count of its own target pixel and to no other. */
  lemma CountStep(x: nat, y: nat, rows: seq<Byte>, k: nat)
    requires k < 8 * |rows|
    ensures forall i, j ::
      Count(x, y, rows, k + 1, i, j) == Count(x, y, rows, k, i, j) + (if Targets(x, y, rows, k / 8, k % 8, i, j) then 1 else 0)
  {
  }

  /** One more step inverts the pixel under the step's bit when that bit is set, and nothing else. */
  lemma PartialStep(g: Grid, x: nat, y: nat, rows: seq<Byte>, k: nat, ly: nat, lx: nat)
    requires IsGrid(g) && ly < |rows| && lx < 8 && k == 8 * ly + lx
    ensures Partial(g, x, y, rows, k + 1) ==
      if Bit(rows[ly], lx) then Toggle(Partial(g, x, y, rows, k), Column(x, lx), Row(y, ly))
      else Partial(g, x, y, rows, k)
  {
    assert k / 8 == ly && k % 8 == lx;
    CountStep(x, y, rows, k);
    var p, q := Partial(g, x, y, rows, k + 1), Partial(g, x, y, rows, k);
    var want := if Bit(rows[ly], lx) then Toggle(q, Column(x, lx), Row(y, ly)) else q;
    ExtensionalGrid(p, want);
  }

  /**
   * The collision flag after one more step: it becomes set exactly when the
   * step toggles a pixel that is currently on.
   */
  lemma CollidedStep(g: Grid, x: nat, y: nat, rows: seq<Byte>, k: nat, ly: nat, lx: nat)
    requires IsGrid(g) && ly < |rows| && lx < 8 && k == 8 * ly + lx
    ensures var c, r := Column(x, lx), Row(y, ly);
      CollidedWithin(g, x, y, rows, k + 1) <==>
        CollidedWithin(g, x, y, rows, k) || (Bit(rows[ly], lx) && Partial(g, x, y, rows, k)[c][r])
  {
    assert k / 8 == ly && k % 8 == lx;
    var c, r := Column(x, lx), Row(y, ly);
    CountStep(x, y, rows, k);
    assert Partial(g, x, y, rows, k)[c][r] == (g[c][r] != Odd(Count(x, y, rows, k, c, r)));
    var hit := Bit(rows[ly], lx) && (g[c][r] != Odd(Count(x, y, rows, k, c, r)));
    if CollidedWithin(g, x, y, rows, k + 1) {
      var i, j :| 0 <= i < Width && 0 <= j < Height && CollidesAt(g, x, y, rows, k + 1, i, j);
      if !Targets(x, y, rows, ly, lx, i, j) {
        assert CollidesAt(g, x, y, rows, k, i, j);
      } else if Count(x, y, rows, k, c, r) == 0 {
        assert hit;
      } else if Count(x, y, rows, k, c, r) == 1 && !g[c][r] {
        assert hit;
      } else {
        assert CollidesAt(g, x, y, rows, k, c, r);
      }
    }
    if CollidedWithin(g, x, y, rows, k) {
      var i, j :| 0 <= i < Width && 0 <= j < Height && CollidesAt(g, x, y, rows, k, i, j);
      assert CollidesAt(g, x, y, rows, k + 1, i, j);
    }
    if hit {
      assert CollidesAt(g, x, y, rows, k + 1, c, r);
    }
  }

  /** Two numbers with the same remainder modulo Width (or Height) that are less than that apart are equal. */
  lemma SameResidue(a: nat, b: nat, m: nat)
    requires m == Width || m == Height
    requires a < b + m && b < a + m && a % m == b % m
    ensures a == b
  {
    if m == Width {
      assert a == Width * (a / Width) + a % Width && b == Width * (b / Width) + b % Width;
      assert a / Width == b / Width;
    } else {
      assert a == Height * (a / Height) + a % Height && b == Height * (b / Height) + b % Height;
      assert a / Height == b / Height;
    }
  }

  /**
   * With at most Height rows, two different steps of the drawing loop never
   * target the same pixel: rows land on distinct display rows and the eight
   * columns of one row on distinct display columns.
   */
  lemma TargetsUnique(x: nat, y: nat, rows: seq<Byte>, ly1: nat, lx1: nat, ly2: nat, lx2: nat, i: int, j: int)
    requires |rows| <= Height && ly1 < |rows| && ly2 < |rows| && lx1 < 8 && lx2 < 8
    requires Targets(x, y, rows, ly1, lx1, i, j) && Targets(x, y, rows, ly2, lx2, i, j)
    ensures ly1 == ly2 && lx1 == lx2
  {
    SameResidue(x + lx1, x + lx2, Width);
    SameResidue(y + ly1, y + ly2, Height);
  }

  /** With at most Height rows every pixel is hit at most once, and once exactly when some earlier step targets it. */
  lemma {:induction false} CountAtMostOne(x: nat, y: nat, rows: seq<Byte>, k: nat, i: int, j: int)
    requires |rows| <= Height && k <= 8 * |rows|
    ensures Count(x, y, rows, k, i, j) ==
      if exists k' | 0 <= k' < k :: Targets(x, y, rows, k' / 8, k' % 8, i, j) then 1 else 0
  {
    if k > 0 {
      CountAtMostOne(x, y, rows, k - 1, i, j);
      if Targets(x, y, rows, (k - 1) / 8, (k - 1) % 8, i, j) {
        forall k' | 0 <= k' < k - 1
          ensures !Targets(x, y, rows, k' / 8, k' % 8, i, j)
        {
          if Targets(x, y, rows, k' / 8, k' % 8, i, j) {
            assert k' == 8 * (k' / 8) + k' % 8;
            assert k - 1 == 8 * ((k - 1) / 8) + (k - 1) % 8;
            TargetsUnique(x, y, rows, k' / 8, k' % 8, (k - 1) / 8, (k - 1) % 8, i, j);
          }
        }
      }
    }
  }

  /** The step-indexed and the (row, column)-indexed views of "some set bit targets (i, j)" agree. */
  lemma TargetedBySomeStep(x: nat, y: nat, rows: seq<Byte>, i: int, j: int)
    ensures (exists k' | 0 <= k' < 8 * |rows| :: Targets(x, y, rows, k' / 8, k' % 8, i, j)) <==> Targeted(x, y, rows, i, j)
  {
    if Targeted(x, y, rows, i, j) {
      var ly, lx :| 0 <= ly < |rows| && 0 <= lx < 8 && Targets(x, y, rows, ly, lx, i, j);
      var k' := 8 * ly + lx;
      assert k' / 8 == ly && k' % 8 == lx;
      assert Targets(x, y, rows, k' / 8, k' % 8, i, j);
    }
  }

  /**
   * A sprite of at most Height rows toggles exactly the pixels that one of its
   * set bits targets, and leaves every other pixel as it was.
   */
  lemma DrawTogglesTargeted(g: Grid, x: nat, y: nat, rows: seq<Byte>, i: int, j: int)
    requires IsGrid(g) && |rows| <= Height && InBounds(i, j)
    ensures Drawn(g, x, y, rows)[i][j] == (g[i][j] != Targeted(x, y, rows, i, j))
  {
    CountAtMostOne(x, y, rows, 8 * |rows|, i, j);
    TargetedBySomeStep(x, y, rows, i, j);
  }

  /** A sprite of at most Height rows collides exactly when one of its targeted pixels was on. */
  lemma CollidesIffTargetedPixelOn(g: Grid, x: nat, y: nat, rows: seq<Byte>)
    requires IsGrid(g) && |rows| <= Height
    ensures Collides(g, x, y, rows) <==> exists i, j | InBounds(i, j) :: Targeted(x, y, rows, i, j) && g[i][j]
  {
    var k := 8 * |rows|;
    if Collides(g, x, y, rows) {
      var i, j :| 0 <= i < Width && 0 <= j < Height && Count(x, y, rows, k, i, j) > 0 && (g[i][j] || Count(x, y, rows, k, i, j) > 1);
      CountAtMostOne(x, y, rows, k, i, j);
      TargetedBySomeStep(x, y, rows, i, j);
    }
    if exists i, j | InBounds(i, j) :: Targeted(x, y, rows, i, j) && g[i][j] {
      var i, j :| InBounds(i, j) && Targeted(x, y, rows, i, j) && g[i][j];
      CountAtMostOne(x, y, rows, k, i, j);
      TargetedBySomeStep(x, y, rows, i, j);
      assert CollidesAt(g, x, y, rows, k, i, j);
    }
  }

  /** Drawing the same sprite twice at the same place restores the grid, for any number of rows. */
  lemma DrawTwiceRestores(g: Grid, x: nat, y: nat, rows: seq<Byte>)
    requires IsGrid(g)
    ensures Drawn(Drawn(g, x, y, rows), x, y, rows) == g
  {
    var d := Drawn(Drawn(g, x, y, rows), x, y, rows);
    forall i | 0 <= i < Width
      ensures d[i] == g[i]
    {
      assert forall j | 0 <= j < Height :: d[i][j] == g[i][j];
    }
  }

  /** If the sprite hits any pixel, one of two identical draws in succession reports a collision. */
  lemma DrawTwiceCollides(g: Grid, x: nat, y: nat, rows: seq<Byte>, i: int, j: int)
    requires IsGrid(g) && InBounds(i, j) && Count(x, y, rows, 8 * |rows|, i, j) > 0
    ensures Collides(g, x, y, rows) || Collides(Drawn(g, x, y, rows), x, y, rows)
  {
    var k := 8 * |rows|;
    if Count(x, y, rows, k, i, j) == 1 && !g[i][j] {
      assert CollidesAt(Drawn(g, x, y, rows), x, y, rows, k, i, j);
    } else {
      assert CollidesAt(g, x, y, rows, k, i, j);
    }
  }

  /**
   * With at most Height rows, the second of two identical draws collides
   * exactly when some targeted pixel was off before the first draw.
   */
  lemma SecondDrawCollidesIff(g: Grid, x: nat, y: nat, rows: seq<Byte>)
    requires IsGrid(g) && |rows| <= Height
    ensures Collides(Drawn(g, x, y, rows), x, y, rows)
        <==> exists i, j | InBounds(i, j) :: Targeted(x, y, rows, i, j) && !g[i][j]
  {
    var d := Drawn(g, x, y, rows);
    CollidesIffTargetedPixelOn(d, x, y, rows);
    forall i, j | InBounds(i, j) && Targeted(x, y, rows, i, j)
      ensures d[i][j] == !g[i][j]
    {
      DrawTogglesTargeted(g, x, y, rows, i, j);
    }
  }

  /** A sprite with no rows, or whose rows are all zero, changes nothing and never collides. */
  lemma {:induction false} BlankSpriteIsNoOp(g: Grid, x: nat, y: nat, rows: seq<Byte>)
    requires IsGrid(g)
    requires forall ly | 0 <= ly < |rows| :: rows[ly] == 0
    ensures Drawn(g, x, y, rows) == g
    ensures !Collides(g, x, y, rows)
  {
    forall k: nat, i, j | k <= 8 * |rows|
      ensures Count(x, y, rows, k, i, j) == 0
    {
      CountZero(x, y, rows, k, i, j);
    }
    var d := Drawn(g, x, y, rows);
    forall i | 0 <= i < Width
      ensures d[i] == g[i]
    {
      assert forall j | 0 <= j < Height :: d[i][j] == g[i][j];
    }
  }

  lemma {:induction false} CountZero(x: nat, y: nat, rows: seq<Byte>, k: nat, i: int, j: int)
    requires k <= 8 * |rows|
    requires forall ly | 0 <= ly < |rows| :: rows[ly] == 0
    ensures Count(x, y, rows, k, i, j) == 0
  {
    if k > 0 {
      CountZero(x, y, rows, k - 1, i, j);
      assert rows[(k - 1) / 8] == 0;
    }
  }

  /** The display of a running machine, updated in place. */
  class Screen {
    const pixels: array2<bool>

    ghost predicate Valid() {
      pixels.Length0 == Width && pixels.Length1 == Height
    }

    /** The grid as a value. */
    ghost function Cells(): (g: Grid)
      requires Valid()
      reads pixels
      ensures IsGrid(g)
      ensures forall i, j | InBounds(i, j) :: g[i][j] == pixels[i, j]
    {
      seq(Width, i requires 0 <= i < Width reads pixels =>
        seq(Height, j requires 0 <= j < Height reads pixels => pixels[i, j]))
    }

    constructor ()
      ensures Valid() && fresh(pixels)
      ensures Cells() == Blank()
    {
      pixels := new bool[Width, Height]((_, _) => false);
      new;
      ExtensionalGrid(Cells(), Blank());
    }

    /** chip8_screen_clear: every pixel off. */
    method Clear()
      requires Valid()
      modifies pixels
      ensures Cells() == Blank()
    {
      forall i, j | 0 <= i < Width && 0 <= j < Height {
        pixels[i, j] := false;
      }
      ExtensionalGrid(Cells(), Blank());
    }

    /** chip8_screen_set_on: pixel (x, y) on, every other pixel unchanged. */
    method SetOn(x: int, y: int)
      requires Valid() && InBounds(x, y)
      modifies pixels
      ensures Cells() == Painted(old(Cells()), x, y, true)
    {
      ghost var before := Cells();
      pixels[x, y] := true;
      ExtensionalGrid(Cells(), Painted(before, x, y, true));
    }

    /** chip8_screen_set_off: pixel (x, y) off, every other pixel unchanged. */
    method SetOff(x: int, y: int)
      requires Valid() && InBounds(x, y)
      modifies pixels
      ensures Cells() == Painted(old(Cells()), x, y, false)
    {
      ghost var before := Cells();
      pixels[x, y] := false;
      ExtensionalGrid(Cells(), Painted(before, x, y, false));
    }

    /** chip8_screen_is_set: a bounds-checked read that changes nothing. */
    function IsSet(x: int, y: int): (on: bool)
      requires Valid() && InBounds(x, y)
      reads pixels
      ensures on == Cells()[x][y]
    {
      pixels[x, y]
    }

    /**
     * chip8_screen_draw_sprite: XOR the first num rows of the sprite onto the
     * grid at (x, y), wrapping both coordinates, and report whether any
     * toggle found its pixel already on.
     */
    method DrawSprite(x: nat, y: nat, sprite: seq<Byte>, num: nat) returns (collision: bool)
      requires Valid() && num <= |sprite|
      modifies pixels
      ensures Cells() == Drawn(old(Cells()), x, y, sprite[..num])
      ensures collision == Collides(old(Cells()), x, y, sprite[..num])
    {
      ghost var g0 := Cells();
      ghost var rows := sprite[..num];
      collision := false;
      ExtensionalGrid(g0, Partial(g0, x, y, rows, 0));
      for ly := 0 to num
        invariant Cells() == Partial(g0, x, y, rows, 8 * ly)
        invariant collision == CollidedWithin(g0, x, y, rows, 8 * ly)
      {
        var c := sprite[ly];
        collision := DrawRow(x, y, rows, ly, c, g0, collision);
        assert 8 * (ly + 1) == 8 * ly + 8;
      }
    }

    /**
     * The inner loop of chip8_screen_draw_sprite: toggle the pixels under the
     * set bits of row ly (byte c), most significant bit first, setting the
     * collision flag when a toggled pixel was on. g0 and rows are the grid
     * before the whole draw and the rows being drawn.
     */
    method DrawRow(x: nat, y: nat, ghost rows: seq<Byte>, ly: nat, c: Byte, ghost g0: Grid, collision0: bool)
      returns (collision: bool)
      requires Valid() && IsGrid(g0) && ly < |rows| && c == rows[ly]
      requires Cells() == Partial(g0, x, y, rows, 8 * ly)
      requires collision0 == CollidedWithin(g0, x, y, rows, 8 * ly)
      modifies pixels
      ensures Cells() == Partial(g0, x, y, rows, 8 * ly + 8)
      ensures collision == CollidedWithin(g0, x, y, rows, 8 * ly + 8)
    {
      collision := collision0;
      var lx := 0;
      ghost var k := 8 * ly;
      while lx < 8
        invariant 0 <= lx <= 8 && k == 8 * ly + lx
        invariant Cells() == Partial(g0, x, y, rows, k)
        invariant collision == CollidedWithin(g0, x, y, rows, k)
      {
        collision := DrawBit(x, y, rows, ly, lx, c, g0, k, collision);
        lx, k := lx + 1, k + 1;
      }
    }

    /**
     * One step of the inner loop of chip8_screen_draw_sprite: when bit lx of
     * row ly is set, toggle its pixel and set the collision flag if that pixel
     * was on. k is the step's index in the whole draw.
     */
    method DrawBit(x: nat, y: nat, ghost rows: seq<Byte>, ly: nat, lx: nat, c: Byte, ghost g0: Grid, ghost k: nat, collision0: bool)
      returns (collision: bool)
      requires Valid() && IsGrid(g0) && ly < |rows| && lx < 8 && k == 8 * ly + lx && c == rows[ly]
      requires Cells() == Partial(g0, x, y, rows, k)
      requires collision0 == CollidedWithin(g0, x, y, rows, k)
      modifies pixels
      ensures Cells() == Partial(g0, x, y, rows, k + 1)
      ensures collision == CollidedWithin(g0, x, y, rows, k + 1)
    {
      PartialStep(g0, x, y, rows, k, ly, lx);
      CollidedStep(g0, x, y, rows, k, ly, lx);
      collision := collision0;
      if (c as bv8) & (0x80 >> lx) != 0 {
        var cx, cy := (lx + x) % Width, (ly + y) % Height;
        assert cx == Column(x, lx) && cy == Row(y, ly);
        var on := Flip(cx, cy);
        if on {
          collision := true;
        }
      }
    }

    /** The read-then-XOR of one pixel in the inner loop of chip8_screen_draw_sprite. */
    method Flip(cx: int, cy: int) returns (on: bool)
      requires Valid() && InBounds(cx, cy)
      modifies pixels
      ensures on == old(Cells())[cx][cy]
      ensures Cells() == Toggle(old(Cells()), cx, cy)
    {
      ghost var before := Cells();
      on := pixels[cx, cy];
      // XOR with true
      pixels[cx, cy] := !pixels[cx, cy];
      ExtensionalGrid(Cells(), Toggle(before, cx, cy));
    }
  }

  /** Two grids that agree on every in-bounds pixel are equal. */
  lemma ExtensionalGrid(a: Grid, b: Grid)
    requires IsGrid(a) && IsGrid(b)
    requires forall i, j | InBounds(i, j) :: a[i][j] == b[i][j]
    ensures a == b
  {
    forall i | 0 <= i < Width
      ensures a[i] == b[i]
    {
      assert forall j | 0 <= j < Height :: a[i][j] == b[i][j];
    }
  }
}
