/** The integer layout of the glyph group of the procedural icon: a white
    badge holding the heart, and a plus sign to its right, centred together
    on the canvas. Each `int(x * c)` scaling of the source is modelled as
    the floor of the exact rational product. */
module Layout {
  import opened IntMath
  import opened Canvas

  datatype Glyphs = Glyphs(
    center: int,        // both canvas centre coordinates, `size // 2`
    total: int,         // width of the glyph group, 65% of the side
    heart: int,         // 55% of the group
    plus: int,          // 35% of the group
    spacing: int,       // 10% of the group
    groupStart: int,    // left edge of the group
    heartX: int,        // anchor of the heart and its badge
    plusX: int,         // anchor of the plus sign
    badgeRadius: int,   // half the heart width
    heartSize: int,     // size handed to the heart glyph, 1.25 badge radii
    thickness: int,     // plus bar thickness, at least 3
    length: int         // plus bar length, 60% of the plus width
  )

  /** The layout of a side `size` canvas. The group sits in the middle of
      the canvas: its left and right margins are never negative and differ
      by at most one pixel. */
  function GlyphLayout(size: nat): (g: Glyphs)
    ensures var left, right := g.groupStart, size - (g.groupStart + g.total);
      0 <= left && 0 <= right && -1 <= left - right <= 1
  {
    var center := size / 2;
    var total := (65 * size) / 100;
    var heart := (55 * total) / 100;
    var plus := (35 * total) / 100;
    var spacing := (10 * total) / 100;
    var groupStart := center - total / 2;
    var badgeRadius := heart / 2;
    Glyphs(
      center, total, heart, plus, spacing, groupStart,
      groupStart + heart / 2,
      groupStart + heart + spacing + plus / 2,
      badgeRadius,
      (5 * badgeRadius) / 4,
      Max(3, plus / 4),
      (6 * plus) / 10)
  }

  /** The layout `g` of side `s` as plain integers bound by the floors
      that produce them, with `t2`, `p2`, `len2` and `th2` the halves of
      the group width, the plus width, the bar length and the thickness.
      The bar thickness is 3 below a plus width of 16, else a quarter of
      it. */
  predicate Floors(s: int, g: Glyphs, t2: int, p2: int, len2: int, th2: int) {
    && 2 * g.center <= s <= 2 * g.center + 1
    && 100 * g.total <= 65 * s < 100 * g.total + 100
    && 100 * g.heart <= 55 * g.total < 100 * g.heart + 100
    && 100 * g.plus <= 35 * g.total < 100 * g.plus + 100
    && 100 * g.spacing <= 10 * g.total < 100 * g.spacing + 100
    && 2 * t2 <= g.total <= 2 * t2 + 1
    && 2 * g.badgeRadius <= g.heart <= 2 * g.badgeRadius + 1
    && 4 * g.heartSize <= 5 * g.badgeRadius < 4 * g.heartSize + 4
    && 2 * p2 <= g.plus <= 2 * p2 + 1
    && 10 * g.length <= 6 * g.plus < 10 * g.length + 10
    && 2 * len2 <= g.length <= 2 * len2 + 1
    && (g.plus < 16 ==> g.thickness == 3)
    && (g.plus >= 16 ==> 3 <= g.thickness && 4 * g.thickness <= g.plus < 4 * g.thickness + 4)
    && 2 * th2 <= g.thickness <= 2 * th2 + 1
    && g.groupStart == g.center - t2
    && g.heartX == g.groupStart + g.badgeRadius
    && g.plusX == g.groupStart + g.heart + g.spacing + p2
    && len2 == g.length / 2 && th2 == g.thickness / 2
  }

  /** Every coordinate of the layout is the floor of its exact rational
      value. */
  lemma FloorsOf(size: nat)
    ensures var g := GlyphLayout(size);
      Floors(size, g, g.total / 2, g.plus / 2, g.length / 2, g.thickness / 2)
  {
  }

  /** The white disc behind the heart: a square of side twice the badge
      radius around the heart anchor at mid-height. */
  function Badge(g: Glyphs): (b: Box)
    ensures CenteredAt(b, g.heartX, g.center)
    ensures b.x2 - b.x1 == 2 * g.badgeRadius && b.y2 - b.y1 == 2 * g.badgeRadius
  {
    SquareAround(g.heartX, g.center, g.badgeRadius)
  }

  /** The upright plus bar: centred on the plus anchor at mid-height, as
      wide as the thickness and as tall as the length, each rounded down to
      an even number of pixels. */
  function VerticalBar(g: Glyphs): (b: Box)
    ensures CenteredAt(b, g.plusX, g.center)
    ensures g.thickness - 1 <= b.x2 - b.x1 <= g.thickness
    ensures g.length - 1 <= b.y2 - b.y1 <= g.length
  {
    Box(g.plusX - g.thickness / 2, g.center - g.length / 2,
        g.plusX + g.thickness / 2, g.center + g.length / 2)
  }

  /** The level plus bar: centred like the upright one, as wide as the
      length and as tall as the thickness, each rounded down to an even
      number of pixels. */
  function HorizontalBar(g: Glyphs): (b: Box)
    ensures CenteredAt(b, g.plusX, g.center)
    ensures g.length - 1 <= b.x2 - b.x1 <= g.length
    ensures g.thickness - 1 <= b.y2 - b.y1 <= g.thickness
  {
    Box(g.plusX - g.length / 2, g.center - g.thickness / 2,
        g.plusX + g.length / 2, g.center + g.thickness / 2)
  }

  /** Corner radius of both plus bars: a third of the thickness, rounded
      down. */
  function BarCornerRadius(g: Glyphs): (r: int)
    ensures 3 * r <= g.thickness < 3 * r + 3
  {
    g.thickness / 3
  }

  /** The heart, the spacing and the plus fill the group up to rounding:
      together they are never wider than the group and lose at most two
      pixels to the three floors. The heart is never narrower than the
      plus. */
  lemma PartsFillGroup(size: nat)
    ensures var g := GlyphLayout(size);
      g.total - 2 <= g.heart + g.spacing + g.plus <= g.total && g.plus <= g.heart
  {
    var g := GlyphLayout(size);
    FloorsOf(size);
    PartsFit(g.total, g.heart, g.plus, g.spacing);
  }

  /** Both bars are centred on the plus anchor at mid-height, the
      horizontal bar is the vertical one turned a quarter, and the bars are
      at least 3 pixels thick with a corner radius of at least 1. */
  lemma PlusSymmetric(size: nat)
    ensures var g := GlyphLayout(size);
      && CenteredAt(VerticalBar(g), g.plusX, g.center)
      && CenteredAt(HorizontalBar(g), g.plusX, g.center)
      && HorizontalBar(g) == Transposed(VerticalBar(g), g.plusX, g.center)
      && g.thickness >= 3
      && BarCornerRadius(g) >= 1
  {
    FloorsOf(size);
  }

  /** The badge is a square around the heart anchor at mid-height, one
      pixel narrower than the heart at most, so the heart glyph sits in the
      badge's middle. */
  lemma BadgeAroundHeart(size: nat)
    ensures var g, b := GlyphLayout(size), Badge(GlyphLayout(size));
      && CenteredAt(b, g.heartX, g.center)
      && b.x2 - b.x1 == b.y2 - b.y1
      && b.x2 - b.x1 <= g.heart
      && g.heart - 1 <= b.x2 - b.x1
  {
    FloorsOf(size);
  }

  /** From 4 pixels on, the plus anchor is right of the heart anchor. */
  lemma PlusRightOfHeart(size: nat)
    requires size >= 4
    ensures GlyphLayout(size).plusX > GlyphLayout(size).heartX
  {
    var g := GlyphLayout(size);
    FloorsOf(size);
    AnchorsOrdered(size, g, g.total / 2, g.plus / 2, g.length / 2, g.thickness / 2);
  }

  /** From 4 pixels on, a layout bound by its floors has a heart at least
      one pixel wide, so the plus anchor lies right of the heart anchor. */
  lemma AnchorsOrdered(s: int, g: Glyphs, t2: int, p2: int, len2: int, th2: int)
    requires s >= 4 && Floors(s, g, t2, p2, len2, th2)
    ensures g.plusX > g.heartX
  {
    GroupFits(s, g.center, g.total, t2);
    PartsFit(g.total, g.heart, g.plus, g.spacing);
  }

  /** The group fits the canvas with both margins non-negative. */
  lemma GroupFits(s: int, c: int, total: int, t2: int)
    requires s >= 2 && 2 * c <= s <= 2 * c + 1
    requires 100 * total <= 65 * s < 100 * total + 100 && 2 * t2 <= total <= 2 * t2 + 1
    ensures 0 <= c - t2 && c - t2 + total <= s
    ensures s < 4 ==> c - t2 >= 1 && total <= 1
    ensures s >= 4 ==> total >= 2
    ensures s >= 10 ==> total >= 6
  {
  }

  /** The heart, spacing and plus widths against the group width. */
  lemma PartsFit(total: int, heart: int, plus: int, spacing: int)
    requires 100 * heart <= 55 * total < 100 * heart + 100
    requires 100 * plus <= 35 * total < 100 * plus + 100
    requires 100 * spacing <= 10 * total < 100 * spacing + 100
    requires 0 <= total
    ensures total - 2 <= heart + spacing + plus <= total && plus <= heart
    ensures total >= 2 ==> heart >= 1
    ensures total >= 6 ==> plus >= 2
    ensures plus == 0 ==> total <= 2
    ensures 1 <= total <= 2 ==> heart + spacing + 1 <= total
  {
  }

  /** The halves of the plus width, bar length and bar thickness. */
  lemma BarHalves(plus: int, p2: int, length: int, len2: int, thickness: int, th2: int)
    requires 0 <= plus && 2 * p2 <= plus <= 2 * p2 + 1
    requires 10 * length <= 6 * plus < 10 * length + 10 && 2 * len2 <= length <= 2 * len2 + 1
    requires plus < 16 ==> thickness == 3
    requires plus >= 16 ==> 3 <= thickness && 4 * thickness <= plus
    requires 2 * th2 <= thickness <= 2 * th2 + 1
    ensures 0 <= len2 <= p2 && p2 + len2 <= plus
    ensures plus < 16 ==> th2 == 1
    ensures plus >= 16 ==> 1 <= th2 <= p2
    ensures plus >= 1 ==> p2 + th2 <= plus
    ensures plus == 0 ==> p2 == 0
  {
  }

  /** The badge of a layout bound by its floors lies on the canvas. */
  lemma BadgeInCanvas(s: int, g: Glyphs, t2: int, p2: int, len2: int, th2: int)
    requires s >= 2 && Floors(s, g, t2, p2, len2, th2)
    ensures InCanvas(Badge(g), s)
  {
    GroupFits(s, g.center, g.total, t2);
    PartsFit(g.total, g.heart, g.plus, g.spacing);
  }

  /** The upright bar of a layout bound by its floors lies on the canvas. */
  lemma VerticalBarInCanvas(s: int, g: Glyphs, t2: int, p2: int, len2: int, th2: int)
    requires s >= 2 && Floors(s, g, t2, p2, len2, th2)
    ensures InCanvas(VerticalBar(g), s)
  {
    GroupFits(s, g.center, g.total, t2);
    PartsFit(g.total, g.heart, g.plus, g.spacing);
    BarHalves(g.plus, p2, g.length, len2, g.thickness, th2);
  }

  /** The level bar of a layout bound by its floors lies on the canvas. */
  lemma HorizontalBarInCanvas(s: int, g: Glyphs, t2: int, p2: int, len2: int, th2: int)
    requires s >= 2 && Floors(s, g, t2, p2, len2, th2)
    ensures InCanvas(HorizontalBar(g), s)
  {
    GroupFits(s, g.center, g.total, t2);
    PartsFit(g.total, g.heart, g.plus, g.spacing);
    BarHalves(g.plus, p2, g.length, len2, g.thickness, th2);
  }

  /** From 10 pixels on, both bars of a layout bound by its floors start
      right of the badge. */
  lemma BarsClearOfBadge(s: int, g: Glyphs, t2: int, p2: int, len2: int, th2: int)
    requires s >= 10 && Floors(s, g, t2, p2, len2, th2)
    ensures Badge(g).x2 <= VerticalBar(g).x1 && Badge(g).x2 <= HorizontalBar(g).x1
  {
    GroupFits(s, g.center, g.total, t2);
    PartsFit(g.total, g.heart, g.plus, g.spacing);
    BarHalves(g.plus, p2, g.length, len2, g.thickness, th2);
  }

  /** From 10 pixels on, no part of the plus reaches into the badge. */
  lemma PlusClearOfBadge(size: nat)
    requires size >= 10
    ensures var g := GlyphLayout(size);
      Badge(g).x2 <= VerticalBar(g).x1 && Badge(g).x2 <= HorizontalBar(g).x1
  {
    var g := GlyphLayout(size);
    FloorsOf(size);
    BarsClearOfBadge(size, g, g.total / 2, g.plus / 2, g.length / 2, g.thickness / 2);
  }

  /** From 2 pixels on, the badge and both bars lie on the canvas. */
  lemma GlyphsInCanvas(size: nat)
    requires size >= 2
    ensures var g := GlyphLayout(size);
      InCanvas(Badge(g), size) && InCanvas(VerticalBar(g), size) && InCanvas(HorizontalBar(g), size)
  {
    var g := GlyphLayout(size);
    FloorsOf(size);
    var t2, p2, len2, th2 := g.total / 2, g.plus / 2, g.length / 2, g.thickness / 2;
    BadgeInCanvas(size, g, t2, p2, len2, th2);
    VerticalBarInCanvas(size, g, t2, p2, len2, th2);
    HorizontalBarInCanvas(size, g, t2, p2, len2, th2);
  }
}
