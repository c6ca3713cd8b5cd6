/** The procedural icon generator: one painted icon per table slot, saved
    under the slot's file name, with a `(name, file, size)` record
    collected for each. */
module Generator {
  import opened Seqs
  import opened Canvas
  import opened Gradient
  import opened Layout
  import opened IconTable
  import opened FileNames
  import opened Assets

  /** The icon painted for side `size`: the gradient rings, then the white
      badge, the heart inside it, and the two white plus bars. */
  function BaseIcon(size: nat, shade: Shade): (icon: Icon)
    ensures icon.side == size && icon.background == DeepBlue
    ensures |icon.shapes| == StepCount(MaxRadius(size)) + 4
  {
    Icon(size, DeepBlue, Rings(size, shade) + GlyphShapes(size))
  }

  /** The badge, the heart in it and the two plus bars, in paint order. */
  function GlyphShapes(size: nat): (glyphs: seq<Shape>)
    ensures |glyphs| == 4
    ensures glyphs[0].Ellipse? && glyphs[0].fill == White
    ensures glyphs[1].Heart? && glyphs[1].fill == DeepBlue && glyphs[1].y == size / 2
    ensures CenteredAt(glyphs[0].box, glyphs[1].x, glyphs[1].y)
    ensures glyphs[2].RoundedRect? && glyphs[3].RoundedRect?
    ensures glyphs[2].fill == White && glyphs[3].fill == White && glyphs[2].radius == glyphs[3].radius
  {
    var g := GlyphLayout(size);
    [ Ellipse(Badge(g), White),
      Heart(g.heartX, g.center, g.heartSize, DeepBlue),
      RoundedRect(VerticalBar(g), BarCornerRadius(g), White),
      RoundedRect(HorizontalBar(g), BarCornerRadius(g), White) ]
  }

  /** The painted icon is a square of the requested side, the gradient
      lies under the four glyph shapes, and every colour is a byte colour. */
  lemma BaseIconShape(size: nat, shade: Shade)
    ensures var icon, steps := BaseIcon(size, shade), StepCount(MaxRadius(size));
      && icon.side == size
      && |icon.shapes| == steps + 4
      && icon.shapes[..steps] == Rings(size, shade)
      && icon.shapes[steps..] == GlyphShapes(size)
      && forall i :: 0 <= i < |icon.shapes| ==> IsByteColour(icon.shapes[i].fill)
  {
    var icon, steps := BaseIcon(size, shade), StepCount(MaxRadius(size));
    var rings := Rings(size, shade);
    RingsShape(size, shade);
    assert forall i :: 0 <= i < steps ==> IsByteColour(rings[i].fill);
  }

  /** From 2 pixels on, the badge and both bars lie on the canvas, and the
      heart is anchored at the centre of its badge. */
  lemma GlyphShapesPlaced(size: nat)
    requires size >= 2
    ensures var glyphs := GlyphShapes(size);
      && InCanvas(glyphs[0].box, size)
      && InCanvas(glyphs[2].box, size)
      && InCanvas(glyphs[3].box, size)
      && CenteredAt(glyphs[0].box, glyphs[1].x, glyphs[1].y)
  {
    BadgeAroundHeart(size);
    GlyphsInCanvas(size);
  }

  /** The generation loop: table order, one icon, one file and one record
      per slot. */
  method GenerateIcons(slots: seq<IconSlot>, shade: Shade)
    returns (generated: seq<Record>, writes: seq<Write<Icon>>)
    ensures |generated| == |slots| && |writes| == |slots|
    ensures forall i :: 0 <= i < |slots| ==>
      && generated[i].name == slots[i].name
      && generated[i].file == FileName(slots[i].name)
      && generated[i].size == slots[i].size
      && writes[i].path == generated[i].file
      && writes[i].content == BaseIcon(slots[i].size, shade)
  {
    generated, writes := [], [];
    for k := 0 to |slots|
      invariant |generated| == k && |writes| == k
      invariant forall i :: 0 <= i < k ==>
        && generated[i] == RecordFor(slots[i])
        && writes[i] == Write(generated[i].file, BaseIcon(slots[i].size, shade))
    {
      var icon := BaseIcon(slots[k].size, shade);
      var file := FileName(slots[k].name);
      writes := writes + [Write(file, icon)];
      generated := generated + [Record(slots[k].name, file, slots[k].size)];
    }
  }

  /** Writes that follow the table slot by slot, as the loop performs them. */
  predicate FollowsTable(writes: seq<Write<Icon>>, shade: Shade) {
    |writes| == |GeneratorSlots| &&
    forall i :: 0 <= i < |GeneratorSlots| ==>
      writes[i] == Write(FileName(GeneratorSlots[i].name), BaseIcon(GeneratorSlots[i].size, shade))
  }

  /** Writes that follow the table never disagree on a shared file. */
  lemma FollowingWritesConsistent(writes: seq<Write<Icon>>, shade: Shade)
    requires FollowsTable(writes, shade)
    ensures Consistent(writes)
  {
    SharedFilesKeepSize();
  }

  /** Over the real table the run writes 15 distinct files into the asset
      catalogue, each holding exactly the icon painted for every slot that
      names it (the three overwrites rewrite an identical icon); every other
      file, `Contents.json` among them, keeps its old content. */
  lemma GeneratedDirectory(before: map<string, Icon>, writes: seq<Write<Icon>>, shade: Shade)
    requires FollowsTable(writes, shade)
    ensures var dir, files := Directory(before, writes), Elems(Files(GeneratorSlots));
      && |files| == 15
      && dir.Keys == before.Keys + files
      && (forall i :: 0 <= i < |GeneratorSlots| ==>
        FileName(GeneratorSlots[i].name) in dir && dir[FileName(GeneratorSlots[i].name)] == BaseIcon(GeneratorSlots[i].size, shade))
      && (forall p :: p in before && p !in files ==> dir[p] == before[p])
      && ("Contents.json" in before ==> dir["Contents.json"] == before["Contents.json"])
      && (before == map[] ==> |dir| == 15)
  {
    var paint := (size: nat) => BaseIcon(size, shade);
    assert FollowsSlots(writes, paint);
    TableDirectory(before, writes, paint);
  }
}
