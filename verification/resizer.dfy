/** The resizer: one source picture, brought to RGB once and then resampled
    to every slot of the table. Pixels are not modelled; an image is the
    record of how it was obtained, which is enough to say what each saved
    file holds, in which colour mode and at which dimensions. */
module Resizer {
  import opened Seqs
  import opened IconTable
  import opened FileNames
  import opened Assets

  /** The colour modes a loaded picture can have; `Bilevel` is PIL's
      one-bit mode `"1"`. */
  datatype Mode = RGB | RGBA | LA | L | P | PA | CMYK | YCbCr | LAB | HSV | I | F | Bilevel

  /** An image as the sequence of library operations that produced it. */
  datatype Image =
    | Loaded(mode: Mode, width: nat, height: nat)
    /** Pasted onto a new white RGB canvas of the same size, with the
        source's alpha band as the paste mask or with no mask. */
    | OntoWhite(src: Image, alphaMask: bool)
    /** `convert('RGB')`. */
    | Converted(src: Image)
    /** Resampled to a `side` by `side` square; the mode is kept. */
    | Resized(src: Image, side: nat)

  function ModeOf(img: Image): Mode {
    match img
    case Loaded(mode, _, _) => mode
    case OntoWhite(_, _) => RGB
    case Converted(_) => RGB
    case Resized(src, _) => ModeOf(src)
  }

  /** Width and height. */
  function Dims(img: Image): (nat, nat) {
    match img
    case Loaded(_, w, h) => (w, h)
    case OntoWhite(src, _) => Dims(src)
    case Converted(src) => Dims(src)
    case Resized(_, side) => (side, side)
  }

  /** The working image: an RGB picture is used as it is, RGBA and LA are
      flattened onto white, every other mode is converted. */
  function Normalise(img: Image): (out: Image)
    ensures ModeOf(out) == RGB
    ensures Dims(out) == Dims(img)
    ensures ModeOf(img) == RGB <==> out == img
  {
    var mode := ModeOf(img);
    if mode == RGB then img
    else if mode == RGBA || mode == LA then OntoWhite(img, mode == RGBA)
    else Converted(img)
  }

  /** The three ways out of a non-RGB mode: only modes with an alpha band
      are flattened onto white, and only RGBA uses its alpha as the mask. */
  lemma NormaliseCases(img: Image)
    requires ModeOf(img) != RGB
    ensures Normalise(img).OntoWhite? <==> ModeOf(img) in {RGBA, LA}
    ensures Normalise(img).Converted? <==> ModeOf(img) !in {RGBA, LA}
    ensures Normalise(img).OntoWhite? ==> (Normalise(img).alphaMask <==> ModeOf(img) == RGBA)
    ensures Normalise(img) != img && Normalise(img).src == img
  {
  }

  /** Normalising the working image again changes nothing. */
  lemma NormaliseIdempotent(img: Image)
    ensures Normalise(Normalise(img)) == Normalise(img)
  {
  }

  /** Where the `try` block can raise: while opening or converting the
      source, while creating the output directory, or anywhere after exactly
      `done` entries have been saved and recorded. `FailsAfter(done)` covers
      a failing resize or save of entry `done` as well as a failing progress
      message after entry `done - 1`; with `done` equal to the table's
      length it is the final summary message that raises, after every file
      exists. A `done` beyond the table's length is never reached. */
  datatype Fault = NoFault | LoadFails | MakeDirsFails | FailsAfter(done: nat)

  /** The source path: whether a file exists there, and the picture it
      holds. */
  datatype Source = Source(present: bool, image: Image)

  /** What a run leaves: the returned flag, whether the output directory was
      created, the files written in order, and the records collected. */
  datatype Outcome = Outcome(success: bool, madeDirs: bool, writes: seq<Write<Image>>, generated: seq<Record>)

  /** The saves of the loop over `slots`, in table order, each of the
      working image resampled to the slot's side. */
  function Saves(slots: seq<IconSlot>, img: Image): (writes: seq<Write<Image>>)
    ensures |writes| == |slots|
    ensures forall i :: 0 <= i < |slots| ==>
      && writes[i].path == FileName(slots[i].name)
      && writes[i].content == Resized(img, slots[i].size)
  {
    seq(|slots|, i requires 0 <= i < |slots| => Write(FileName(slots[i].name), Resized(img, slots[i].size)))
  }

  /** The records the loop collects. */
  function Records(slots: seq<IconSlot>): (records: seq<Record>)
    ensures |records| == |slots|
    ensures forall i :: 0 <= i < |slots| ==> records[i] == RecordFor(slots[i])
  {
    seq(|slots|, i requires 0 <= i < |slots| => RecordFor(slots[i]))
  }

  /** One run of the resizer over `slots` with the given source and
      fault. */
  function CreateIconsFromImage(slots: seq<IconSlot>, source: Source, fault: Fault): (out: Outcome)
    ensures out.success <==> source.present && (fault.NoFault? || (fault.FailsAfter? && fault.done > |slots|))
    ensures out.madeDirs <==> source.present && !fault.LoadFails? && !fault.MakeDirsFails?
    ensures |out.writes| <= |slots| && |out.generated| == |out.writes|
    ensures out.success ==> |out.writes| == |slots|
  {
    if !source.present then Outcome(false, false, [], [])
    else
      var img := Normalise(source.image);
      match fault
      case LoadFails => Outcome(false, false, [], [])
      case MakeDirsFails => Outcome(false, false, [], [])
      case FailsAfter(k) =>
        if k <= |slots| then Outcome(false, true, Saves(slots[..k], img), Records(slots[..k]))
        else Outcome(true, true, Saves(slots, img), Records(slots))
      case NoFault => Outcome(true, true, Saves(slots, img), Records(slots))
  }

  /** A missing source returns failure before anything else happens: no
      directory, no file, no record. */
  lemma MissingSourceAborts(slots: seq<IconSlot>, source: Source, fault: Fault)
    requires !source.present
    ensures var out := CreateIconsFromImage(slots, source, fault);
      !out.success && !out.madeDirs && out.writes == [] && out.generated == []
  {
  }

  /** A successful run saves one RGB square per slot, in table order, under
      the slot's file name, resampled from the normalised source, and its
      records mirror the table. */
  lemma SuccessfulRun(slots: seq<IconSlot>, source: Source, fault: Fault)
    requires CreateIconsFromImage(slots, source, fault).success
    ensures var out := CreateIconsFromImage(slots, source, fault);
      && |out.writes| == |slots| && |out.generated| == |slots|
      && forall i :: 0 <= i < |slots| ==>
        && out.writes[i].path == FileName(slots[i].name)
        && out.writes[i].content == Resized(Normalise(source.image), slots[i].size)
        && ModeOf(out.writes[i].content) == RGB
        && Dims(out.writes[i].content) == (slots[i].size, slots[i].size)
        && out.generated[i] == RecordFor(slots[i])
  {
  }

  /** A fault after `k` entries leaves the files of those entries exactly as
      a clean run writes them: nothing is rolled back. With `k` equal to the
      table's length the run reports failure although every file was
      written. */
  lemma FailureKeepsEarlierFiles(slots: seq<IconSlot>, source: Source, k: nat)
    requires source.present && k <= |slots|
    ensures var failed := CreateIconsFromImage(slots, source, FailsAfter(k));
      var clean := CreateIconsFromImage(slots, source, NoFault);
      && !failed.success && failed.madeDirs
      && failed.writes == clean.writes[..k]
      && failed.generated == clean.generated[..k]
  {
    var img := Normalise(source.image);
    var failed, all := Saves(slots[..k], img), Saves(slots, img);
    assert failed == all[..k] by {
      forall i | 0 <= i < k ensures failed[i] == all[i] {
        assert slots[..k][i] == slots[i];
      }
    }
  }

  /** The saves of one image over a table never disagree on a shared file
      when the shared files have equal sides. */
  lemma SavesConsistent(slots: seq<IconSlot>, img: Image)
    requires forall i, j ::
      (0 <= i < |slots| && 0 <= j < |slots| && FileName(slots[i].name) == FileName(slots[j].name))
      ==> slots[i].size == slots[j].size
    ensures Consistent(Saves(slots, img))
  {
  }

  /** A successful run over the real table writes 15 distinct files into
      the asset catalogue, each holding the normalised source resampled to
      its slots' side; every other file, `Contents.json` among them, keeps
      its old content. */
  lemma ResizerDirectory(before: map<string, Image>, source: Source, fault: Fault)
    requires CreateIconsFromImage(ResizerSlots, source, fault).success
    ensures var dir := Directory(before, CreateIconsFromImage(ResizerSlots, source, fault).writes);
      var files := Elems(Files(ResizerSlots));
      && |files| == 15
      && dir.Keys == before.Keys + files
      && (forall i :: 0 <= i < |ResizerSlots| ==>
        FileName(ResizerSlots[i].name) in dir
        && dir[FileName(ResizerSlots[i].name)] == Resized(Normalise(source.image), ResizerSlots[i].size))
      && (forall p :: p in before && p !in files ==> dir[p] == before[p])
      && ("Contents.json" in before ==> dir["Contents.json"] == before["Contents.json"])
      && (before == map[] ==> |dir| == 15)
  {
    SuccessfulWrites(ResizerSlots, source, fault);
    TablesAgree();
    SavesOverTable(before, Normalise(source.image));
  }

  /** A successful run writes what a clean loop over the table saves. */
  lemma SuccessfulWrites(slots: seq<IconSlot>, source: Source, fault: Fault)
    requires CreateIconsFromImage(slots, source, fault).success
    ensures CreateIconsFromImage(slots, source, fault).writes == Saves(slots, Normalise(source.image))
  {
  }

  /** The saves of one image over the table, whichever copy of it. */
  lemma SavesOverTable(before: map<string, Image>, img: Image)
    ensures var dir, files := Directory(before, Saves(GeneratorSlots, img)), Elems(Files(GeneratorSlots));
      && |files| == 15
      && dir.Keys == before.Keys + files
      && (forall i :: 0 <= i < |GeneratorSlots| ==>
        FileName(GeneratorSlots[i].name) in dir && dir[FileName(GeneratorSlots[i].name)] == Resized(img, GeneratorSlots[i].size))
      && (forall p :: p in before && p !in files ==> dir[p] == before[p])
      && ("Contents.json" in before ==> dir["Contents.json"] == before["Contents.json"])
      && (before == map[] ==> |dir| == 15)
  {
    var content := (side: nat) => Resized(img, side);
    var writes := Saves(GeneratorSlots, img);
    assert FollowsSlots(writes, content);
    TableDirectory(before, writes, content);
  }
}
