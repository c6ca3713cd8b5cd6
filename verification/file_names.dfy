/** The rule that turns a slot name into the PNG file name both scripts
    write, and what that rule does to the table: three iPhone/iPad pairs
    share a file, always with equal pixel sides. */
module FileNames {
  import opened Strings
  import opened Seqs
  import opened IconTable

  /** The output file name of slot `name`. The tests run in this order: a
      name mentioning "iphone" loses every "iphone-"; otherwise one
      mentioning "ipad" loses every "ipad-"; otherwise an App Store name
      gets the fixed 1024 name; anything else is kept whole. */
  function FileName(name: string): (f: string)
    ensures |f| >= 9 && f[..5] == "icon-" && f[|f| - 4..] == ".png"
  {
    if Contains(name, "iphone") then "icon-" + RemoveAll(name, "iphone-") + ".png"
    else if Contains(name, "ipad") then "icon-" + RemoveAll(name, "ipad-") + ".png"
    else if Contains(name, "ios-marketing") then "icon-1024x1024.png"
    else "icon-" + name + ".png"
  }

  /** An iPhone slot name loses its platform prefix. */
  lemma IphoneRule(rest: string)
    requires !Contains(rest, "iphone-")
    ensures FileName("iphone-" + rest) == "icon-" + rest + ".png"
  {
    assert ("iphone-" + rest)[..6] == "iphone";
    RemoveAllLeading("iphone-", rest);
    RemoveAllAbsent(rest, "iphone-");
  }

  /** An iPad slot name loses its platform prefix; "iphone" cannot straddle
      the prefix and the rest, so the iPhone test does not fire. */
  lemma IpadRule(rest: string)
    requires !Contains(rest, "iphone") && !Contains(rest, "ipad-")
    ensures FileName("ipad-" + rest) == "icon-" + rest + ".png"
  {
    var n := "ipad-" + rest;
    forall i | 0 <= i <= |n| - 6
      ensures !OccursAt(n, "iphone", i)
    {
      var w := n[i..i + 6];
      assert w[0] == n[i] && w[2] == n[i + 2];
      if i == 0 {
        assert n[2] == 'a';
      } else if i < 5 {
        assert n[i] == "ipad-"[i];
      } else {
        assert w == rest[i - 5..i + 1];
        assert !OccursAt(rest, "iphone", i - 5);
      }
    }
    assert n[..4] == "ipad";
    RemoveAllLeading("ipad-", rest);
    RemoveAllAbsent(rest, "ipad-");
  }

  /** A name mentioning neither platform nor the App Store is kept whole. */
  lemma PlainRule(name: string)
    requires !Contains(name, "iphone") && !Contains(name, "ipad") && !Contains(name, "ios-marketing")
    ensures FileName(name) == "icon-" + name + ".png"
  {
  }

  /** Two file names of the `icon-<stem>.png` shape are equal exactly when
      their stems are. */
  lemma StemsDetermineNames(a: string, b: string)
    ensures "icon-" + a + ".png" == "icon-" + b + ".png" <==> a == b
  {
    if "icon-" + a + ".png" == "icon-" + b + ".png" {
      assert a == ("icon-" + a + ".png")[5..5 + |a|];
      assert b == ("icon-" + b + ".png")[5..5 + |b|];
    }
  }

  /** An iPhone table entry: a name without a second 'i' after the prefix. */
  lemma IphoneEntry(rest: string, name: string, file: string)
    requires 'i' !in rest && name == "iphone-" + rest && file == "icon-" + rest + ".png"
    ensures FileName(name) == file
  {
    AbsentByChar(rest, "iphone-", 'i');
    IphoneRule(rest);
  }

  /** An iPad table entry: a name without 'i' or 'h' after the prefix. */
  lemma IpadEntry(rest: string, name: string, file: string)
    requires 'i' !in rest && 'h' !in rest && name == "ipad-" + rest && file == "icon-" + rest + ".png"
    ensures FileName(name) == file
  {
    AbsentByChar(rest, "iphone", 'h');
    AbsentByChar(rest, "ipad-", 'i');
    IpadRule(rest);
  }

  /** The App Store slot gets the fixed 1024 name. */
  lemma MarketingEntry()
    ensures FileName("ios-marketing-1024pt@1x") == "icon-1024x1024.png"
  {
    var m := "ios-marketing-1024pt@1x";
    AbsentByChar(m, "iphone", 'h');
    AbsentByChar(m, "ipad", 'd');
    assert m[..13] == "ios-marketing";
  }

  /** Two worked examples: the iPhone App Icon slot and the App Store slot. */
  lemma NamingExamples()
    ensures FileName("iphone-60pt@2x") == "icon-60pt@2x.png"
    ensures FileName("ios-marketing-1024pt@1x") == "icon-1024x1024.png"
  {
    IphoneEntry("60pt@2x", "iphone-60pt@2x", "icon-60pt@2x.png");
    MarketingEntry();
  }

  /** The files written for the table, slot by slot. */
  const TableFiles: seq<string> := [
    "icon-60pt@2x.png", "icon-60pt@3x.png", "icon-29pt@2x.png", "icon-29pt@3x.png",
    "icon-40pt@2x.png", "icon-40pt@3x.png", "icon-20pt@2x.png", "icon-20pt@3x.png",
    "icon-76pt@1x.png", "icon-76pt@2x.png", "icon-83.5pt@2x.png", "icon-29pt@1x.png",
    "icon-29pt@2x.png", "icon-40pt@1x.png", "icon-40pt@2x.png", "icon-20pt@1x.png",
    "icon-20pt@2x.png", "icon-1024x1024.png"
  ]

  /** The different files among them, in order of first appearance. */
  const DistinctTableFiles: seq<string> := [
    "icon-60pt@2x.png", "icon-60pt@3x.png", "icon-29pt@2x.png", "icon-29pt@3x.png",
    "icon-40pt@2x.png", "icon-40pt@3x.png", "icon-20pt@2x.png", "icon-20pt@3x.png",
    "icon-76pt@1x.png", "icon-76pt@2x.png", "icon-83.5pt@2x.png", "icon-29pt@1x.png",
    "icon-40pt@1x.png", "icon-20pt@1x.png", "icon-1024x1024.png"
  ]

  /** What follows the platform prefix in the 17 iPhone and iPad slots. */
  const Stems: seq<string> := [
    "60pt@2x", "60pt@3x", "29pt@2x", "29pt@3x", "40pt@2x", "40pt@3x", "20pt@2x", "20pt@3x",
    "76pt@1x", "76pt@2x", "83.5pt@2x", "29pt@1x", "29pt@2x", "40pt@1x", "40pt@2x", "20pt@1x",
    "20pt@2x"
  ]

  /** The platform slots are a platform prefix followed by their stem. */
  lemma IphoneStemNames()
    ensures |Stems| == 17
    ensures forall i :: 0 <= i < 8 ==> GeneratorSlots[i].name == "iphone-" + Stems[i]
  {
  }

  lemma IpadStemNames()
    ensures forall i :: 8 <= i < 17 ==> GeneratorSlots[i].name == "ipad-" + Stems[i]
  {
  }

  lemma StemLetters()
    ensures forall i :: 0 <= i < |Stems| ==> 'i' !in Stems[i] && 'h' !in Stems[i]
  {
  }

  lemma IphoneStemFiles()
    ensures forall i :: 0 <= i < 8 ==> TableFiles[i] == "icon-" + Stems[i] + ".png"
  {
  }

  lemma IpadStemFiles()
    ensures forall i :: 8 <= i < 17 ==> TableFiles[i] == "icon-" + Stems[i] + ".png"
  {
  }

  /** The rule maps each table slot to the file listed for it. */
  lemma TableFileNames()
    ensures forall i :: 0 <= i < |GeneratorSlots| ==> FileName(GeneratorSlots[i].name) == TableFiles[i]
  {
    IphoneStemNames();
    IpadStemNames();
    StemLetters();
    IphoneStemFiles();
    IpadStemFiles();
    forall i | 0 <= i < 8
      ensures FileName(GeneratorSlots[i].name) == TableFiles[i]
    {
      IphoneEntry(Stems[i], GeneratorSlots[i].name, TableFiles[i]);
    }
    forall i | 8 <= i < 17
      ensures FileName(GeneratorSlots[i].name) == TableFiles[i]
    {
      IpadEntry(Stems[i], GeneratorSlots[i].name, TableFiles[i]);
    }
    MarketingEntry();
  }

  /** Which listed files coincide. */
  lemma TableFilesCoincide()
    ensures forall i, j :: 0 <= i < j < |TableFiles| ==>
      (TableFiles[i] == TableFiles[j] <==>
       (i == 2 && j == 12) || (i == 4 && j == 14) || (i == 6 && j == 16))
  {
  }

  /** The rule is not injective on the table: exactly the iPhone and iPad
      slots 29pt@2x, 40pt@2x and 20pt@2x share a file. */
  lemma SharedFiles()
    ensures forall i, j :: 0 <= i < j < |GeneratorSlots| ==>
      (FileName(GeneratorSlots[i].name) == FileName(GeneratorSlots[j].name) <==>
       (i == 2 && j == 12) || (i == 4 && j == 14) || (i == 6 && j == 16))
  {
    TableFileNames();
    TableFilesCoincide();
  }

  /** Slots that share a file always have the same pixel side, so a later
      write never changes the dimensions of a file already written. */
  lemma SharedFilesKeepSize()
    ensures forall i, j ::
      0 <= i < |GeneratorSlots| && 0 <= j < |GeneratorSlots| &&
      FileName(GeneratorSlots[i].name) == FileName(GeneratorSlots[j].name)
      ==> GeneratorSlots[i].size == GeneratorSlots[j].size
  {
    TableFileNames();
    TableFilesKeepSize();
  }

  /** Listed files that coincide belong to slots of equal side. */
  lemma TableFilesKeepSize()
    ensures forall i, j ::
      (0 <= i < |TableFiles| && 0 <= j < |TableFiles| && TableFiles[i] == TableFiles[j])
      ==> GeneratorSlots[i].size == GeneratorSlots[j].size
  {
    TableFilesCoincide();
    forall i, j | 0 <= i < |TableFiles| && 0 <= j < |TableFiles| && TableFiles[i] == TableFiles[j]
      ensures GeneratorSlots[i].size == GeneratorSlots[j].size
    {
      if i < j {
        assert (i == 2 && j == 12) || (i == 4 && j == 14) || (i == 6 && j == 16);
      } else if j < i {
        assert (j == 2 && i == 12) || (j == 4 && i == 14) || (j == 6 && i == 16);
      }
    }
  }

  /** The file written for each slot, in slot order. */
  function Files(slots: seq<IconSlot>): (files: seq<string>)
    ensures |files| == |slots|
    ensures forall i :: 0 <= i < |slots| ==> files[i] == FileName(slots[i].name)
  {
    seq(|slots|, i requires 0 <= i < |slots| => FileName(slots[i].name))
  }

  /** The 18 slots produce 15 different files. */
  lemma DistinctFileCount()
    ensures |Elems(Files(GeneratorSlots))| == 15
  {
    TableFileNames();
    assert Files(GeneratorSlots) == TableFiles;
    assert Elems(TableFiles) == Elems(DistinctTableFiles);
    DistinctCard(DistinctTableFiles);
  }

  /** No slot is ever written to the catalogue's `Contents.json`: every
      icon file name starts with `icon-`. */
  lemma ContentsFileNeverWritten(slots: seq<IconSlot>)
    ensures "Contents.json" !in Elems(Files(slots))
  {
    forall i | 0 <= i < |slots|
      ensures Files(slots)[i] != "Contents.json"
    {
      var f := Files(slots)[i];
      assert f[..5] == "icon-";
      assert "Contents.json"[..5] == "Conte";
    }
  }
}
