/** The iOS/iPadOS icon slots both scripts iterate: a platform/usage name
    and the pixel side of the square PNG written for it. Each script keeps
    its own copy of the table; both are modelled, in dictionary insertion
    order, which is the order Python iterates them in. */
module IconTable {
  import opened Seqs

  datatype IconSlot = IconSlot(name: string, size: nat)

  /** The table of the procedural icon generator. */
  const GeneratorSlots: seq<IconSlot> := [
    // iPhone: app icon, settings, spotlight, notification
    IconSlot("iphone-60pt@2x", 120),
    IconSlot("iphone-60pt@3x", 180),
    IconSlot("iphone-29pt@2x", 58),
    IconSlot("iphone-29pt@3x", 87),
    IconSlot("iphone-40pt@2x", 80),
    IconSlot("iphone-40pt@3x", 120),
    IconSlot("iphone-20pt@2x", 40),
    IconSlot("iphone-20pt@3x", 60),
    // iPad: app icon, settings, spotlight, notification
    IconSlot("ipad-76pt@1x", 76),
    IconSlot("ipad-76pt@2x", 152),
    IconSlot("ipad-83.5pt@2x", 167),
    IconSlot("ipad-29pt@1x", 29),
    IconSlot("ipad-29pt@2x", 58),
    IconSlot("ipad-40pt@1x", 40),
    IconSlot("ipad-40pt@2x", 80),
    IconSlot("ipad-20pt@1x", 20),
    IconSlot("ipad-20pt@2x", 40),
    // App Store
    IconSlot("ios-marketing-1024pt@1x", 1024)
  ]

  /** The table of the resizer, written out separately in its own script. */
  const ResizerSlots: seq<IconSlot> := [
    IconSlot("iphone-60pt@2x", 120),
    IconSlot("iphone-60pt@3x", 180),
    IconSlot("iphone-29pt@2x", 58),
    IconSlot("iphone-29pt@3x", 87),
    IconSlot("iphone-40pt@2x", 80),
    IconSlot("iphone-40pt@3x", 120),
    IconSlot("iphone-20pt@2x", 40),
    IconSlot("iphone-20pt@3x", 60),
    IconSlot("ipad-76pt@1x", 76),
    IconSlot("ipad-76pt@2x", 152),
    IconSlot("ipad-83.5pt@2x", 167),
    IconSlot("ipad-29pt@1x", 29),
    IconSlot("ipad-29pt@2x", 58),
    IconSlot("ipad-40pt@1x", 40),
    IconSlot("ipad-40pt@2x", 80),
    IconSlot("ipad-20pt@1x", 20),
    IconSlot("ipad-20pt@2x", 40),
    IconSlot("ios-marketing-1024pt@1x", 1024)
  ]

  function Names(slots: seq<IconSlot>): (names: seq<string>)
    ensures |names| == |slots|
    ensures forall i :: 0 <= i < |slots| ==> names[i] == slots[i].name
  {
    seq(|slots|, i requires 0 <= i < |slots| => slots[i].name)
  }

  /** The table has 18 slots with distinct names (so the dictionary literal
      loses none of them), every side is positive, and the sides range from
      20 to 1024. */
  lemma GeneratorTableShape()
    ensures |GeneratorSlots| == 18
    ensures Distinct(Names(GeneratorSlots))
    ensures forall i :: 0 <= i < |GeneratorSlots| ==> 20 <= GeneratorSlots[i].size <= 1024
    ensures GeneratorSlots[15].size == 20 && GeneratorSlots[17].size == 1024
  {
    NamesDistinct();
  }

  lemma NamesDistinct()
    ensures Distinct(Names(GeneratorSlots))
  {
  }

  /** The two scripts carry the same slots in the same order. */
  lemma TablesAgree()
    ensures ResizerSlots == GeneratorSlots
  {
  }
}
