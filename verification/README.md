# HealthAI app icon scripts, modelled in Dafny

The repository has two one-shot Python scripts that write the iOS/iPadOS
app icon set.

- `generate_app_icon.py` paints a procedural icon for every slot of an
  18-entry size table. The icon is a radial blue gradient, a white badge
  holding a heart, and a white plus sign. Each icon is saved under a file
  name derived from the slot name.
- `create_icons_from_image.py` loads one source picture and brings it to
  RGB. It then resamples the picture to every slot of the same table and
  saves the results under the same file names. It returns a success flag.

The model covers the integer and string logic of both scripts. Pixels are
not modelled.

- `icon_table.dfy` (module `IconTable`): the size table, as the
  dictionary's insertion order.
- `strings.dfy` (module `Strings`): Python's `p in s` and
  `s.replace(p, "")`.
- `file_names.dfy` (module `FileNames`): the file-name rule and what it
  does to the table. Three iPhone/iPad pairs share a file, so 18 slots
  give 15 files. Shared files always have equal pixel sides. Both scripts
  carry the same copy of the rule, so one `FileName` models both.
- `int_math.dfy` (module `IntMath`): the integer square root and a few
  division facts.
- `canvas.dfy` (module `Canvas`): colours, bounding boxes and shapes.
- `gradient.dfy` (module `Gradient`): the ring count, the ring radii, the
  `radius > 0` guard and the byte clamp of the gradient.
- `layout.dfy` (module `Layout`): the glyph-group layout, the badge, and
  the two plus bars.
- `assets.dfy` (module `Assets`): the `(name, file, size)` records, file
  writes, and the directory the writes leave.
- `generator.dfy` (module `Generator`): `create_base_icon` as a list of
  shapes in paint order, and the `generate_icons` loop.
- `resizer.dfy` (module `Resizer`): `create_icons_from_image`. It covers
  the missing-source abort, the colour-mode normalisation, the resize
  loop, and the failure paths of the `try` block.

Modelling conventions:

- An `int(x * c)` scaling of a non-negative integer is modelled as the
  floor of the exact rational product, e.g. `(65 * size) / 100` for
  `int(size * 0.65)`. For the 13 distinct sides of the table the two
  agree. They do not agree for every side: at side 277 the group width is
  180, and `int(180 * 0.35)` is 62 in floating point while
  `(35 * 180) / 100` is 63. The layout lemmas that quantify over all sides
  are therefore facts about the rational model.
- `int(math.sqrt(n))` is modelled as the exact integer square root.
- The ring radius `int((steps - i) * max_radius / steps)` is modelled as
  the integer quotient. The numerator is small and the divisor is at most
  60, so the float quotient never crosses an integer.
- An image in the resizer is the record of the operations that produced
  it (`Loaded`, `OntoWhite`, `Converted`, `Resized`). That is enough to
  state each saved file's origin, colour mode and dimensions.
- The output directory is a map from file name to content. Both scripts
  write into an asset catalogue that may already hold files, among them
  the catalogue's `Contents.json`; `os.makedirs(..., exist_ok=True)`
  leaves those in place. The directory after a run therefore starts from
  an arbitrary `before` map.
- The resizer's exceptions are a `Fault` parameter. It says where the
  `try` block raises: loading or converting the source, creating the
  output directory, or anywhere after exactly `done` table entries have
  been saved and recorded (`FailsAfter(done)`). The last covers a failing
  resize or save of entry `done` and a failing progress message after
  entry `done - 1`. `FailsAfter` with `done` equal to the table length is
  a failing message after the last save, on line 105 or 107: every file
  and record exists and the script still returns `False`.

## Model

| member | source | states |
|---|---|---|
| `IconTable.GeneratorTableShape` | generate_app_icon.py:12-48 | the table has 18 slots with pairwise distinct names; every side lies in 20..1024, and both bounds are reached |
| `IconTable.NamesDistinct` | generate_app_icon.py:12-48 | no two slot names coincide, so the dictionary literal loses no entry |
| `IconTable.TablesAgree` | create_icons_from_image.py:14-50 | the resizer's table has the generator's slots and sides in the same order |
| `Strings.Contains` | generate_app_icon.py:203-207 | `p in s` holds whenever `p` is a prefix of `s` (the empty string included) and never when `p` is longer than `s` |
| `Strings.ContainsStep` | generate_app_icon.py:203-207 | `p in s` holds exactly when `p` is a prefix of `s` or occurs in `s` without its first character |
| `Strings.AbsentByChar` | generate_app_icon.py:203-207 | a pattern holding a character the string lacks is not in it |
| `Strings.RemoveAll` | generate_app_icon.py:204-206 | `replace(p, "")` never lengthens its input and introduces no character the input lacks |
| `Strings.RemoveAllIdentity` | generate_app_icon.py:204 | `replace(p, "")` returns its input unchanged exactly when `p` does not occur in it |
| `Strings.RemoveAllShrinks` | generate_app_icon.py:204 | when `p` occurs, the replacement removes at least one whole copy of it |
| `Strings.RemoveAllAbsent` | generate_app_icon.py:206 | replacing an absent pattern is the identity |
| `Strings.RemoveAllLeading` | generate_app_icon.py:204 | a leading copy of the pattern is removed and the scan resumes right after it |
| `FileNames.FileName` | generate_app_icon.py:203-210 | every file name starts with `icon-`, ends with `.png` and has at least 9 characters |
| `FileNames.IphoneRule` | generate_app_icon.py:203-204 | `iphone-<rest>` is written to `icon-<rest>.png` when `<rest>` holds no further `iphone-` |
| `FileNames.IpadRule` | generate_app_icon.py:205-206 | `ipad-<rest>` is written to `icon-<rest>.png`; the iPhone test, tried first, cannot fire on such a name |
| `FileNames.MarketingEntry` | generate_app_icon.py:207-208 | the App Store slot falls through both platform tests and gets the fixed name `icon-1024x1024.png` |
| `FileNames.PlainRule` | generate_app_icon.py:209-210 | a name matching none of the three tests is kept whole between `icon-` and `.png` |
| `FileNames.StemsDetermineNames` | generate_app_icon.py:203-210 | two `icon-<stem>.png` names are equal exactly when their stems are |
| `FileNames.NamingExamples` | generate_app_icon.py:203-208 | `iphone-60pt@2x` gives `icon-60pt@2x.png`; `ios-marketing-1024pt@1x` gives `icon-1024x1024.png` |
| `FileNames.TableFileNames` | generate_app_icon.py:198-210 | the file written for each of the 18 slots, slot by slot |
| `FileNames.SharedFiles` | generate_app_icon.py:198-213 | two slots share a file exactly for the iPhone/iPad pairs 29pt@2x, 40pt@2x and 20pt@2x |
| `FileNames.SharedFilesKeepSize` | generate_app_icon.py:198-213 | slots that share a file have the same side, so an overwrite never changes a file's dimensions |
| `FileNames.DistinctFileCount` | generate_app_icon.py:198-213 | the 18 slots produce exactly 15 different files |
| `FileNames.ContentsFileNeverWritten` | generate_app_icon.py:203-212 | no slot's file is named `Contents.json`, so a run never replaces the catalogue's descriptor |
| `IntMath.Isqrt` | generate_app_icon.py:91 | the result `r` satisfies `r*r <= n < (r+1)*(r+1)` |
| `IntMath.IsqrtUnique` | generate_app_icon.py:91 | any `r` with that bracketing is the root, so every floor square root agrees with the model |
| `Gradient.MaxRadius` | generate_app_icon.py:90-91 | the floor of the distance from the canvas centre to the corner |
| `Gradient.StepCount` | generate_app_icon.py:105 | at most 60 rings and never more than half the corner distance; the count is either 60 or half the corner distance |
| `Gradient.StepCountBySize` | generate_app_icon.py:105 | every icon of at least 4 pixels gets a gradient; the count reaches 60 exactly from side 170 on |
| `Gradient.RingRadius` | generate_app_icon.py:131 | a ring radius lies between 0 and the corner distance |
| `Gradient.ShareQuotient` | generate_app_icon.py:131 | the radius is the floor of the share `(steps - i) / steps` of the corner distance: `r * steps <= (steps - i) * max_radius < (r + 1) * steps` |
| `Gradient.RingRadiusBounds` | generate_app_icon.py:131-132 | every ring radius lies between 2 and the corner distance, so the `radius > 0` guard never skips a ring |
| `Gradient.FirstRingIsCorner` | generate_app_icon.py:131 | the outermost ring reaches the corner distance |
| `Gradient.RingsShrink` | generate_app_icon.py:131 | later rings are never larger than earlier ones |
| `Gradient.Clamp` | generate_app_icon.py:128 | the result is a byte; in-range values pass unchanged, and values below or above saturate at 0 or 255 |
| `Gradient.ClampRgb` | generate_app_icon.py:128 | the painted colour is a byte colour and equals the interpolated colour when that already is one |
| `Gradient.Ring` | generate_app_icon.py:128-135 | ring `i` is a circle around the canvas centre whose diameter is twice its radius, filled with a byte colour that is the interpolated colour whenever that is already a byte colour |
| `Gradient.RingsFrom` | generate_app_icon.py:106-135 | the guarded loop from ring `from` paints exactly rings `from..steps-1`, in order |
| `Gradient.Rings` | generate_app_icon.py:105-135 | the gradient is `steps` shapes, the `i`-th being ring `i` |
| `Gradient.RingsShape` | generate_app_icon.py:105-135 | the gradient is `steps` circles around the centre in byte colours, the first of corner-distance radius, each at least radius 2 and none larger than the one before |
| `Canvas.SquareAround` | generate_app_icon.py:133-134 | a bbox built as centre ± radius is centred on that point with sides of twice the radius |
| `Layout.GlyphLayout` | generate_app_icon.py:139-167 | the glyph group sits in the middle of the canvas: both margins are non-negative and differ by at most one pixel |
| `Layout.FloorsOf` | generate_app_icon.py:139-167 | every layout value is the floor of its rational value (group 65% of the side, heart 55%, plus 35%, spacing 10% of the group, bar length 60% of the plus, heart size 5/4 of the badge radius), and the thickness is 3 below a plus width of 16 and a quarter of it from 16 on |
| `Layout.Badge` | generate_app_icon.py:153-154 | the badge box is centred on the heart anchor at mid-height, with sides of twice the badge radius |
| `Layout.VerticalBar` | generate_app_icon.py:170-173 | the upright bar is centred on the plus anchor at mid-height; its width is within one pixel below the thickness and its height within one pixel below the length |
| `Layout.HorizontalBar` | generate_app_icon.py:178-181 | the level bar is centred on the plus anchor at mid-height; its width is within one pixel below the length and its height within one pixel below the thickness |
| `Layout.BarCornerRadius` | generate_app_icon.py:175 | the corner radius is the floor of a third of the thickness |
| `Layout.PartsFillGroup` | generate_app_icon.py:139-142 | heart, spacing and plus are never wider than the group and lose at most two pixels to rounding; the heart is never narrower than the plus |
| `Layout.BadgeAroundHeart` | generate_app_icon.py:150-155 | the badge is a square centred on the heart anchor, its side within one pixel of the heart width |
| `Layout.PlusRightOfHeart` | generate_app_icon.py:145-147 | from 4 pixels on the plus anchor lies right of the heart anchor |
| `Layout.PlusSymmetric` | generate_app_icon.py:166-183 | both bars are centred on the plus anchor, the horizontal bar is the vertical one reflected in the diagonal, the thickness is at least 3 and the corner radius at least 1 |
| `Layout.PlusClearOfBadge` | generate_app_icon.py:145-183 | from 10 pixels on no part of the plus reaches into the badge |
| `Layout.GlyphsInCanvas` | generate_app_icon.py:153-183 | from 2 pixels on, every coordinate of the badge and both bars lies in `0..size` |
| `Generator.BaseIcon` | generate_app_icon.py:87-185 | the icon is a `size` by `size` canvas with the deep-blue background, holding one shape per gradient ring followed by four glyph shapes |
| `Generator.GlyphShapes` | generate_app_icon.py:149-183 | four shapes in paint order: a white badge, a deep-blue heart at mid-height in the badge's centre, and two white rounded bars of one corner radius |
| `Generator.BaseIconShape` | generate_app_icon.py:101-185 | the icon is a square of the requested side, the gradient is painted under the four glyph shapes, and every fill is a byte colour |
| `Generator.GlyphShapesPlaced` | generate_app_icon.py:153-183 | the painted badge and bars lie on the canvas and the heart is anchored at the badge centre |
| `Generator.GenerateIcons` | generate_app_icon.py:198-214 | one record and one write per slot in table order; each record carries the slot name, its file name and its side, and each write saves that slot's icon under that file |
| `Generator.FollowingWritesConsistent` | generate_app_icon.py:198-213 | the generator's writes never put two different icons in one file |
| `Generator.GeneratedDirectory` | generate_app_icon.py:189-224 | starting from any catalogue, the run adds exactly the 15 table files, each holding the icon painted for every slot that names it; every other file, `Contents.json` among them, keeps its old content; an empty catalogue ends with exactly 15 files |
| `Assets.Directory` | generate_app_icon.py:189-213 | the files after a sequence of saves into an existing directory are the old files plus the paths saved to, and a file no save touches keeps its content |
| `Assets.LastWriteWins` | generate_app_icon.py:212-213 | a file holds what the last save to its path put there, whatever it held before |
| `Assets.ConsistentWritesKept` | generate_app_icon.py:212-213 | when saves to a path always agree, every save's content is what its file finally holds |
| `Assets.WrittenPaths` | generate_app_icon.py:212-213 | the paths saved to are exactly the file names the saves were given |
| `Assets.TableDirectory` | generate_app_icon.py:189-224 | saves that follow the table add exactly its 15 files to any catalogue, each holding the content for its slots' side, and leave every other file, `Contents.json` among them, unchanged |
| `Resizer.Normalise` | create_icons_from_image.py:65-76 | the working image is RGB and keeps the source's dimensions, and it is the source itself exactly when the source is RGB |
| `Resizer.NormaliseCases` | create_icons_from_image.py:68-76 | a non-RGB picture is flattened onto white exactly when it is RGBA or LA, with its alpha as the mask exactly when it is RGBA, and converted otherwise |
| `Resizer.NormaliseIdempotent` | create_icons_from_image.py:65 | normalising the working image again changes nothing |
| `Resizer.CreateIconsFromImage` | create_icons_from_image.py:56-114 | the run succeeds exactly when the source exists and nothing raises up to the `return True`; the directory is made exactly when the source exists and neither loading nor `makedirs` fails; a run writes at most one file per slot |
| `Resizer.MissingSourceAborts` | create_icons_from_image.py:56-58 | a missing source fails before any directory, file or record is made |
| `Resizer.SuccessfulRun` | create_icons_from_image.py:86-108 | a successful run saves one RGB `size` by `size` square per slot, in table order, resampled from the normalised source, and its records mirror the table |
| `Resizer.SuccessfulWrites` | create_icons_from_image.py:84-108 | a successful run saves exactly what an uninterrupted loop over the table saves |
| `Resizer.FailureKeepsEarlierFiles` | create_icons_from_image.py:86-114 | a fault after `k` entries returns failure and leaves exactly the first `k` files and records of a clean run; nothing is rolled back, and with `k` equal to the table length every file exists although the run fails |
| `Resizer.SavesConsistent` | create_icons_from_image.py:93-103 | saves of one image never disagree on a shared file when shared files have equal sides |
| `Resizer.SavesOverTable` | create_icons_from_image.py:78-103 | the saves of one image over the table add exactly its 15 files to any catalogue, each holding the image resampled to its slots' side, and leave every other file unchanged |
| `Resizer.ResizerDirectory` | create_icons_from_image.py:78-108 | starting from any catalogue, a successful run adds exactly the 15 table files, each holding the normalised source resampled to its slots' side; every other file, `Contents.json` among them, keeps its old content; an empty catalogue ends with exactly 15 files |

## Left out

- Raster work is not modelled: pixel contents of `ellipse`, `polygon` and `rounded_rectangle`, LANCZOS resampling, `paste`, `split`, `convert` and PNG encoding. These are library calls whose behaviour cannot be seen here. Shapes and images are recorded with their coordinates, colours and operations only.
- The heart outline (`draw_heart`, generate_app_icon.py:50-85) is float geometry. A heart is recorded with its anchor, size and colour only.
- The gradient colours (generate_app_icon.py:107-126) are float interpolation. They enter as the `Shade` parameter; only the clamp applied to them is modelled.
- File system and console are not modelled: `os.path.exists` becomes `Source.present`, `os.makedirs` becomes the `madeDirs` flag and the `MakeDirsFails` fault, and `save` becomes a `Write` record. `print` and `traceback` are left out.
- The absolute paths `SOURCE_IMAGE` and the two output directories are left out. Writes are keyed by file name within the output directory.
- The generator's `os.makedirs` and the exception handler in its `__main__` block are left out. `Generator.GenerateIcons` models a run in which nothing raises.
- `Resizer.CreateIconsFromImage`: a failure while opening the file and a failure while converting it are one fault, `LoadFails`. Both happen before `makedirs` and leave the same outcome.
- `Resizer.Mode` lists thirteen of PIL's modes. Any further mode takes the same branch as `L` or `CMYK`, a plain `convert('RGB')`.
- `Strings.RemoveAll` requires a non-empty pattern. Python's `replace` with an empty pattern inserts text, but the scripts only remove `iphone-` and `ipad-`.
- `Generator.GlyphShapesPlaced`: does not bound the heart outline, because `draw_heart` is not modelled.
- `Gradient.RingRadius`: its own contract gives only the bounds 0 and the corner distance; the floor bracket is stated by `Gradient.ShareQuotient`, which the function's proof uses.
- `Generator.GlyphShapes`: its contract does not restate that the level bar is the upright one turned a quarter; `Layout.PlusSymmetric` states that.
- The scripts do not update `Contents.json`; the generator only prints a reminder to do so (generate_app_icon.py:224). The model proves that the file is left as it was and does not model its contents.
- The records the resizer collects (`Resizer.Records`) and the saves of its loop (`Resizer.Saves`) are helpers defined slot by slot; what they mean is stated by `Resizer.SuccessfulRun` and `Resizer.FailureKeepsEarlierFiles`.
- `Layout.PlusClearOfBadge`: proved from side 10 on. The smallest table side is 20.
- `FileNames.DistinctFileCount`: the count of 15 is proved for this table only. The rule itself does not give a count for arbitrary tables.
