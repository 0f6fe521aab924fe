# photoDesc edit session in Dafny

photoDesc is a small Qt desktop tool that shows the photos of a directory
tree one at a time and lets the user edit three Exif tags of the current
photo: the description (`Exif.Image.ImageDescription`), the comment
(`Exif.Photo.UserComment`) and the orientation (`Exif.Image.Orientation`).
This project models the part of the main window `photoDesc` that carries
state: the edit session.

- `text.dfy` (module `Text`): the string operations the session relies on —
  `QString::trimmed`, `startsWith`, `remove(QString)` and the cut at the
  first NUL when a `std::string` is handed to `QString` through `c_str()`.
- `orientation.dfy` (module `Orientation`): the table `orientation_map`
  from drop-down entry to orientation code, `exifToIndex` from code to
  entry, and the rotation angle `displayImage` picks for a code. The codes
  are those of the Orientation tag in Exif 2.3 (CIPA DC-008), section
  4.6.4 A.
- `exif.dfy` (module `Exif`): the Exif data as a map from tag key to value,
  what `showDescription`, `showComment` and `showOrientation` read from it,
  the three tag values `saveExifData` merges into it (the comment behind
  the character-code header of Exif 2.3 section 4.6.5 D, which Exiv2 renders
  as `charset="Ascii" `), and what a reload of a saved map gives back.
- `photodesc.dfy` (module `PhotoDescApp`): class `PhotoDesc` with the
  session fields — the texts of the description and comment fields,
  `orientation`, the baselines `description_old`, `comment_old`,
  `orientation_old`, the `*_previous` texts, `saved`, the window's Exif
  map, the file saves go to, the remembered and the selected tree entry,
  the drop-down entry, whether a picture was loaded and the angle it was
  drawn with — and one method per slot. `State()` gives all fields as one
  `Session` value; the pure functions `AfterNextImage`, `AfterSave` and
  `AfterGuard` on it specify `nextImage`, `saveExifData` and
  `checkForChanges`, and the lemmas beside them state what the session
  promises across several steps.

The file system and Exiv2 are inputs: a tree entry arrives as a `FileEntry`
that says whether it is a directory, a type Exiv2 does not support, or a
supported file together with the Exif data Exiv2 reads from it (`None` when
Exiv2 cannot open it). The answer to the "Save your changes?" box is a
`Choice` parameter. A write of the tag map to a file is returned as a
`Write` value.

The model follows the code, which differs from a tidier reading of the
session in these ways:

- `saveExifData` never moves the baselines: after a save the fields still
  count as changed against the values loaded.
- Choosing Save in the box does not set `saved`; only the Save button does.
  Once `saved` is set, no edit made afterwards makes the box appear for
  that item until Restore is pressed (it clears `saved`) or another item is
  loaded.
- An orientation code other than 1, 3, 6 and 8 is kept as read. The
  drop-down shows "no rotation" and the picture is not turned. A save
  writes the code back unchanged.
- `nextImage` copies the shown fields into the previous ones, clears the
  fields and `saved` before it reads the Exif data. For a file without Exif
  data (or one Exiv2 cannot open) the baselines and orientation of the item
  before stay in place under empty fields, so leaving it asks the user
  whenever that item had a description or comment.
- An unsupported file does not change the session, but it becomes the file
  a later save writes to. A directory changes nothing.
- The next and previous buttons do not update the entry that a cancelled
  double-click returns the tree to.
- Loading removes every copy of the header from a comment that starts with
  it, so a saved comment comes back unchanged only when its trimmed text
  holds no copy of the header and no NUL.

## Model

| member | source | states |
|---|---|---|
| Text.Trimmed | photodesc.cpp:360-367 | the trimmed text has no white space at either end; text already trimmed is left unchanged |
| Text.TrimmedIsSpacePadded | photodesc.cpp:360-367 | the original text is the trimmed text with only white space before and after it |
| Text.TrimmedIdempotent | photodesc.cpp:360-367 | trimming twice gives the same text as trimming once |
| Text.RemoveAllWithout | photodesc.cpp:298-301 | removing the header from a text that does not contain it leaves the text unchanged |
| Text.RemoveAllShrinks | photodesc.cpp:298-301 | removing the header from a text that contains it makes the text strictly shorter |
| Text.RemoveLeadingRoundTrip | photodesc.cpp:298-301 | header + t with every header removed equals t exactly when t holds no copy of the header |
| Text.CString | photodesc.cpp:278-280 | the text that reaches the QString is the longest prefix without a NUL, and is followed by a NUL or the end of the input |
| Text.CStringKeeps | photodesc.cpp:278-280 | the NUL cut leaves a text unchanged exactly when it holds no NUL |
| Orientation.ExifToIndex | photodesc.cpp:331-346 | the entry is one of the four; for a recognised code the table maps the entry back to that code; any other code gives entry 0 |
| Orientation.DisplayAngle | photodesc.cpp:412-424 | the angle is 0, 90, 180 or 270, and is non-zero exactly for codes 8, 6 and 3 |
| Orientation.OrientationMapCodes | photodesc.h:83 | the table holds four distinct recognised codes |
| Orientation.ExifToIndexLeftInverse | photodesc.cpp:331-346 | exifToIndex(orientation_map[i]) == i for every entry i |
| Orientation.IndexRoundTrip | photodesc.cpp:331-346 | orientation_map[exifToIndex(c)] == c exactly when c is 1, 3, 6 or 8; otherwise it is 1 |
| Orientation.AngleMatchesLabel | photodesc.cpp:412-424 | the entries "no rotation", "rotate left", "rotate right", "invert" turn the picture by 0, 270, 90 and 180 degrees clockwise |
| Orientation.AngleAgreesWithShownEntry | photodesc.cpp:320-323 | for every code, the picture is turned as the drop-down entry shown for that code says |
| Exif.ToText | photodesc.cpp:278 | a string value passes through unchanged; a numeric value renders as non-empty text without a NUL |
| Exif.DigitsRoundTrip | photodesc.cpp:278 | the decimal digits written for n read back as n |
| Exif.ToTextDecimal | photodesc.cpp:278 | the text of a numeric value is its decimal notation: it reads back as the number, behind a minus sign when the number is negative |
| Exif.ToInt32 | photodesc.cpp:320 | the long read is stored in an int: the result is in 32-bit range, congruent to the input mod 2^32, and equal to it when it fits |
| Exif.ReadDescription | photodesc.cpp:272-285 | the description is "" when the tag is absent, never holds a NUL, and is the tag's text when that text has no NUL |
| Exif.StripCharset | photodesc.cpp:296-299 | a comment that does not start with the header is unchanged; one that does loses at least the leading header, and header + t with no further header in t gives exactly t |
| Exif.ReadComment | photodesc.cpp:289-307 | the comment is "" when the tag is absent and never longer than the tag's text |
| Exif.ReadCommentText | photodesc.cpp:289-304 | a comment text without a NUL is shown as it is when it does not start with the header, and without that header when it does and no other copy of the header follows |
| Exif.ReadOrientation | photodesc.cpp:315-325 | the orientation is an int, 1 when the tag is absent, and the raw value (not normalised) when it is a numeric value in range |
| Exif.SavedExif | photodesc.cpp:357-371 | save sets exactly the three tags (comment = header + trimmed comment, trimmed description, raw orientation) and keeps every other tag |
| Exif.SavedExifIdempotent | photodesc.cpp:357-371 | saving the same fields twice writes the same map as saving once |
| Exif.SavedExifSameTrimmed | photodesc.cpp:360-368 | fields that trim to the same texts write the same map |
| Exif.SavedExifTrims | photodesc.cpp:360-368 | saving trimmed fields writes the same map as saving the untrimmed ones |
| Exif.DescriptionRoundTrip | photodesc.cpp:366-368 | reloading a saved description gives the trimmed text exactly when it holds no NUL |
| Exif.CommentRoundTrip | photodesc.cpp:359-364 | reloading a saved comment gives the trimmed text exactly when it holds no NUL and no copy of the header |
| Exif.OrientationRoundTrip | photodesc.cpp:370-371 | reloading a saved orientation gives the same code |
| Exif.CommentHeaderLost | photodesc.cpp:298-301 | a comment typed as header + t comes back as t after save and reload |
| Exif.ResaveAfterReload | photodesc.cpp:357-371 | when the round trips hold, saving the fields a reload shows writes the map that was loaded |
| PhotoDescApp.LoadedItemUnchanged | photodesc.cpp:164-175 | after a file with Exif data is loaded, the fields equal their baselines, saved is false, and the drop-down and angle follow the raw orientation read |
| PhotoDescApp.PreviousTakenBeforeReading | photodesc.cpp:152-161 | for any supported file, the previous texts are the texts shown before, saved is false and the file becomes the save target, whether or not its Exif data can be read |
| PhotoDescApp.NoExifKeepsBaselines | photodesc.cpp:164-186 | without Exif data the fields are empty, the old baselines and orientation stay, and leaving the item asks the user exactly when an old baseline was non-empty or the orientation differed from its baseline |
| PhotoDescApp.NextImageValid | photodesc.cpp:129-208 | loading keeps the window invariant (int orientations, a drop-down entry in range, a shown picture turned by its orientation's angle) |
| PhotoDescApp.GuardSaveStillAsks | photodesc.cpp:106-110 | Save in the box proceeds but keeps saved and the baselines, so the box would appear again |
| PhotoDescApp.SavedNeverAsks | photodesc.cpp:93-98 | once saved is set, no edit of the fields or the orientation makes the box appear |
| PhotoDescApp.UnrecognisedOrientationKept | photodesc.cpp:315-325 | an unrecognised code is kept: the drop-down shows entry 0, the picture is not turned, and a save writes the same code back |
| PhotoDescApp.SaveThenReload | photodesc.cpp:357-377 | saving and reloading the same file shows the trimmed fields, the same orientation at its angle, and nothing to ask about |
| PhotoDescApp.PhotoDesc.constructor | photodesc.cpp:40-49 | the window starts with orientation = orientation_old = 1, saved false, empty previous texts, no picture |
| PhotoDescApp.PhotoDesc.EditDescription | photodesc.cpp:89-90 | typing sets the description field (the text checkForChanges reads) |
| PhotoDescApp.PhotoDesc.EditComment | photodesc.cpp:89-90 | typing sets the comment field |
| PhotoDescApp.PhotoDesc.SaveExifData | photodesc.cpp:357-377 | the window's map gains the three saved tags, it is written to the current file, and nothing else changes |
| PhotoDescApp.PhotoDesc.OnSaveClicked | photodesc.cpp:349-353 | the Save button saves and sets saved, so the box will not appear for this item |
| PhotoDescApp.PhotoDesc.CheckForChanges | photodesc.cpp:86-125 | the box appears exactly when a field differs from its baseline and saved is false; only Cancel stops the navigation; only Save writes; baselines and saved never change |
| PhotoDescApp.PhotoDesc.NextImage | photodesc.cpp:129-208 | the new state is AfterNextImage of the old one: directory ignored, unsupported file only retargets saves, otherwise previous texts taken, fields and saved cleared, then the Exif data read |
| PhotoDescApp.PhotoDesc.ClearFields | photodesc.cpp:152-161 | the shown texts become the previous ones; fields, drop-down entry and saved are cleared |
| PhotoDescApp.PhotoDesc.ShowExifData | photodesc.cpp:171-207 | the fields and baselines take the values read, the picture is loaded and drawn at the orientation's angle |
| PhotoDescApp.PhotoDesc.ShowDescription | photodesc.cpp:272-285 | the baseline becomes the description read; the field shows it only when the tag is present |
| PhotoDescApp.PhotoDesc.ShowComment | photodesc.cpp:289-307 | the baseline becomes the comment read; the field shows it only when the tag is present |
| PhotoDescApp.PhotoDesc.ShowOrientation | photodesc.cpp:315-325 | orientation and its baseline become the value read (1 when absent), and the drop-down shows exifToIndex of it |
| PhotoDescApp.PhotoDesc.DisplayImage | photodesc.cpp:410-424 | the picture is drawn at DisplayAngle(orientation) |
| PhotoDescApp.PhotoDesc.OnFileDoubleClicked | photodesc.cpp:212-225 | on Cancel the tree returns to the remembered entry and nothing loads; otherwise the entry is remembered and loaded after the box |
| PhotoDescApp.PhotoDesc.OnNextOrPreviousClicked | photodesc.cpp:461-489 | after the box, the neighbouring entry (if any) is selected and loaded; the remembered entry is not updated |
| PhotoDescApp.PhotoDesc.OnRestoreClicked | photodesc.cpp:392-406 | with a picture loaded, the fields and orientation return to their baselines, redrawing only if the orientation changed; saved is cleared in every case |
| PhotoDescApp.PhotoDesc.OnOrientationActivated | photodesc.cpp:450-458 | the orientation becomes orientation_map[index] and the picture is redrawn, unless it already was that code; saved and the baselines stay |
| PhotoDescApp.PhotoDesc.OnUndoDescClicked | photodesc.cpp:491-494 | only the description changes, back to its baseline |
| PhotoDescApp.PhotoDesc.OnUndoCommentClicked | photodesc.cpp:496-499 | only the comment changes, back to its baseline |
| PhotoDescApp.PhotoDesc.OnCopyDescClicked | photodesc.cpp:501-504 | only the description changes, to the previous item's description (possibly "") |
| PhotoDescApp.PhotoDesc.OnCopyCommentClicked | photodesc.cpp:506-509 | only the comment changes, to the previous item's comment (possibly "") |
| PhotoDescApp.PhotoDesc.OnClearClicked | photodesc.cpp:380-383 | only the description changes, to "" |
| PhotoDescApp.PhotoDesc.OnClearCommentClicked | photodesc.cpp:386-389 | only the comment changes, to "" |

## Left out

- Widget plumbing: `showDialogs`, `enableDialogs`, `loadFileList`, setting controls enabled or visible, status-bar messages, the error box for an unsupported file and the destructor. These have no effect on the session state.
- `showDate` and the date label: the capture date is only displayed and never edited or compared.
- Image decoding, `QPixmap`/`QTransform` rotation, scene fitting and the `delete`/`new` of scene, image and pixmap. Only the chosen angle and a "picture loaded" flag are kept.
- Exiv2 I/O (`getType`, `open`, `readMetadata`, `writeMetadata`): these are inputs (`FileEntry`) and outputs (`Write`). A write that fails, including the unchecked null image in `saveExifData` and Exiv2 exceptions, is not modelled.
- Read failures: `readMetadata` on a corrupt file throws out of `nextImage` uncaught, and Exiv2 releases with `Image::AutoPtr` throw from `ImageFactory::open` instead of returning null. The `None` case of `FileEntry` models the null check at photodesc.cpp:164-186 as written; a load that throws is not modelled.
- Exiv2 value conversions are reduced to two rules. A numeric value renders as decimal text, and a string value read as a number gives its first character. A UserComment is represented by the text Exiv2 renders for it, not by its raw bytes with the 8-byte character code.
- Duplicate keys and key order in Exiv2's ExifData: the model uses a map. Its keys are a datatype with one constructor for each of the three edited tags and one holding the name of any other tag; the text of the three names plays no part.
- `QTextEdit::toPlainText` rewriting characters: it turns a no-break space into a space and U+2028, U+2029 and a carriage return into line breaks, so a comment holding one of these differs from `comment_old` after loading and `checkForChanges` asks about it. The model reads the comment field as exactly the text set, and does not show that box.
- Character encodings: `toUtf8`, `toStdString` and the `const char *` conversion to QString are not modelled. Strings are sequences of Unicode characters, and of the C-string hand-over only the cut at the first NUL is kept.
- `QTextEdit::setText` rich-text detection and `QLineEdit`'s default maximum length: each field is modelled as holding exactly the text set.
- The `QFileSystemModel` row arithmetic of the next and previous buttons: the neighbouring entry is a parameter (`None` when there is none). The view's own change of current entry on a double-click is modelled as selecting the clicked entry. Expanding a directory in the tree is not modelled.
- The `QMessageBox` itself: its answer is a parameter; the unreachable `default` branch has no counterpart.
- PhotoDescApp.PhotoDesc.OnOrientationActivated: requires that a picture was loaded and that the index is one of the four entries. `displayImage` dereferences the scene, which exists only once a picture was loaded, and the drop-down is hidden until then and holds four entries.
