/** The edit session of the photoDesc main window: the description and
    comment shown in the text fields, the orientation, the baselines they
    had when the item was loaded, the fields of the item shown before, and
    the `saved` flag, together with the slots that change them.

    The file tree and Exiv2 are outside the model: a tree entry arrives as a
    FileEntry that already says what the file system and Exiv2 would report
    about it, the answer to the "Save your changes?" box arrives as a Choice,
    and a write of the tag map to a file is returned as a Write. */
module PhotoDescApp {
  import opened Text
  import opened Orientation
  import opened Exif

  datatype Option<T> = None | Some(value: T)

  /** What Exiv2::ImageFactory::getType and QFileInfo say about an entry. */
  datatype FileKind = Directory | Unsupported | Supported

  /** A file tree entry. `metadata` is None when Exiv2 cannot open the file,
      and otherwise the Exif data it reads from it (possibly empty). */
  datatype FileEntry = FileEntry(path: string, kind: FileKind, metadata: Option<ExifData>)

  /** The buttons of the "Save your changes?" box. */
  datatype Choice = Save | Discard | Cancel

  /** The tag map written to the file at `path`. */
  datatype Write = Write(path: string, tags: ExifData)

  /** A snapshot of every field of the window that the session touches.
      `description` and `comment` are the texts of the two edit fields,
      `path` the file name saves go to, `currentFileIndex` the entry last
      opened by a double-click, `selected` the entry the tree shows as
      current, `comboIndex` the orientation drop-down entry, `pictureLoaded`
      whether a picture was ever loaded and `angle` the rotation it was last
      drawn with. */
  datatype Session = Session(
    description: string, comment: string, orientation: int,
    descriptionOld: string, commentOld: string, orientationOld: int,
    descriptionPrevious: string, commentPrevious: string,
    saved: bool, exif: ExifData, path: string,
    currentFileIndex: Option<string>, selected: Option<string>,
    comboIndex: nat, pictureLoaded: bool, angle: int)

  /** The invariant the window keeps: both orientations are ints, the
      drop-down shows one of its four entries, and a picture on screen is
      turned as its orientation says. */
  predicate ValidSession(s: Session) {
    IsInt32(s.orientation) && IsInt32(s.orientationOld) && s.comboIndex < |OrientationMap|
    && (s.pictureLoaded ==> s.angle == DisplayAngle(s.orientation))
  }

  /** Some field differs from its baseline. */
  predicate HasChanges(s: Session) {
    s.descriptionOld != s.description || s.commentOld != s.comment || s.orientationOld != s.orientation
  }

  /** checkForChanges asks the user exactly when something changed and Save
      was not pressed since the item was loaded. */
  predicate NeedsPrompt(s: Session) {
    HasChanges(s) && !s.saved
  }

  /** saveExifData: the window's tag map with the three edited tags merged in. */
  function AfterSave(s: Session): Session {
    s.(exif := SavedExif(s.exif, s.description, s.comment, s.orientation))
  }

  /** checkForChanges: the state after the box was answered with `choice`
      (only Save changes anything) ... */
  function AfterGuard(s: Session, choice: Choice): Session {
    if NeedsPrompt(s) && choice == Save then AfterSave(s) else s
  }

  /** ... and whether the navigation goes ahead. */
  predicate GuardProceeds(s: Session, choice: Choice) {
    !(NeedsPrompt(s) && choice == Cancel)
  }

  /** nextImage: a directory is ignored; an unsupported file only becomes
      the save target; any other file first moves the shown fields into the
      previous ones, clears the fields and `saved`, and only then reads the
      Exif data, keeping the old baselines and orientation when there is
      none. */
  function AfterNextImage(s: Session, e: FileEntry): Session {
    match e.kind
    case Directory => s
    case Unsupported => s.(path := e.path)
    case Supported =>
      var cleared := Cleared(s, e.path);
      match e.metadata
      case None => cleared
      case Some(m) => if m == map[] then cleared.(exif := m) else Shown(cleared, m)
  }

  /** The part of nextImage before the Exif data is read. */
  function Cleared(s: Session, path: string): Session {
    s.(path := path,
       descriptionPrevious := s.description, commentPrevious := s.comment,
       description := "", comment := "", comboIndex := 0, saved := false)
  }

  /** The part of nextImage after non-empty Exif data `m` was read. */
  function Shown(s: Session, m: ExifData): Session {
    var d, c, o := ReadDescription(m), ReadComment(m), ReadOrientation(m);
    s.(exif := m, description := d, descriptionOld := d,
       comment := c, commentOld := c,
       orientation := o, orientationOld := o, comboIndex := ExifToIndex(o),
       pictureLoaded := true, angle := DisplayAngle(o))
  }

  /** An item whose Exif data was read shows exactly its baselines, so the
      next navigation goes ahead without asking. */
  lemma LoadedItemUnchanged(s: Session, e: FileEntry)
    requires e.kind == Supported && e.metadata.Some? && e.metadata.value != map[]
    ensures var t := AfterNextImage(s, e);
            !HasChanges(t) && !t.saved && t.pictureLoaded
            && t.orientation == ReadOrientation(e.metadata.value)
            && t.angle == DisplayAngle(t.orientation)
            && t.comboIndex == ExifToIndex(t.orientation)
  {
  }

  /** The previous fields are taken from the shown fields for every file of
      a supported type, whether or not its Exif data can be read. */
  lemma PreviousTakenBeforeReading(s: Session, e: FileEntry)
    requires e.kind == Supported
    ensures var t := AfterNextImage(s, e);
            t.descriptionPrevious == s.description && t.commentPrevious == s.comment
            && !t.saved && t.path == e.path
  {
  }

  /** A file without Exif data keeps the previous file's baselines and
      orientation under cleared fields, so leaving it asks the user whenever
      that file's description or comment was not empty or its orientation
      had been changed. */
  lemma NoExifKeepsBaselines(s: Session, e: FileEntry)
    requires e.kind == Supported && (e.metadata == None || e.metadata == Some(map[]))
    ensures var t := AfterNextImage(s, e);
            t.description == "" && t.comment == ""
            && t.descriptionOld == s.descriptionOld && t.commentOld == s.commentOld
            && t.orientation == s.orientation && t.orientationOld == s.orientationOld
            && t.pictureLoaded == s.pictureLoaded
            && (NeedsPrompt(t) <==> s.descriptionOld != "" || s.commentOld != "" || s.orientation != s.orientationOld)
  {
  }

  /** Loading keeps the window's invariant. */
  lemma NextImageValid(s: Session, e: FileEntry)
    requires ValidSession(s)
    ensures ValidSession(AfterNextImage(s, e))
  {
  }

  /** Choosing Save in the box writes the tags but leaves the baselines and
      `saved` alone: asked again at once, the box would appear again. */
  lemma GuardSaveStillAsks(s: Session)
    requires NeedsPrompt(s)
    ensures var t := AfterGuard(s, Save);
            GuardProceeds(s, Save) && t.saved == s.saved
            && t.descriptionOld == s.descriptionOld && t.commentOld == s.commentOld
            && t.orientationOld == s.orientationOld && NeedsPrompt(t)
  {
  }

  /** Once Save was pressed the box never appears for this item, whatever
      is edited afterwards. */
  lemma SavedNeverAsks(s: Session, description: string, comment: string, orientation: int)
    requires s.saved
    ensures !NeedsPrompt(s.(description := description, comment := comment, orientation := orientation))
  {
  }

  /** An orientation code the drop-down does not offer is kept as it is:
      the drop-down shows "no rotation", the picture is not turned, and a
      save writes the same code back. */
  lemma UnrecognisedOrientationKept(s: Session, e: FileEntry, code: int)
    requires e.kind == Supported && e.metadata.Some?
    requires OrientationKey in e.metadata.value && e.metadata.value[OrientationKey] == NumberValue(code)
    requires IsInt32(code) && !IsRecognised(code)
    ensures var t := AfterNextImage(s, e);
            t.orientation == code && t.comboIndex == 0 && t.angle == 0
            && AfterSave(t).exif[OrientationKey] == NumberValue(code)
  {
  }

  /** Saving and then loading the same file again shows the trimmed fields
      and the same orientation, drawn at its angle, with nothing to ask
      about, provided the text round trips of the tags hold. */
  lemma SaveThenReload(s: Session)
    requires IsInt32(s.orientation)
    requires '\0' !in Trimmed(s.description)
    requires '\0' !in Trimmed(s.comment) && !Contains(Trimmed(s.comment), Charset)
    ensures var saved := AfterSave(s);
            var t := AfterNextImage(saved, FileEntry(s.path, Supported, Some(saved.exif)));
            t.description == Trimmed(s.description) && t.comment == Trimmed(s.comment)
            && t.orientation == s.orientation && t.angle == DisplayAngle(s.orientation)
            && !NeedsPrompt(t)
  {
    var m := SavedExif(s.exif, s.description, s.comment, s.orientation);
    var saved := AfterSave(s);
    assert m != map[] by { assert OrientationKey in m; }
    var t := AfterNextImage(saved, FileEntry(s.path, Supported, Some(saved.exif)));
    assert t == Shown(Cleared(saved, s.path), m);
    DescriptionRoundTrip(s.exif, s.description, s.comment, s.orientation);
    CommentRoundTrip(s.exif, s.description, s.comment, s.orientation);
    OrientationRoundTrip(s.exif, s.description, s.comment, s.orientation);
    assert t.description == t.descriptionOld == Trimmed(s.description);
    assert t.comment == t.commentOld == Trimmed(s.comment);
    assert t.orientation == t.orientationOld == s.orientation;
  }

  class PhotoDesc {
    var description: string
    var comment: string
    var orientation: int
    var descriptionOld: string
    var commentOld: string
    var orientationOld: int
    var descriptionPrevious: string
    var commentPrevious: string
    var saved: bool
    var exif: ExifData
    var path: string
    var currentFileIndex: Option<string>
    var selected: Option<string>
    var comboIndex: nat
    var pictureLoaded: bool
    var angle: int

    function State(): Session
      reads this
    {
      Session(description, comment, orientation, descriptionOld, commentOld, orientationOld,
              descriptionPrevious, commentPrevious, saved, exif, path,
              currentFileIndex, selected, comboIndex, pictureLoaded, angle)
    }

    ghost predicate Valid()
      reads this
    {
      ValidSession(State())
    }

    /** The window as it opens: no rotation, nothing saved, nothing shown. */
    constructor ()
      ensures Valid()
      ensures orientation == orientationOld == 1 && !saved
      ensures descriptionPrevious == "" && commentPrevious == ""
      ensures description == "" && comment == "" && descriptionOld == "" && commentOld == ""
      ensures comboIndex == 0 && !pictureLoaded && exif == map[]
      ensures currentFileIndex == None && selected == None
    {
      description, comment := "", "";
      descriptionOld, commentOld := "", "";
      comboIndex := 0;
      orientation := 1;
      orientationOld := 1;
      pictureLoaded := false;
      angle := 0;
      saved := false;
      commentPrevious := "";
      descriptionPrevious := "";
      exif := map[];
      path := "";
      currentFileIndex, selected := None, None;
    }

    /** The user types into the description field. */
    method EditDescription(text: string)
      modifies this`description
      ensures description == text
    {
      description := text;
    }

    /** The user types into the comment field. */
    method EditComment(text: string)
      modifies this`comment
      ensures comment == text
    {
      comment := text;
    }

    /** saveExifData: merges the edited tags into the window's tag map and
        writes the map to the current file. */
    method SaveExifData() returns (write: Write)
      modifies this`exif
      ensures State() == AfterSave(old(State()))
      ensures write == Write(path, exif)
    {
      var qsComment := Charset + Trimmed(comment);
      exif := exif[CommentKey := TextValue(qsComment)];
      var desc := Trimmed(description);
      exif := exif[DescriptionKey := TextValue(desc)];
      exif := exif[OrientationKey := NumberValue(orientation)];
      write := Write(path, exif);
    }

    /** The Save button: saves and sets `saved`, nothing else. */
    method OnSaveClicked() returns (write: Write)
      modifies this`exif, this`saved
      ensures State() == AfterSave(old(State())).(saved := true)
      ensures write == Write(path, exif)
      ensures !NeedsPrompt(State())
    {
      write := SaveExifData();
      saved := true;
    }

    /** checkForChanges: asks the user only when a field differs from its
        baseline and Save was not pressed; Cancel stops the navigation, Save
        writes the tags, and neither Save nor Discard touches the baselines
        or `saved`. */
    method CheckForChanges(choice: Choice) returns (prompted: bool, proceed: bool, write: Option<Write>)
      modifies this`exif
      ensures prompted == NeedsPrompt(old(State()))
      ensures proceed == GuardProceeds(old(State()), choice)
      ensures proceed <==> !prompted || choice != Cancel
      ensures State() == AfterGuard(old(State()), choice)
      ensures write == if prompted && choice == Save then Some(Write(path, exif)) else None
    {
      prompted, proceed, write := false, true, None;
      if (descriptionOld != description || commentOld != comment || orientationOld != orientation) && !saved {
        prompted := true;
        match choice
        case Save =>
          var w := SaveExifData();
          write := Some(w);
        case Discard =>
        case Cancel =>
          proceed := false;
      }
    }

    /** nextImage with the show* helpers and the final displayImage. */
    method NextImage(e: FileEntry)
      requires Valid()
      modifies this
      ensures Valid()
      ensures State() == AfterNextImage(old(State()), e)
    {
      if e.kind == Directory {
        return;
      }
      path := e.path;
      if e.kind == Unsupported {
        return;
      }
      ClearFields();
      if e.metadata == None {
        return;
      }
      exif := e.metadata.value;
      if exif == map[] {
        return;
      }
      ghost var before := State();
      ShowExifData();
      assert before == Cleared(old(State()), e.path).(exif := e.metadata.value);
    }

    /** The part of nextImage between the type check and the read: the shown
        fields become the previous ones, then the fields and `saved` are
        cleared. */
    method ClearFields()
      requires Valid()
      modifies this`descriptionPrevious, this`commentPrevious, this`description, this`comment
      modifies this`comboIndex, this`saved
      ensures Valid()
      ensures State() == Cleared(old(State()), path)
    {
      commentPrevious := comment;
      descriptionPrevious := description;
      comment := "";
      description := "";
      comboIndex := 0;
      saved := false;
    }

    /** The end of nextImage once non-empty Exif data was read: the show*
        helpers, then the picture is loaded and drawn. */
    method ShowExifData()
      requires Valid() && description == "" && comment == ""
      modifies this`description, this`descriptionOld, this`comment, this`commentOld
      modifies this`orientation, this`orientationOld, this`comboIndex, this`pictureLoaded, this`angle
      ensures Valid()
      ensures State() == Shown(old(State()), old(exif))
    {
      ShowDescription();
      ShowComment();
      ShowOrientation();
      pictureLoaded := true;
      DisplayImage();
    }

    /** showDescription: the baseline becomes the tag's text ("" when
        absent), and the field shows it when the tag is there. */
    method ShowDescription()
      modifies this`description, this`descriptionOld
      ensures descriptionOld == ReadDescription(exif)
      ensures description == if DescriptionKey in exif then descriptionOld else old(description)
    {
      if DescriptionKey in exif {
        var d := CString(ToText(exif[DescriptionKey]));
        description := d;
        descriptionOld := d;
      } else {
        descriptionOld := "";
      }
    }

    /** showComment: the same for the comment, after taking the header off
        a text that starts with it. */
    method ShowComment()
      modifies this`comment, this`commentOld
      ensures commentOld == ReadComment(exif)
      ensures comment == if CommentKey in exif then commentOld else old(comment)
    {
      if CommentKey in exif {
        var d := CString(ToText(exif[CommentKey]));
        if StartsWith(d, Charset) {
          d := RemoveAll(d, Charset);
        }
        comment := d;
        commentOld := d;
      } else {
        commentOld := "";
      }
    }

    /** showOrientation: the tag's value as it is, 1 when absent; the
        drop-down shows its entry and the value becomes the baseline. */
    method ShowOrientation()
      modifies this`orientation, this`orientationOld, this`comboIndex
      ensures orientation == orientationOld == ReadOrientation(exif)
      ensures comboIndex == ExifToIndex(orientation)
    {
      if OrientationKey in exif {
        orientation := ToInt32(ToLong(exif[OrientationKey]));
      } else {
        orientation := 1;
      }
      comboIndex := ExifToIndex(orientation);
      orientationOld := orientation;
    }

    /** displayImage: draws the picture turned by the angle of its
        orientation. */
    method DisplayImage()
      modifies this`angle
      ensures angle == DisplayAngle(orientation)
    {
      var a := 0;
      if orientation == 8 {
        a := 270;
      } else if orientation == 3 {
        a := 180;
      } else if orientation == 6 {
        a := 90;
      }
      angle := a;
    }

    /** A double-click on a tree entry: the view makes it current; if the
        user cancels in the box, the previously opened entry is made current
        again and nothing is loaded, otherwise the entry becomes the opened
        one and is loaded. */
    method OnFileDoubleClicked(e: FileEntry, choice: Choice) returns (write: Option<Write>)
      requires Valid()
      modifies this
      ensures Valid()
      ensures var s := old(State());
              if GuardProceeds(s, choice)
              then State() == AfterNextImage(AfterGuard(s, choice).(selected := Some(e.path), currentFileIndex := Some(e.path)), e)
              else State() == s.(selected := s.currentFileIndex)
      ensures write == if NeedsPrompt(old(State())) && choice == Save then Some(Write(old(path), AfterSave(old(State())).exif)) else None
    {
      ghost var s := State();
      selected := Some(e.path);
      var prompted, proceed;
      prompted, proceed, write := CheckForChanges(choice);
      if !proceed {
        selected := currentFileIndex;
        return;
      }
      currentFileIndex := Some(e.path);
      assert State() == AfterGuard(s, choice).(selected := Some(e.path), currentFileIndex := Some(e.path));
      NextImage(e);
    }

    /** The next and previous buttons: after the box, the neighbouring entry
        (None when there is none) is made current in the view and loaded;
        the entry remembered for a cancelled double-click stays as it was. */
    method OnNextOrPreviousClicked(neighbour: Option<FileEntry>, choice: Choice) returns (write: Option<Write>)
      requires Valid()
      modifies this
      ensures Valid()
      ensures var s := old(State());
              if !GuardProceeds(s, choice) then State() == s
              else if neighbour == None then State() == AfterGuard(s, choice)
              else State() == AfterNextImage(AfterGuard(s, choice).(selected := Some(neighbour.value.path)), neighbour.value)
      ensures write == if NeedsPrompt(old(State())) && choice == Save then Some(Write(old(path), AfterSave(old(State())).exif)) else None
    {
      var prompted, proceed;
      prompted, proceed, write := CheckForChanges(choice);
      if !proceed {
        return;
      }
      if neighbour.Some? {
        selected := Some(neighbour.value.path);
        NextImage(neighbour.value);
      }
    }

    /** The restore button: with a picture loaded, the fields and the
        orientation return to their baselines (redrawing when the orientation
        changes); `saved` is cleared in every case. */
    method OnRestoreClicked()
      requires Valid()
      modifies this`description, this`comment, this`orientation, this`comboIndex, this`angle, this`saved
      ensures Valid()
      ensures !saved
      ensures old(pictureLoaded) ==> !HasChanges(State())
      ensures old(pictureLoaded) && old(orientation) != orientationOld
              ==> comboIndex == ExifToIndex(orientationOld) && angle == DisplayAngle(orientationOld)
      ensures old(pictureLoaded) && old(orientation) == orientationOld
              ==> comboIndex == old(comboIndex) && angle == old(angle)
      ensures !old(pictureLoaded) ==> State() == old(State()).(saved := false)
    {
      if pictureLoaded {
        comment := commentOld;
        description := descriptionOld;
        if orientation != orientationOld {
          orientation := orientationOld;
          comboIndex := ExifToIndex(orientation);
          DisplayImage();
        }
      }
      saved := false;
    }

    /** The user picks drop-down entry `index`: the orientation becomes that
        entry's code and the picture is redrawn, unless the code is the
        current orientation already. Only the orientation and the drawing
        change; `saved` and the baselines stay. The drop-down is only shown
        once a picture was loaded. */
    method OnOrientationActivated(index: nat)
      requires Valid() && pictureLoaded && index < |OrientationMap|
      modifies this`orientation, this`angle, this`comboIndex
      ensures Valid()
      ensures comboIndex == index
      ensures OrientationMap[index] == old(orientation) ==> orientation == old(orientation) && angle == old(angle)
      ensures OrientationMap[index] != old(orientation) ==> orientation == OrientationMap[index] && angle == DisplayAngle(orientation)
    {
      comboIndex := index;  // the drop-down shows the entry picked
      var newOrientation := OrientationMap[index];
      if newOrientation == orientation {
        return;
      }
      orientation := newOrientation;
      DisplayImage();
    }

    /** The description undo button. */
    method OnUndoDescClicked()
      modifies this`description
      ensures description == descriptionOld
    {
      description := descriptionOld;
    }

    /** The comment undo button. */
    method OnUndoCommentClicked()
      modifies this`comment
      ensures comment == commentOld
    {
      comment := commentOld;
    }

    /** The description copy button: the previous item's description. */
    method OnCopyDescClicked()
      modifies this`description
      ensures description == descriptionPrevious
    {
      description := descriptionPrevious;
    }

    /** The comment copy button: the previous item's comment. */
    method OnCopyCommentClicked()
      modifies this`comment
      ensures comment == commentPrevious
    {
      comment := commentPrevious;
    }

    /** The description clear button. */
    method OnClearClicked()
      modifies this`description
      ensures description == ""
    {
      description := "";
    }

    /** The comment clear button. */
    method OnClearCommentClicked()
      modifies this`comment
      ensures comment == ""
    {
      comment := "";
    }
  }
}
