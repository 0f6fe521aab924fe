/** The Exif tag map the session reads when an item is loaded and writes when
    it is saved, seen through the three tags the tool edits. The map stands
    for Exiv2's ExifData; a tag value is what Exiv2 reports for it. */
module Exif {
  import opened Text

  /** A tag value: a string-typed value (Ascii, Comment) or a numeric one. */
  datatype TagValue = TextValue(text: string) | NumberValue(number: int)

  /** An Exif key: the three tags the tool edits (Exiv2's
      Exif.Image.ImageDescription, Exif.Photo.UserComment and
      Exif.Image.Orientation) and every other tag by its Exiv2 name, which is
      never one of those three. */
  datatype Key = DescriptionKey | CommentKey | OrientationKey | OtherKey(name: string)

  type ExifData = map<Key, TagValue>

  /** The character-code header of UserComment (Exif 2.3, section 4.6.5 D)
      as Exiv2 renders an ASCII one in text. */
  const Charset := "charset=\"Ascii\" "

  /** Decimal digits of a natural number. */
  function Digits(n: nat): (r: string)
    ensures r != [] && forall k :: 0 <= k < |r| ==> '0' <= r[k] <= '9'
    decreases n
  {
    var d := ['0' + (n % 10) as char];
    if n < 10 then d else Digits(n / 10) + d
  }

  /** The number a string of decimal digits denotes, read from the left. */
  function DecimalValue(s: string): int
    decreases |s|
  {
    if s == [] then 0 else DecimalValue(s[..|s| - 1]) * 10 + (s[|s| - 1] as int - '0' as int)
  }

  /** The digits read back as the number they were written for. */
  lemma {:induction false} DigitsRoundTrip(n: nat)
    ensures DecimalValue(Digits(n)) == n
    decreases n
  {
    var d := ['0' + (n % 10) as char];
    if n >= 10 {
      DigitsRoundTrip(n / 10);
      var s := Digits(n / 10) + d;
      assert s[..|s| - 1] == Digits(n / 10);
    } else {
      assert d[..0] == [];
    }
  }

  /** Value::toString: a string value as it is, a numeric value in decimal
      with a leading minus sign when it is negative. */
  function ToText(v: TagValue): (r: string)
    ensures v.TextValue? ==> r == v.text
    ensures v.NumberValue? ==> r != [] && '\0' !in r
  {
    match v
    case TextValue(t) => t
    case NumberValue(n) => if n < 0 then "-" + Digits(-n) else Digits(n)
  }

  /** The text of a numeric value reads back as that number. */
  lemma ToTextDecimal(n: int)
    ensures n >= 0 ==> DecimalValue(ToText(NumberValue(n))) == n
    ensures n < 0 ==> ToText(NumberValue(n))[0] == '-' && DecimalValue(ToText(NumberValue(n))[1..]) == -n
  {
    if n < 0 {
      DigitsRoundTrip(-n);
      assert ("-" + Digits(-n))[1..] == Digits(-n);
    } else {
      DigitsRoundTrip(n);
    }
  }

  /** Value::toLong: a string value answers with its first character. */
  function ToLong(v: TagValue): int {
    match v
    case NumberValue(n) => n
    case TextValue(t) => if t == [] then 0 else t[0] as int
  }

  predicate IsInt32(x: int) {
    -0x8000_0000 <= x < 0x8000_0000
  }

  /** Assigning a long to an int keeps the low 32 bits (two's complement). */
  function ToInt32(x: int): (r: int)
    ensures IsInt32(r)
    ensures (x - r) % 0x1_0000_0000 == 0
    ensures IsInt32(x) ==> r == x
  {
    (x + 0x8000_0000) % 0x1_0000_0000 - 0x8000_0000
  }

  /** showDescription: the ImageDescription text, "" when the tag is absent. */
  function ReadDescription(m: ExifData): (r: string)
    ensures '\0' !in r
    ensures DescriptionKey !in m ==> r == ""
    ensures DescriptionKey in m && m[DescriptionKey].TextValue? && '\0' !in m[DescriptionKey].text
            ==> r == m[DescriptionKey].text
  {
    if DescriptionKey in m then
      CStringKeeps(ToText(m[DescriptionKey]));
      CString(ToText(m[DescriptionKey]))
    else ""
  }

  /** showComment's treatment of the text: a comment that starts with the
      header loses every occurrence of the header. */
  function StripCharset(d: string): (r: string)
    ensures !StartsWith(d, Charset) ==> r == d
    ensures StartsWith(d, Charset) ==> |r| <= |d| - |Charset|
    ensures StartsWith(d, Charset) && !Contains(d[|Charset|..], Charset) ==> r == d[|Charset|..]
  {
    if StartsWith(d, Charset) then
      assert d == Charset + d[|Charset|..];
      RemoveLeadingRoundTrip(Charset, d[|Charset|..]);
      RemoveAll(d, Charset)
    else d
  }

  /** showComment: the UserComment text without its header, "" when the tag
      is absent. */
  function ReadComment(m: ExifData): (r: string)
    ensures CommentKey !in m ==> r == ""
    ensures CommentKey in m && m[CommentKey].TextValue? ==> |r| <= |m[CommentKey].text|
  {
    if CommentKey in m then StripCharset(CString(ToText(m[CommentKey]))) else ""
  }

  /** A comment text without a NUL that does not start with the header is
      shown as it is; one that does is shown without that header when no
      other copy of the header follows. */
  lemma ReadCommentText(m: ExifData, t: string)
    requires CommentKey in m && m[CommentKey] == TextValue(t) && '\0' !in t
    ensures !StartsWith(t, Charset) ==> ReadComment(m) == t
    ensures StartsWith(t, Charset) && !Contains(t[|Charset|..], Charset) ==> ReadComment(m) == t[|Charset|..]
  {
    CStringKeeps(t);
  }

  /** showOrientation: the Orientation value as an int, kept as it is (not
      normalised to a recognised code); 1 when the tag is absent. */
  function ReadOrientation(m: ExifData): (r: int)
    ensures IsInt32(r)
    ensures OrientationKey !in m ==> r == 1
    ensures OrientationKey in m && m[OrientationKey].NumberValue? && IsInt32(m[OrientationKey].number)
            ==> r == m[OrientationKey].number
  {
    if OrientationKey in m then ToInt32(ToLong(m[OrientationKey])) else 1
  }

  /** The three tag values stored into the map, every other tag kept. */
  function WriteTags(m: ExifData, description: string, comment: string, orientation: int): (r: ExifData)
    ensures r.Keys == m.Keys + {DescriptionKey, CommentKey, OrientationKey}
    ensures forall k :: k in m && k != DescriptionKey && k != CommentKey && k != OrientationKey ==> r[k] == m[k]
    ensures r[CommentKey] == TextValue(comment)
    ensures r[DescriptionKey] == TextValue(description)
    ensures r[OrientationKey] == NumberValue(orientation)
  {
    m[CommentKey := TextValue(comment)][DescriptionKey := TextValue(description)][OrientationKey := NumberValue(orientation)]
  }

  /** saveExifData's tag values: the trimmed comment behind the header, the
      trimmed description and the orientation as it stands, merged into the
      map so that every other tag stays as it was. */
  function SavedExif(m: ExifData, description: string, comment: string, orientation: int): (r: ExifData)
    ensures r.Keys == m.Keys + {DescriptionKey, CommentKey, OrientationKey}
    ensures forall k :: k in m && k != DescriptionKey && k != CommentKey && k != OrientationKey ==> r[k] == m[k]
    ensures r[CommentKey] == TextValue(Charset + Trimmed(comment))
    ensures r[DescriptionKey] == TextValue(Trimmed(description))
    ensures r[OrientationKey] == NumberValue(orientation)
  {
    WriteTags(m, Trimmed(description), Charset + Trimmed(comment), orientation)
  }

  /** Saving twice with the same fields writes the same map as saving once. */
  lemma SavedExifIdempotent(m: ExifData, description: string, comment: string, orientation: int)
    ensures var once := SavedExif(m, description, comment, orientation);
            SavedExif(once, description, comment, orientation) == once
  {
  }

  lemma {:induction false} CStringAfterPlainPrefix(p: string, t: string)
    requires '\0' !in p
    ensures CString(p + t) == p + CString(t)
    decreases |p|
  {
    if p != [] {
      assert p[0] != '\0' by { assert p[0] in p; }
      assert (p + t)[0] == p[0] && (p + t)[1..] == p[1..] + t;
      CStringAfterPlainPrefix(p[1..], t);
      assert CString(p + t) == [p[0]] + (p[1..] + CString(t));
      assert p == [p[0]] + p[1..];
    } else {
      assert p + t == t;
    }
  }

  /** Reloading a saved description gives the trimmed text back exactly
      when it holds no NUL. */
  lemma DescriptionRoundTrip(m: ExifData, description: string, comment: string, orientation: int)
    ensures ReadDescription(SavedExif(m, description, comment, orientation)) == Trimmed(description)
            <==> '\0' !in Trimmed(description)
  {
    CStringKeeps(Trimmed(description));
  }

  /** What a reload reads from the comment tag a save wrote: the header,
      then the trimmed comment up to its first NUL, with every header taken
      off. */
  lemma ReloadedComment(m: ExifData, description: string, comment: string, orientation: int)
    ensures ReadComment(SavedExif(m, description, comment, orientation))
            == RemoveAll(Charset + CString(Trimmed(comment)), Charset)
  {
    var t := Trimmed(comment);
    CStringAfterPlainPrefix(Charset, t);
    assert StartsWith(Charset + CString(t), Charset);
  }

  /** Behind the header, the NUL cut followed by the header removal gives a
      text back exactly when it holds no NUL and no header. */
  lemma StripAfterHeader(t: string)
    ensures RemoveAll(Charset + CString(t), Charset) == t <==> '\0' !in t && !Contains(t, Charset)
  {
    var cut := CString(t);
    RemoveLeadingRoundTrip(Charset, cut);
    CStringKeeps(t);
    if '\0' in t {
      assert |cut| < |t|;
      RemoveAllLeading(Charset, cut);
    }
  }

  /** Reloading a saved comment gives the trimmed text back exactly when it
      holds no NUL and no copy of the header: the header Save puts in front
      is taken off again, but so is every copy of it inside the text. */
  lemma CommentRoundTrip(m: ExifData, description: string, comment: string, orientation: int)
    ensures ReadComment(SavedExif(m, description, comment, orientation)) == Trimmed(comment)
            <==> '\0' !in Trimmed(comment) && !Contains(Trimmed(comment), Charset)
  {
    ReloadedComment(m, description, comment, orientation);
    StripAfterHeader(Trimmed(comment));
  }

  /** Reloading a saved orientation gives it back, whatever the code. */
  lemma OrientationRoundTrip(m: ExifData, description: string, comment: string, orientation: int)
    requires IsInt32(orientation)
    ensures ReadOrientation(SavedExif(m, description, comment, orientation)) == orientation
  {
  }

  lemma TrimmedAfterHeader(t: string)
    requires t != [] && !IsSpace(t[|t| - 1])
    ensures Trimmed(Charset + t) == Charset + t
  {
    assert (Charset + t)[0] == 'c';
    assert (Charset + t)[|Charset + t| - 1] == t[|t| - 1];
  }

  lemma StripDoubledHeader(t: string)
    requires '\0' !in t && !Contains(t, Charset)
    ensures StripCharset(CString(Charset + (Charset + t))) == t
  {
    CStringAfterPlainPrefix(Charset, Charset + t);
    CStringAfterPlainPrefix(Charset, t);
    CStringKeeps(t);
    assert CString(Charset + (Charset + t)) == Charset + (Charset + t);
    assert StartsWith(Charset + (Charset + t), Charset);
    RemoveAllLeading(Charset, Charset + t);
    RemoveAllLeading(Charset, t);
    RemoveAllWithout(t, Charset);
  }

  /** A comment that itself starts with the header comes back without it
      after a save and a reload. */
  lemma CommentHeaderLost(m: ExifData, description: string, t: string, orientation: int)
    requires t != [] && !IsSpace(t[|t| - 1])
    requires '\0' !in t && !Contains(t, Charset)
    ensures ReadComment(SavedExif(m, description, Charset + t, orientation)) == t
  {
    TrimmedAfterHeader(t);
    StripDoubledHeader(t);
  }

  /** Save sees the fields only through their trimmed text: fields that
      trim to the same text write the same map. */
  lemma SavedExifSameTrimmed(m: ExifData, d1: string, c1: string, d2: string, c2: string, orientation: int)
    requires Trimmed(d1) == Trimmed(d2) && Trimmed(c1) == Trimmed(c2)
    ensures SavedExif(m, d1, c1, orientation) == SavedExif(m, d2, c2, orientation)
  {
  }

  /** Save trims the fields itself: saving trimmed fields writes the same
      map as saving them untrimmed. */
  lemma SavedExifTrims(m: ExifData, description: string, comment: string, orientation: int)
    ensures SavedExif(m, Trimmed(description), Trimmed(comment), orientation)
            == SavedExif(m, description, comment, orientation)
  {
    TrimmedIdempotent(description);
    TrimmedIdempotent(comment);
    SavedExifSameTrimmed(m, Trimmed(description), Trimmed(comment), description, comment, orientation);
  }

  /** When the round trips hold, saving the fields a reload shows writes
      the very map that was loaded: Save right after a reload changes no
      tag. */
  lemma ResaveAfterReload(m: ExifData, description: string, comment: string, orientation: int)
    requires IsInt32(orientation)
    requires '\0' !in Trimmed(description)
    requires '\0' !in Trimmed(comment) && !Contains(Trimmed(comment), Charset)
    ensures var saved := SavedExif(m, description, comment, orientation);
            SavedExif(saved, ReadDescription(saved), ReadComment(saved), ReadOrientation(saved)) == saved
  {
    var saved := SavedExif(m, description, comment, orientation);
    DescriptionRoundTrip(m, description, comment, orientation);
    CommentRoundTrip(m, description, comment, orientation);
    OrientationRoundTrip(m, description, comment, orientation);
    SavedExifTrims(saved, description, comment, orientation);
    SavedExifIdempotent(m, description, comment, orientation);
  }
}
