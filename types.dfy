/** File classification (app/directory.go:13-116): the `Type` record, the
    extension and MIME lookup tables, and the classifier that picks one. */
module Types {
  import opened Text
  import opened FilePath

  /** A category name; the source keeps it open so that a MIME top-level type
      can introduce a new one. */
  type Category = string

  // Type labels (app/directory.go:14-29).
  const Pages := "Pages document"
  const TAR := "Tarball"
  const ZIP := "Zipball"
  const PDF := "PDF Document"
  const MP3 := "MP3 Audio"
  const OGG := "OGG Audio"
  const FLAC := "FLAC High-Definition"
  const MIDI := "MIDI Synth Audio"
  const WAV := "WAV Audio"
  const ASD := "Ableton Analysis File"
  const AVI := "AVI Video"
  const DMG := "Apple Disk Image"
  const MKV := "Matroska High-Definition Video"
  const MP4 := "MP4 Video"
  const TXT := "Plain Text"
  const SRT := "Subtitle File"

  /** The catch-all category (app/directory.go:31). */
  const Other: Category := "Other"

  // Categories (app/directory.go:34-39).
  const Dir: Category := "Directory"
  const Document: Category := "Document"
  const Archive: Category := "Archive"
  const Audio: Category := "Audio"
  const Video: Category := "Video"
  const Program: Category := "Program"

  /** `Type` (app/directory.go:41-44): a category and, within it, a label. */
  datatype Type = Type(cat: Category, kind: string)

  datatype Option<T> = None | Some(value: T)

  /** The extensions the MIME resolver may not know (app/directory.go:56-60). */
  const KnownExt: map<string, Type> := map[
    ".pages" := Type(Document, Pages),
    ".asd" := Type(Audio, ASD),
    ".srt" := Type(Document, SRT),
    ".txt" := Type(Document, TXT)
  ]

  /** Subtypes of `application/` (app/directory.go:72-77). */
  const KnownApp: map<string, Type> := map[
    "pdf" := Type(Document, PDF),
    "x-tar" := Type(Archive, TAR),
    "x-apple-diskimage" := Type(Program, DMG),
    "zip" := Type(Archive, ZIP),
    "x-subrip" := Type(Document, SRT)
  ]

  /** Subtypes of `audio/` (app/directory.go:78-83). */
  const KnownAudio: map<string, Type> := map[
    "mpeg" := Type(Audio, MP3),
    "mid" := Type(Audio, MIDI),
    "x-wav" := Type(Audio, WAV),
    "x-flac" := Type(Audio, FLAC),
    "ogg" := Type(Audio, OGG)
  ]

  /** Subtypes of `video/` (app/directory.go:84-87). */
  const KnownVideo: map<string, Type> := map[
    "x-msvideo" := Type(Video, AVI),
    "x-matroska" := Type(Video, MKV),
    "mp4" := Type(Video, MP4)
  ]

  /** The three top-level types that have a table of their own. */
  const MimeTables: map<string, map<string, Type>> := map[
    "application" := KnownApp,
    "audio" := KnownAudio,
    "video" := KnownVideo
  ]

  function Lookup(table: map<string, Type>, key: string): Option<Type>
  {
    if key in table then Some(table[key]) else None
  }

  /** `getKnownExt` (app/directory.go:55-66): the table entry for `ext`, or
      `Other` labelled with the extension itself. */
  function GetKnownExt(ext: string): (t: Type)
    ensures ext == ".pages" ==> t == Type(Document, Pages)
    ensures ext == ".asd" ==> t == Type(Audio, ASD)
    ensures ext == ".srt" ==> t == Type(Document, SRT)
    ensures ext == ".txt" ==> t == Type(Document, TXT)
    ensures t.cat == Other <==> ext !in {".pages", ".asd", ".srt", ".txt"}
    ensures t.cat == Other ==> t.kind == ext
    ensures t.cat != "" && (t.cat != Other ==> t.kind != "")
  {
    match Lookup(KnownExt, ext)
    case Some(known) => known
    case None => Type(Other, ext)
  }

  /** A string `getKnownMime` can index: `s[1]` needs a `/`. */
  predicate HasSubtype(mime: string)
  {
    '/' in mime
  }

  /** The top-level type: the text before the first `/`. */
  function MimeTop(mime: string): string
    requires HasSubtype(mime)
  {
    Split(mime, '/')[0]
  }

  /** The subtype: the text between the first `/` and the next one (or the end). */
  function MimeSub(mime: string): string
    requires HasSubtype(mime)
  {
    Split(mime, '/')[1]
  }

  /** The two fields are the parts of a `type/subtype` string. */
  lemma MimeFields(top: string, sub: string, rest: string)
    requires '/' !in top && '/' !in sub
    requires rest == [] || rest[0] == '/'
    ensures HasSubtype(top + "/" + sub + rest)
    ensures MimeTop(top + "/" + sub + rest) == top
    ensures MimeSub(top + "/" + sub + rest) == sub
  {
    var mime := top + "/" + sub + rest;
    assert mime == top + ['/'] + (sub + rest);
    SplitAtFirst(top, sub + rest, '/');
    if rest == [] {
      SplitWithoutSep(sub, '/');
      assert sub + rest == sub;
    } else {
      assert sub + rest == sub + ['/'] + rest[1..];
      SplitAtFirst(sub, rest[1..], '/');
    }
  }

  /** `getKnownMime` (app/directory.go:68-104). */
  function GetKnownMime(mime: string): (t: Type)
    requires HasSubtype(mime)
    ensures MimeTop(mime) in MimeTables && MimeSub(mime) in MimeTables[MimeTop(mime)] ==>
      t == MimeTables[MimeTop(mime)][MimeSub(mime)]
    ensures MimeTop(mime) in MimeTables && MimeSub(mime) !in MimeTables[MimeTop(mime)] ==>
      t == Type(Other, MimeSub(mime))
    ensures MimeTop(mime) !in MimeTables ==>
      t == Type(Title(MimeTop(mime)), Upper(MimeSub(mime)))
    ensures MimeTop(mime) != "" ==> t.cat != ""
  {
    var s := Split(mime, '/');
    var found :=
      if s[0] == "application" then Lookup(KnownApp, s[1])
      else if s[0] == "audio" then Lookup(KnownAudio, s[1])
      else if s[0] == "video" then Lookup(KnownVideo, s[1])
      else Some(Type(Title(s[0]), Upper(s[1])));
    match found
    case None => Type(Other, s[1])
    case Some(known) => known
  }

  /** The only top-level types that title-case to `Other` are `other` and
      `Other`; every other type outside the three tables gets a category that
      is not the catch-all. */
  lemma TitleIsOtherOnlyFor(top: string)
    ensures Title(top) == Other ==> top == "other" || top == "Other"
  {
    if Title(top) == Other {
      var r := Title(top);
      assert r[1] == 't' && r[2] == 'h' && r[3] == 'e' && r[4] == 'r';
      assert top[1] == 't' && top[2] == 'h' && top[3] == 'e' && top[4] == 'r';
      assert top[0] == 'o' || top[0] == 'O';
      assert top == [top[0], 't', 'h', 'e', 'r'];
    }
  }

  /** Outside `application`, `audio` and `video` the category is the title-cased
      top-level type, which is `Other` only for the top-level type `other`. */
  lemma SynthesizedCategory(mime: string)
    requires HasSubtype(mime) && MimeTop(mime) !in MimeTables
    ensures GetKnownMime(mime).cat == Title(MimeTop(mime))
    ensures GetKnownMime(mime).kind == Upper(MimeSub(mime))
    ensures GetKnownMime(mime).cat == Other ==> MimeTop(mime) in {"other", "Other"}
  {
    TitleIsOtherOnlyFor(MimeTop(mime));
  }

  /** `image/png` is not in any table: it becomes `{Image, PNG}`. */
  lemma ImagePng()
    ensures GetKnownMime("image/png") == Type("Image", "PNG")
  {
    ImagePngFields();
    TitleImage();
    UpperPng();
  }

  lemma ImagePngFields()
    ensures HasSubtype("image/png")
    ensures MimeTop("image/png") == "image" && MimeSub("image/png") == "png"
  {
    MimeFields("image", "png", "");
    assert "image/png" == "image" + "/" + "png" + "";
  }

  lemma TitleImage()
    ensures Title("image") == "Image"
  {
    TitleOfWord("image");
    assert UpperChar('i') == 'I';
    assert "image"[1..] == "mage";
  }

  lemma UpperPng()
    ensures Upper("png") == "PNG"
  {
    var upper := Upper("png");
    assert |upper| == 3 && upper[0] == 'P' && upper[1] == 'N' && upper[2] == 'G';
  }

  /** What the MIME resolver may hand to `getKnownMime` without a panic:
      nothing (`""`), or a string with a `/`. */
  predicate Resolvable(mime: string)
  {
    mime == "" || HasSubtype(mime)
  }

  /** `getKnownType` (app/directory.go:106-116): the extension of `f` goes to
      the MIME resolver (`mime.TypeByExtension`, a parameter here); the
      extension table is consulted exactly when the resolver has nothing. */
  function GetKnownType(f: string, resolve: string -> string): (t: Type)
    requires Resolvable(resolve(Ext(f)))
    ensures resolve(Ext(f)) == "" ==> t == GetKnownExt(Ext(f))
    ensures resolve(Ext(f)) != "" ==> t == GetKnownMime(resolve(Ext(f)))
    ensures resolve(Ext(f)) == "" || MimeTop(resolve(Ext(f))) != "" ==> t.cat != ""
  {
    var ext := Ext(f);
    var mime := resolve(ext);
    if mime == "" then GetKnownExt(ext) else GetKnownMime(mime)
  }

  /** Every extension/MIME pair outside the tables falls back to `Other`
      labelled with the raw extension or subtype: classification never fails. */
  lemma OtherFallback(f: string, resolve: string -> string)
    requires Resolvable(resolve(Ext(f)))
    ensures resolve(Ext(f)) == "" && Ext(f) !in KnownExt ==>
      GetKnownType(f, resolve) == Type(Other, Ext(f))
    ensures (resolve(Ext(f)) != "" && MimeTop(resolve(Ext(f))) in MimeTables
             && MimeSub(resolve(Ext(f))) !in MimeTables[MimeTop(resolve(Ext(f)))]) ==>
      GetKnownType(f, resolve) == Type(Other, MimeSub(resolve(Ext(f))))
  {
  }

  /** A file without an extension asks the resolver about `""`; when that finds
      nothing, the file is `Other` with an empty label. */
  lemma ExtensionlessIsUnlabelled(f: string, resolve: string -> string)
    requires '.' !in LastElement(f) && resolve("") == ""
    ensures Resolvable(resolve(Ext(f)))
    ensures GetKnownType(f, resolve) == Type(Other, "")
  {
    ExtOfLastElement(f);
  }

  /** `song.mp3` with the resolver answering `audio/mpeg` is MP3 audio. */
  lemma SongMp3(resolve: string -> string)
    requires resolve(".mp3") == "audio/mpeg"
    ensures Resolvable(resolve(Ext("song.mp3")))
    ensures GetKnownType("song.mp3", resolve) == Type(Audio, MP3)
  {
    ExtOfSuffix("song", "mp3");
    assert "song" + "." + "mp3" == "song.mp3" && "." + "mp3" == ".mp3";
    assert Ext("song.mp3") == ".mp3";
    MimeFields("audio", "mpeg", "");
    assert "audio/mpeg" == "audio" + "/" + "mpeg" + "";
  }

  /** `data.xyz`, unknown to the resolver and to the table, is `Other` `.xyz`. */
  lemma DataXyz(resolve: string -> string)
    requires resolve(".xyz") == ""
    ensures Resolvable(resolve(Ext("data.xyz")))
    ensures GetKnownType("data.xyz", resolve) == Type(Other, ".xyz")
  {
    ExtOfSuffix("data", "xyz");
    assert "data" + "." + "xyz" == "data.xyz" && "." + "xyz" == ".xyz";
    assert Ext("data.xyz") == ".xyz";
  }
}
