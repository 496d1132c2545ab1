/** The upload directory and the shape of the records the handlers write
    into the metadata document. */
module Layout {
  import opened Text
  import opened Paths
  import opened PyJson

  /** A directory entry: a regular file with its byte size and modification
      time, or anything else (a sub-directory). */
  datatype Node = File(size: nat, mtime: real) | Folder

  /** The upload directory, by entry name. */
  type Dir = map<string, Node>

  /** The sidecar's own name inside the upload directory. */
  const MetadataName: string := "metadata.json"

  /** The audio extensions the application accepts, lower-case with the dot. */
  const AllowedExtensions: set<string> :=
    {".mp3", ".wav", ".m4a", ".aac", ".ogg", ".flac", ".opus", ".wma", ".aiff"}

  /** The allowed extensions are already lower-case. */
  lemma AllowedAreLower(ext: string)
    requires ext in AllowedExtensions
    ensures AsciiLower(ext) == ext
  {
    LowerFixes(ext);
  }

  const DefaultLang: string := "Khmer"
  const DefaultGender: string := "Male"
  const Languages: set<string> := {"Khmer", "English", "Mix-Both"}
  const Genders: set<string> := {"Male", "Female"}

  /** The two display renderings of a file's stat: the human-readable size
      and the formatted local modification time. Their formatting is not
      modelled; they are fixed functions of the byte count and the mtime. */
  datatype Formats = Formats(sizeText: nat -> string, timeText: real -> string)

  /** `path.exists() and path.is_file()`. */
  predicate IsRegularFile(dir: Dir, name: string) {
    name in dir && dir[name].File?
  }

  /** The entries `list_files` reports: regular files other than the sidecar
      whose lower-cased pathlib suffix is an allowed extension. */
  predicate Listed(name: string, node: Node) {
    node.File? && name != MetadataName && AsciiLower(Suffix(name)) in AllowedExtensions
  }

  /** The four annotations every handler carries over from an entry. */
  datatype Annotation = Annotation(labelText: string, verified: bool, lang: string, gender: string)

  const Defaults: Annotation := Annotation("", false, DefaultLang, DefaultGender)

  /** How the updaters read an existing entry: from an object with Python's
      `or` defaults, from a bare string as its label, otherwise defaults. */
  function AnnotationOf(e: Option<Entry>): (a: Annotation)
    ensures a.lang != [] && a.gender != []
    ensures e.Some? && e.value.Legacy? ==> a == Defaults.(labelText := e.value.text)
    ensures (e.None? || e.value.Other?) ==> a == Defaults
  {
    match e
    case Some(Record(f)) =>
      Annotation(StrOr(Get(f, "label"), ""), TruthyOr(Get(f, "verified")),
                 StrOr(Get(f, "lang"), DefaultLang), StrOr(Get(f, "gender"), DefaultGender))
    case Some(Legacy(s)) => Defaults.(labelText := s)
    case _ => Defaults
  }

  const SevenKeys: set<string> :=
    {"label", "verified", "lang", "gender", "size_h", "size_bytes", "mtime_iso"}
  const EightKeys: set<string> := SevenKeys + {"speaker"}

  /** The record the label, verify, language and gender handlers and the
      batch upload write: no "speaker" key. */
  function Entry7(a: Annotation, sizeH: Json, sizeBytes: Json, mtimeIso: Json): (f: Fields)
    ensures f.Keys == SevenKeys
  {
    map["label" := JStr(a.labelText), "verified" := JBool(a.verified), "lang" := JStr(a.lang),
        "gender" := JStr(a.gender), "size_h" := sizeH, "size_bytes" := sizeBytes,
        "mtime_iso" := mtimeIso]
  }

  /** The record the listing and the speaker handler write. */
  function Entry8(a: Annotation, speaker: string, sizeH: Json, sizeBytes: Json, mtimeIso: Json): (f: Fields)
    ensures f.Keys == EightKeys
  {
    Entry7(a, sizeH, sizeBytes, mtimeIso)["speaker" := JStr(speaker)]
  }

  /** The value the eight-key record holds under each key. */
  lemma Entry8Values(a: Annotation, speaker: string, sizeH: Json, sizeBytes: Json, mtimeIso: Json)
    ensures var f := Entry8(a, speaker, sizeH, sizeBytes, mtimeIso);
      && f["label"] == JStr(a.labelText) && f["verified"] == JBool(a.verified)
      && f["lang"] == JStr(a.lang) && f["gender"] == JStr(a.gender)
      && f["speaker"] == JStr(speaker)
      && f["size_h"] == sizeH && f["size_bytes"] == sizeBytes && f["mtime_iso"] == mtimeIso
  {
  }

  /** A written record reads back, through the handlers' `or` defaults, as
      the annotations it was written with. */
  lemma RecordReadBack(a: Annotation, speaker: string, sizeH: Json, sizeBytes: Json, mtimeIso: Json)
    requires a.lang != [] && a.gender != []
    ensures AnnotationOf(Some(Record(Entry7(a, sizeH, sizeBytes, mtimeIso)))) == a
    ensures AnnotationOf(Some(Record(Entry8(a, speaker, sizeH, sizeBytes, mtimeIso)))) == a
  {
    var f7 := Entry7(a, sizeH, sizeBytes, mtimeIso);
    var f8 := Entry8(a, speaker, sizeH, sizeBytes, mtimeIso);
    assert f7["label"] == f8["label"] == JStr(a.labelText);
    assert f7["verified"] == f8["verified"] == JBool(a.verified);
    assert f7["lang"] == f8["lang"] == JStr(a.lang);
    assert f7["gender"] == f8["gender"] == JStr(a.gender);
  }

  /** The stat-derived fields as the handlers write them for a regular file. */
  /** The record carries the live stat of node: its size in bytes, that
      size in human form and its modification time in ISO form. */
  predicate StatOf(f: Fields, node: Node, fmt: Formats)
    requires node.File?
  {
    && "size_h" in f && f["size_h"] == JStr(fmt.sizeText(node.size))
    && "size_bytes" in f && f["size_bytes"] == JInt(node.size)
    && "mtime_iso" in f && f["mtime_iso"] == JStr(fmt.timeText(node.mtime))
  }

  function StatFields(a: Annotation, node: Node, fmt: Formats): (f: Fields)
    requires node.File?
    ensures f.Keys == SevenKeys
    ensures StatOf(f, node, fmt)
  {
    Entry7(a, JStr(fmt.sizeText(node.size)), JInt(node.size), JStr(fmt.timeText(node.mtime)))
  }
}
