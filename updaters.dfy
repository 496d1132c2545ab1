/** The per-field endpoints `/label`, `/speaker`, `/verify`, `/lang` and
    `/gender`. Each one sanitises the requested filename, checks that it is
    a regular file in the upload directory, reads the metadata document,
    rebuilds that file's record from the old entry and the live stat, and
    writes the whole document back. Here each endpoint is a function from
    the sidecar, whether it can be written, the directory, the stored name
    and the value the request body decodes to, to the new sidecar and the
    reply. */
module Updaters {
  import opened Text
  import opened Sanitizer
  import opened PyJson
  import opened Layout

  /** A JSON request body. */
  type Payload = map<string, Json>

  /** The JSON reply: `{"ok": true, key: value}`, `{"ok": false, "error":
      message}`, no return value at all, or an exception that escapes the
      handler (the framework answers 500). */
  datatype Reply = Ok(key: string, value: Json) | Err(message: string) | NoReply | ServerError

  datatype Effect = Effect(sidecar: Sidecar, reply: Reply)

  const NotFound: Reply := Err("File not found")
  const WriteFailed: Reply := Err("Failed to write metadata")

  /** `str(payload.get(k) or default).strip()`. */
  function Field(payload: Payload, k: string, default: string): string {
    Strip(StrOr(Get(payload, k), default))
  }

  /** The stored name a request addresses. */
  function Target(payload: Payload): (r: string)
    ensures IsSafeName(r)
  {
    SafeFilename(Field(payload, "filename", ""))
  }

  /** The entry the document holds for name. */
  function Stored(s: Sidecar, name: string): Option<Entry> {
    Lookup(Load(s), name)
  }

  predicate IsControl(c: char) {
    c <= '\U{1F}' || c == '\U{7F}'
  }

  /** re.sub(r"[\x00-\x1F\x7F]", "", s). */
  function DropControls(s: string): (r: string)
    ensures |r| <= |s|
    ensures forall i :: 0 <= i < |r| ==> !IsControl(r[i])
    ensures (forall i :: 0 <= i < |s| ==> !IsControl(s[i])) ==> r == s
  {
    if s == [] then []
    else if IsControl(s[0]) then DropControls(s[1..])
    else [s[0]] + DropControls(s[1..])
  }

  /** Control removal works character by character: a single character is
      dropped exactly when it is a control character, and the removal
      distributes over concatenation, so every other character stays in
      order. */
  lemma {:induction false} DropControlsAppend(a: string, b: string)
    ensures DropControls(a + b) == DropControls(a) + DropControls(b)
  {
    if a == [] {
      assert a + b == b;
    } else {
      var ab := a + b;
      assert ab[0] == a[0] && ab[1..] == a[1..] + b;
      DropControlsAppend(a[1..], b);
    }
  }

  /** A single character is dropped exactly when it is removed by the rule. */
  lemma DropControlsOne(c: char)
    ensures DropControls([c]) == if IsControl(c) then [] else [c]
  {
    assert [c][1..] == [];
  }

  /** The label `/label` stores: stripped, control characters removed, at
      most 200 characters. */
  function RequestedLabel(payload: Payload): (r: string)
    ensures |r| <= 200
    ensures forall i :: 0 <= i < |r| ==> !IsControl(r[i])
    ensures var t := DropControls(Field(payload, "label", ""));
      |r| == Min(|t|, 200) && r == t[..|r|]
  {
    var t := DropControls(Field(payload, "label", ""));
    t[..Min(|t|, 200)]
  }

  /** A reply value that is "None" in place of the empty string. */
  function OrNone(s: string): string {
    if s == [] then "None" else s
  }

  /** The shared tail of the handlers: json.dumps the document with the new
      record under name and write it; a failed write leaves the sidecar as it
      was and is reported. */
  function Commit(sidecar: Sidecar, writable: bool, name: string, record: Fields, ok: Reply): (r: Effect)
    ensures writable ==> r.reply == ok && r.sidecar.Parsed? && Stored(r.sidecar, name) == Some(Record(record))
    ensures writable ==> forall k :: k != name ==> Stored(r.sidecar, k) == Stored(sidecar, k)
    ensures !writable ==> r == Effect(sidecar, WriteFailed)
  {
    if writable then Effect(Parsed(Load(sidecar)[name := Record(record)]), ok)
    else Effect(sidecar, WriteFailed)
  }

  /** What every successful update guarantees: the document now parses,
      holds a record for name, and every other entry is as it was. */
  ghost predicate UpdatedOnly(before: Sidecar, after: Sidecar, name: string) {
    && after.Parsed?
    && Stored(after, name).Some? && Stored(after, name).value.Record?
    && forall k :: k != name ==> Stored(after, k) == Stored(before, k)
  }

  /** The record written for name, given it is a record. */
  function NewFields(s: Sidecar, name: string): Fields
    requires Stored(s, name).Some? && Stored(s, name).value.Record?
  {
    Stored(s, name).value.fields
  }

  /** Store the seven-key record with annotations a and the live stat of
      the regular file name, as `/label`, `/verify` and `/gender` do. */
  function Write7(sidecar: Sidecar, writable: bool, dir: Dir, name: string, a: Annotation, fmt: Formats, ok: Reply): (r: Effect)
    requires IsRegularFile(dir, name) && a.lang != [] && a.gender != []
    ensures writable ==>
      && r.reply == ok && UpdatedOnly(sidecar, r.sidecar, name)
      && NewFields(r.sidecar, name) == StatFields(a, dir[name], fmt)
      && AnnotationOf(Stored(r.sidecar, name)) == a
    ensures !writable ==> r == Effect(sidecar, WriteFailed)
  {
    var record := StatFields(a, dir[name], fmt);
    RecordReadBack(a, "", record["size_h"], record["size_bytes"], record["mtime_iso"]);
    Commit(sidecar, writable, name, record, ok)
  }

  /** The same with the eight-key record `/speaker` writes. */
  function Write8(sidecar: Sidecar, writable: bool, dir: Dir, name: string, a: Annotation, speaker: string, fmt: Formats, ok: Reply): (r: Effect)
    requires IsRegularFile(dir, name) && a.lang != [] && a.gender != []
    ensures writable ==>
      && r.reply == ok && UpdatedOnly(sidecar, r.sidecar, name)
      && NewFields(r.sidecar, name) == StatFields(a, dir[name], fmt)["speaker" := JStr(speaker)]
      && AnnotationOf(Stored(r.sidecar, name)) == a
    ensures !writable ==> r == Effect(sidecar, WriteFailed)
  {
    var node := dir[name];
    var record := Entry8(a, speaker, JStr(fmt.sizeText(node.size)), JInt(node.size), JStr(fmt.timeText(node.mtime)));
    RecordReadBack(a, speaker, record["size_h"], record["size_bytes"], record["mtime_iso"]);
    Commit(sidecar, writable, name, record, ok)
  }

  // ---------------------------------------------------------------------
  // The request values, as each handler reads them from the body

  function RequestedSpeaker(payload: Payload): string {
    Field(payload, "speaker", "")
  }

  function RequestedVerified(payload: Payload): bool {
    TruthyOr(Get(payload, "verified"))
  }

  function RequestedLang(payload: Payload): string {
    Field(payload, "lang", DefaultLang)
  }

  function RequestedGender(payload: Payload): string {
    Field(payload, "gender", DefaultGender)
  }

  // ---------------------------------------------------------------------
  // /label, for the stored name safe and the cleaned label text

  function LabelEffect(sidecar: Sidecar, writable: bool, dir: Dir, safe: string, text: string, fmt: Formats): (r: Effect)
    ensures r.reply.Ok? <==> IsRegularFile(dir, safe) && writable
    ensures !IsRegularFile(dir, safe) ==> r.reply == NotFound
    ensures IsRegularFile(dir, safe) && !writable ==> r.reply == WriteFailed
    ensures !r.reply.Ok? ==> r.sidecar == sidecar
    ensures r.reply.Ok? ==>
      && r.reply == Ok("label", JStr(OrNone(text)))
      && UpdatedOnly(sidecar, r.sidecar, safe)
      && NewFields(r.sidecar, safe).Keys == SevenKeys
      && StatOf(NewFields(r.sidecar, safe), dir[safe], fmt)
      && AnnotationOf(Stored(r.sidecar, safe)) == AnnotationOf(Stored(sidecar, safe)).(labelText := text)
  {
    if !IsRegularFile(dir, safe) then Effect(sidecar, NotFound)
    else
      var a := AnnotationOf(Stored(sidecar, safe)).(labelText := text);
      Write7(sidecar, writable, dir, safe, a, fmt, Ok("label", JStr(OrNone(text))))
  }

  // ---------------------------------------------------------------------
  // /speaker

  /** Python truthiness of a document entry. */
  predicate EntryTruthy(e: Option<Entry>) {
    match e
    case None => false
    case Some(Record(f)) => f != map[]
    case Some(Legacy(s)) => s != []
    case Some(Other(t)) => t
  }

  /** `(data.get(safe) or {}).get(...)`: a truthy entry that is not an
      object has no `.get`, and the handler raises before writing. */
  predicate Raises(e: Option<Entry>) {
    EntryTruthy(e) && !e.value.Record?
  }

  function SpeakerEffect(sidecar: Sidecar, writable: bool, dir: Dir, safe: string, speaker: string, fmt: Formats): (r: Effect)
    ensures r.reply.Ok? <==> IsRegularFile(dir, safe) && writable && !Raises(Stored(sidecar, safe))
    ensures r.reply == ServerError <==> IsRegularFile(dir, safe) && Raises(Stored(sidecar, safe))
    ensures !IsRegularFile(dir, safe) ==> r.reply == NotFound
    ensures IsRegularFile(dir, safe) && !writable && !Raises(Stored(sidecar, safe)) ==> r.reply == WriteFailed
    ensures !r.reply.Ok? ==> r.sidecar == sidecar
    ensures r.reply.Ok? ==>
      && r.reply == Ok("speaker", JStr(OrNone(speaker)))
      && UpdatedOnly(sidecar, r.sidecar, safe)
      && NewFields(r.sidecar, safe).Keys == EightKeys
      && NewFields(r.sidecar, safe)["speaker"] == JStr(speaker)
      && StatOf(NewFields(r.sidecar, safe), dir[safe], fmt)
      && AnnotationOf(Stored(r.sidecar, safe)) == AnnotationOf(Stored(sidecar, safe))
  {
    if !IsRegularFile(dir, safe) then Effect(sidecar, NotFound)
    else
      var e := Stored(sidecar, safe);
      if Raises(e) then Effect(sidecar, ServerError)
      else
        var a := AnnotationOf(if EntryTruthy(e) then e else Some(Record(map[])));
        Write8(sidecar, writable, dir, safe, a, speaker, fmt, Ok("speaker", JStr(OrNone(speaker))))
  }

  // ---------------------------------------------------------------------
  // /verify

  function VerifiedEffect(sidecar: Sidecar, writable: bool, dir: Dir, safe: string, verified: bool, fmt: Formats): (r: Effect)
    ensures r.reply.Ok? <==> IsRegularFile(dir, safe) && writable
    ensures !IsRegularFile(dir, safe) ==> r.reply == NotFound
    ensures IsRegularFile(dir, safe) && !writable ==> r.reply == WriteFailed
    ensures !r.reply.Ok? ==> r.sidecar == sidecar
    ensures r.reply.Ok? ==>
      && r.reply == Ok("verified", JBool(verified))
      && UpdatedOnly(sidecar, r.sidecar, safe)
      && NewFields(r.sidecar, safe).Keys == SevenKeys
      && StatOf(NewFields(r.sidecar, safe), dir[safe], fmt)
      && AnnotationOf(Stored(r.sidecar, safe)) == AnnotationOf(Stored(sidecar, safe)).(verified := verified)
  {
    if !IsRegularFile(dir, safe) then Effect(sidecar, NotFound)
    else
      var a := AnnotationOf(Stored(sidecar, safe)).(verified := verified);
      Write7(sidecar, writable, dir, safe, a, fmt, Ok("verified", JBool(verified)))
  }

  // ---------------------------------------------------------------------
  // /lang

  const InvalidLanguage: Reply := Err("Invalid language")

  /** `/lang` as written: it validates, looks the file up and builds the new
      record, then falls off the end of the function. The write and the
      reply that should follow sit, unreachable, after the `return` of
      `/gender`. */
  function LanguageEffect(sidecar: Sidecar, writable: bool, dir: Dir, safe: string, lang: string, fmt: Formats): (r: Effect)
    ensures r.sidecar == sidecar
    ensures r.reply == InvalidLanguage <==> lang !in Languages
    ensures r.reply == NotFound <==> lang in Languages && !IsRegularFile(dir, safe)
    ensures r.reply == NoReply <==> lang in Languages && IsRegularFile(dir, safe)
  {
    if lang !in Languages then Effect(sidecar, InvalidLanguage)
    else if !IsRegularFile(dir, safe) then Effect(sidecar, NotFound)
    else Effect(sidecar, NoReply)
  }

  /** `/lang` with its write and reply in place, as `/gender` does it. */
  function IntendedLanguageEffect(sidecar: Sidecar, writable: bool, dir: Dir, safe: string, lang: string, fmt: Formats): (r: Effect)
    ensures r.reply == InvalidLanguage <==> lang !in Languages
    ensures r.reply.Ok? <==> lang in Languages && IsRegularFile(dir, safe) && writable
    ensures lang in Languages && !IsRegularFile(dir, safe) ==> r.reply == NotFound
    ensures lang in Languages && IsRegularFile(dir, safe) && !writable ==> r.reply == WriteFailed
    ensures !r.reply.Ok? ==> r.sidecar == sidecar
    ensures r.reply.Ok? ==>
      && r.reply == Ok("lang", JStr(lang))
      && UpdatedOnly(sidecar, r.sidecar, safe)
      && NewFields(r.sidecar, safe).Keys == SevenKeys
      && StatOf(NewFields(r.sidecar, safe), dir[safe], fmt)
      && AnnotationOf(Stored(r.sidecar, safe)) == AnnotationOf(Stored(sidecar, safe)).(lang := lang)
  {
    if lang !in Languages then Effect(sidecar, InvalidLanguage)
    else if !IsRegularFile(dir, safe) then Effect(sidecar, NotFound)
    else
      var a := AnnotationOf(Stored(sidecar, safe)).(lang := lang);
      Write7(sidecar, writable, dir, safe, a, fmt, Ok("lang", JStr(lang)))
  }

  // ---------------------------------------------------------------------
  // /gender

  const InvalidGender: Reply := Err("Invalid gender")

  function GenderEffect(sidecar: Sidecar, writable: bool, dir: Dir, safe: string, gender: string, fmt: Formats): (r: Effect)
    ensures r.reply == InvalidGender <==> gender !in Genders
    ensures r.reply.Ok? <==> gender in Genders && IsRegularFile(dir, safe) && writable
    ensures gender in Genders && !IsRegularFile(dir, safe) ==> r.reply == NotFound
    ensures gender in Genders && IsRegularFile(dir, safe) && !writable ==> r.reply == WriteFailed
    ensures !r.reply.Ok? ==> r.sidecar == sidecar
    ensures r.reply.Ok? ==>
      && r.reply == Ok("gender", JStr(gender))
      && UpdatedOnly(sidecar, r.sidecar, safe)
      && NewFields(r.sidecar, safe).Keys == SevenKeys
      && StatOf(NewFields(r.sidecar, safe), dir[safe], fmt)
      && AnnotationOf(Stored(r.sidecar, safe)) == AnnotationOf(Stored(sidecar, safe)).(gender := gender)
  {
    if gender !in Genders then Effect(sidecar, InvalidGender)
    else if !IsRegularFile(dir, safe) then Effect(sidecar, NotFound)
    else
      var a := AnnotationOf(Stored(sidecar, safe)).(gender := gender);
      Write7(sidecar, writable, dir, safe, a, fmt, Ok("gender", JStr(gender)))
  }
}
