/** How the endpoints compose: what a listing shows after each per-field
    update, what a later upload sees of an earlier one, and the `/lang`
    handler against the write it was meant to make. */
module EndpointProps {
  import opened Text
  import opened Paths
  import opened PyJson
  import opened Layout
  import opened Listing
  import opened ListingProps
  import opened Allocator
  import opened Updaters
  import opened App

  // ---------------------------------------------------------------------
  // The seven-key record of /label, /verify, /gender and the batch upload

  /** A seven-key record has no "speaker": the listing counts it as broken,
      fills in an empty speaker and otherwise reads it as the handlers do. */
  lemma SevenKeyRecordListed(f: Fields)
    requires f.Keys == SevenKeys
    ensures LacksAnnotation(f)
    ensures SpeakerField(f) == ""
    ensures Settled(Some(Record(f))) == AnnotationOf(Some(Record(f)))
  {
    assert "speaker" !in f;
    var g := Filled(f);
    assert g == f["speaker" := JStr("")];
    assert g["label"] == f["label"] && g["verified"] == f["verified"];
    assert g["lang"] == f["lang"] && g["gender"] == f["gender"];
  }

  /** The row of a listed file shows how its entry settles and the
      speaker of its record. */
  lemma ListShows(after: Sidecar, dir: Dir, fmt: Formats, safe: string, a: Annotation, speaker: string)
    requires safe in dir && Listed(safe, dir[safe])
    requires Stored(after, safe).Some? && Stored(after, safe).value.Record?
    requires Settled(Stored(after, safe)) == a && SpeakerField(NewFields(after, safe)) == speaker
    ensures var out := Pass(Load(after), dir, fmt);
      && (exists i :: 0 <= i < |out.items| && out.items[i].name == safe)
      && forall i :: 0 <= i < |out.items| && out.items[i].name == safe ==>
           && Annotation(out.items[i].labelText, out.items[i].verified, out.items[i].lang, out.items[i].gender) == a
           && out.items[i].speaker == speaker
  {
    RowOf(Load(after), dir, fmt, safe);
  }

  /** The listing after an update that left a seven-key record for a listed
      file: the pass has to write back, and the file's row shows the record's
      annotations with an empty speaker. */
  lemma ListAfterSevenKeyWrite(after: Sidecar, dir: Dir, safe: string, fmt: Formats)
    requires Stored(after, safe).Some? && Stored(after, safe).value.Record?
    requires NewFields(after, safe).Keys == SevenKeys
    requires safe in dir && Listed(safe, dir[safe])
    ensures var out := Pass(Load(after), dir, fmt);
      && out.dirty
      && (exists i :: 0 <= i < |out.items| && out.items[i].name == safe)
      && forall i :: 0 <= i < |out.items| && out.items[i].name == safe ==>
           && Annotation(out.items[i].labelText, out.items[i].verified, out.items[i].lang, out.items[i].gender)
              == AnnotationOf(Stored(after, safe))
           && out.items[i].speaker == ""
  {
    var doc := Load(after);
    var f := NewFields(after, safe);
    SevenKeyRecordListed(f);
    assert Broken(doc, dir, safe, fmt);
    PassDirty(doc, dir, fmt);
    ListShows(after, dir, fmt, safe, AnnotationOf(Stored(after, safe)), "");
  }

  /** Labelling a listed file and listing again shows the new label with the
      other annotations as they were, but an empty speaker: `/label` rewrites
      the entry without its "speaker" key. */
  lemma LabelThenList(sidecar: Sidecar, dir: Dir, safe: string, text: string, fmt: Formats)
    requires IsRegularFile(dir, safe) && Listed(safe, dir[safe])
    ensures var after := LabelEffect(sidecar, true, dir, safe, text, fmt).sidecar;
      var out := Pass(Load(after), dir, fmt);
      && out.dirty
      && (exists i :: 0 <= i < |out.items| && out.items[i].name == safe)
      && forall i :: 0 <= i < |out.items| && out.items[i].name == safe ==>
           && Annotation(out.items[i].labelText, out.items[i].verified, out.items[i].lang, out.items[i].gender)
              == AnnotationOf(Stored(sidecar, safe)).(labelText := text)
           && out.items[i].speaker == ""
  {
    var after := LabelEffect(sidecar, true, dir, safe, text, fmt).sidecar;
    ListAfterSevenKeyWrite(after, dir, safe, fmt);
  }

  /** The same for `/verify`. */
  lemma VerifiedThenList(sidecar: Sidecar, dir: Dir, safe: string, verified: bool, fmt: Formats)
    requires IsRegularFile(dir, safe) && Listed(safe, dir[safe])
    ensures var after := VerifiedEffect(sidecar, true, dir, safe, verified, fmt).sidecar;
      var out := Pass(Load(after), dir, fmt);
      && out.dirty
      && forall i :: 0 <= i < |out.items| && out.items[i].name == safe ==>
           && Annotation(out.items[i].labelText, out.items[i].verified, out.items[i].lang, out.items[i].gender)
              == AnnotationOf(Stored(sidecar, safe)).(verified := verified)
           && out.items[i].speaker == ""
  {
    var after := VerifiedEffect(sidecar, true, dir, safe, verified, fmt).sidecar;
    ListAfterSevenKeyWrite(after, dir, safe, fmt);
  }

  /** The same for `/gender`. */
  lemma GenderThenList(sidecar: Sidecar, dir: Dir, safe: string, gender: string, fmt: Formats)
    requires gender in Genders && IsRegularFile(dir, safe) && Listed(safe, dir[safe])
    ensures var after := GenderEffect(sidecar, true, dir, safe, gender, fmt).sidecar;
      var out := Pass(Load(after), dir, fmt);
      && out.dirty
      && forall i :: 0 <= i < |out.items| && out.items[i].name == safe ==>
           && Annotation(out.items[i].labelText, out.items[i].verified, out.items[i].lang, out.items[i].gender)
              == AnnotationOf(Stored(sidecar, safe)).(gender := gender)
           && out.items[i].speaker == ""
  {
    var after := GenderEffect(sidecar, true, dir, safe, gender, fmt).sidecar;
    ListAfterSevenKeyWrite(after, dir, safe, fmt);
  }

  /** A speaker set by `/speaker` is gone once `/label` has rewritten the
      same entry. */
  lemma LabelErasesSpeaker(sidecar: Sidecar, dir: Dir, safe: string, speaker: string, text: string, fmt: Formats)
    requires IsRegularFile(dir, safe) && !Raises(Stored(sidecar, safe))
    ensures var s1 := SpeakerEffect(sidecar, true, dir, safe, speaker, fmt).sidecar;
      var s2 := LabelEffect(s1, true, dir, safe, text, fmt).sidecar;
      && SpeakerField(NewFields(s1, safe)) == speaker
      && SpeakerField(NewFields(s2, safe)) == ""
      && AnnotationOf(Stored(s2, safe)) == AnnotationOf(Stored(sidecar, safe)).(labelText := text)
  {
    var s1 := SpeakerEffect(sidecar, true, dir, safe, speaker, fmt).sidecar;
    var s2 := LabelEffect(s1, true, dir, safe, text, fmt).sidecar;
    EightKeyRecordListed(NewFields(s1, safe), speaker);
    SevenKeyRecordListed(NewFields(s2, safe));
  }

  // ---------------------------------------------------------------------
  // /speaker

  /** Setting a speaker and listing again shows that speaker with the
      annotations the entry had before. */
  lemma SpeakerThenList(sidecar: Sidecar, dir: Dir, safe: string, speaker: string, fmt: Formats)
    requires IsRegularFile(dir, safe) && Listed(safe, dir[safe]) && !Raises(Stored(sidecar, safe))
    ensures var after := SpeakerEffect(sidecar, true, dir, safe, speaker, fmt).sidecar;
      var out := Pass(Load(after), dir, fmt);
      && (exists i :: 0 <= i < |out.items| && out.items[i].name == safe)
      && forall i :: 0 <= i < |out.items| && out.items[i].name == safe ==>
           && Annotation(out.items[i].labelText, out.items[i].verified, out.items[i].lang, out.items[i].gender)
              == AnnotationOf(Stored(sidecar, safe))
           && out.items[i].speaker == speaker
  {
    var after := SpeakerEffect(sidecar, true, dir, safe, speaker, fmt).sidecar;
    EightKeyRecordListed(NewFields(after, safe), speaker);
    ListShows(after, dir, fmt, safe, AnnotationOf(Stored(sidecar, safe)), speaker);
  }

  // ---------------------------------------------------------------------
  // /lang: as written and as intended

  /** As written, a valid language for an existing file is acknowledged by
      nothing and stored nowhere: the entry still reads as before. */
  lemma LanguageNeverPersists(sidecar: Sidecar, dir: Dir, safe: string, lang: string, fmt: Formats)
    requires lang in Languages && IsRegularFile(dir, safe)
    requires AnnotationOf(Stored(sidecar, safe)).lang != lang
    ensures var r := LanguageEffect(sidecar, true, dir, safe, lang, fmt);
      && r.reply == NoReply
      && AnnotationOf(Stored(r.sidecar, safe)).lang != lang
  {
  }

  /** With the write in place, the listing that follows shows the new
      language and keeps the label, verified flag and gender. */
  lemma IntendedLanguageThenList(sidecar: Sidecar, dir: Dir, safe: string, lang: string, fmt: Formats)
    requires lang in Languages && IsRegularFile(dir, safe) && Listed(safe, dir[safe])
    ensures var r := IntendedLanguageEffect(sidecar, true, dir, safe, lang, fmt);
      var out := Pass(Load(r.sidecar), dir, fmt);
      && r.reply == Ok("lang", JStr(lang))
      && forall i :: 0 <= i < |out.items| && out.items[i].name == safe ==>
           Annotation(out.items[i].labelText, out.items[i].verified, out.items[i].lang, out.items[i].gender)
           == AnnotationOf(Stored(sidecar, safe)).(lang := lang)
  {
    var after := IntendedLanguageEffect(sidecar, true, dir, safe, lang, fmt).sidecar;
    ListAfterSevenKeyWrite(after, dir, safe, fmt);
  }

  // ---------------------------------------------------------------------
  // The sidecar when it was missing or corrupt

  /** An update against a missing or unparseable sidecar writes a document
      that holds only the updated file: earlier content is not recovered. */
  lemma UnreadableSidecarIsReplaced(sidecar: Sidecar, dir: Dir, safe: string, text: string, fmt: Formats)
    requires !sidecar.Parsed? && IsRegularFile(dir, safe)
    ensures Load(LabelEffect(sidecar, true, dir, safe, text, fmt).sidecar).Keys == {safe}
  {
    var after := LabelEffect(sidecar, true, dir, safe, text, fmt).sidecar;
    forall k | k in Load(after) ensures k == safe {
      assert Stored(after, k).Some?;
    }
  }

  // ---------------------------------------------------------------------
  // Uploads

  /** A stored upload is an audio file the listing reports. */
  lemma UploadIsListed(n: nat, ext: string, node: Node)
    requires ext in AllowedExtensions && node.File?
    ensures Listed(Candidate(n, ext), node)
  {
    CandidateRoundTrip(n, ext);
    var c := Candidate(n, ext);
    ZeroPadDigits(n);
    assert c[0] == ZeroPad(n)[0] && IsDigit(c[0]);
    assert MetadataName[0] == 'm';
    AllowedAreLower(ext);
  }

  /** An upload numbered below a million is counted by the next upload's
      scan, which therefore starts above it: ids are not reused. */
  lemma UploadIsCounted(files: Dir, n: nat, ext: string, node: Node, next: nat)
    requires ext in AllowedExtensions && node.File? && n < 1000000
    requires IsStart(files[Candidate(n, ext) := node], next)
    ensures n in ExistingIds(files[Candidate(n, ext) := node])
    ensures n < next
  {
    var files' := files[Candidate(n, ext) := node];
    CandidateRoundTrip(n, ext);
    assert HoldsId(Candidate(n, ext), files'[Candidate(n, ext)]);
  }

  /** A fresh batch upload shows up in the next listing with the default
      annotations and an empty speaker, and that listing writes back the
      "speaker" key the upload's record lacks. */
  lemma UploadThenList(sidecar: Sidecar, files: Dir, n: nat, ext: string, node: Node, fmt: Formats)
    requires ext in AllowedExtensions && node.File?
    ensures var name := Candidate(n, ext);
      var dir := files[name := node];
      var out := Pass(Load(sidecar)[name := Record(StatFields(Defaults, node, fmt))], dir, fmt);
      && out.dirty
      && (exists i :: 0 <= i < |out.items| && out.items[i].name == name)
      && forall i :: 0 <= i < |out.items| && out.items[i].name == name ==>
           && Annotation(out.items[i].labelText, out.items[i].verified, out.items[i].lang, out.items[i].gender)
              == Defaults
           && out.items[i].speaker == ""
  {
    var name := Candidate(n, ext);
    var dir := files[name := node];
    var after := Parsed(Load(sidecar)[name := Record(StatFields(Defaults, node, fmt))]);
    UploadIsListed(n, ext, node);
    RecordReadBack(Defaults, "", JStr(fmt.sizeText(node.size)), JInt(node.size), JStr(fmt.timeText(node.mtime)));
    ListAfterSevenKeyWrite(after, dir, name, fmt);
  }
}
