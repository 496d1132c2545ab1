/** The application state and its endpoints: the upload directory and the
    metadata sidecar held by a store whose methods follow the handlers step
    by step. */
module App {
  import opened Text
  import opened Paths
  import opened Sanitizer
  import opened PyJson
  import opened Layout
  import opened Listing
  import opened Allocator
  import opened Updaters

  /** One uploaded file: the client's filename ("" when it sent none), the
      number of bytes it carries and the modification time the file gets
      when written. */
  datatype Incoming = Incoming(filename: string, size: nat, mtime: real)

  /** `uf.filename or "file"`. */
  function ClientName(filename: string): string {
    if filename == [] then "file" else filename
  }

  /** The extension a stored upload gets: os.path.splitext of the sanitised
      client name, lower-cased. */
  function UploadExt(filename: string): string {
    AsciiLower(SplitExt(SafeFilename(ClientName(filename))).1)
  }

  /** exts holds the extension of every upload of a batch. */
  ghost predicate ExtensionsOf(batch: seq<Incoming>, exts: seq<string>) {
    && |exts| == |batch|
    && forall i {:trigger UploadExt(batch[i].filename)} :: 0 <= i < |batch| ==> exts[i] == UploadExt(batch[i].filename)
  }

  lemma Extensions(batch: seq<Incoming>) returns (exts: seq<string>)
    ensures ExtensionsOf(batch, exts)
  {
    exts := seq(|batch|, i requires 0 <= i < |batch| => UploadExt(batch[i].filename));
  }

  /** The names given to the accepted uploads of a batch. */
  function PlacedNames(placed: seq<Option<string>>): set<string> {
    set k | 0 <= k < |placed| && placed[k].Some? :: placed[k].value
  }

  /** The reply of `/upload_outside`. */
  datatype OutsideReply =
    | Accepted(file: string, labelText: string, lang: string, gender: string, verified: bool,
               speaker: string, sizeBytes: nat, mtimeIso: string)
    | Rejected(error: string)

  /** The form fields of `/upload_outside`; an absent field is "". */
  datatype OutsideForm = OutsideForm(labelText: string, language: string, gender: string,
                                     verified: bool, speaker: string)

  /** The annotations `/upload_outside` stores: the label or "", the
      language if it is one of the three and "Khmer" otherwise, the gender if
      it is one of the two and "None" otherwise. */
  function OutsideAnnotation(form: OutsideForm): (a: Annotation)
    ensures a.labelText == form.labelText && a.verified == form.verified
    ensures a.lang in Languages && (form.language in Languages ==> a.lang == form.language)
    ensures a.gender in Genders + {"None"} && (form.gender in Genders ==> a.gender == form.gender)
    ensures form.language !in Languages ==> a.lang == DefaultLang
    ensures form.gender !in Genders ==> a.gender == "None"
  {
    Annotation(form.labelText, form.verified,
               if form.language in Languages then form.language else DefaultLang,
               if form.gender in Genders then form.gender else "None")
  }

  /** The nine-key record `/upload_outside` writes: the eight keys of the
      listing's record and the client's own name. */
  function OutsideRecord(form: OutsideForm, original: string, node: Node, fmt: Formats): Fields
    requires node.File?
  {
    Entry8(OutsideAnnotation(form), form.speaker, JStr(fmt.sizeText(node.size)), JInt(node.size),
           JStr(fmt.timeText(node.mtime)))["original_name" := JStr(original)]
  }

  /** The nine keys, the client's name and the speaker of that record, and
      it reads back as the validated annotations. */
  lemma OutsideRecordShape(form: OutsideForm, original: string, node: Node, fmt: Formats)
    requires node.File?
    ensures var f := OutsideRecord(form, original, node, fmt);
      && f.Keys == EightKeys + {"original_name"}
      && f["original_name"] == JStr(original) && f["speaker"] == JStr(form.speaker)
      && AnnotationOf(Some(Record(f))) == OutsideAnnotation(form)
  {
    var a := OutsideAnnotation(form);
    var f := OutsideRecord(form, original, node, fmt);
    var e := Entry8(a, form.speaker, JStr(fmt.sizeText(node.size)), JInt(node.size), JStr(fmt.timeText(node.mtime)));
    Entry8Values(a, form.speaker, JStr(fmt.sizeText(node.size)), JInt(node.size), JStr(fmt.timeText(node.mtime)));
    RecordReadBack(a, form.speaker, JStr(fmt.sizeText(node.size)), JInt(node.size), JStr(fmt.timeText(node.mtime)));
    assert Get(f, "label") == Get(e, "label") && Get(f, "verified") == Get(e, "verified");
    assert Get(f, "lang") == Get(e, "lang") && Get(f, "gender") == Get(e, "gender");
  }

  /** A download or stream request resolves to the stored file it names, if
      that is a regular file. */
  function Resolve(dir: Dir, filename: string): (r: Option<string>)
    ensures r.Some? <==> IsRegularFile(dir, SafeFilename(filename))
    ensures r.Some? ==> r.value == SafeFilename(filename) && IsSafeName(r.value)
  {
    var safe := SafeFilename(filename);
    if IsRegularFile(dir, safe) then Some(safe) else None
  }

  /** Every stored file is reachable by its own name: a safe name resolves
      to itself exactly when it is a regular file. */
  lemma StoredNamesResolve(dir: Dir, name: string)
    requires IsSafeName(name)
    ensures Resolve(dir, name) == if IsRegularFile(dir, name) then Some(name) else None
  {
    SafeNamesAreFixed(name);
  }

  /** What became of one upload: skipped exactly when its extension is not
      allowed, otherwise stored under the candidate name for its id, a name
      that was free before the batch, holding the uploaded bytes. */
  ghost predicate Placement(uf: Incoming, ext: string, placed: Option<string>, id: nat, before: Dir, after: Dir) {
    && (placed.None? <==> ext !in AllowedExtensions)
    && (placed.Some? ==>
          && placed.value == Candidate(id, ext)
          && placed.value !in before
          && placed.value in after && after[placed.value] == File(uf.size, uf.mtime))
  }

  /** The uploads handled so far (the first |placed| of the batch): each
      placed as Placement says, above every id present before the batch,
      below the counter, and in increasing order. */
  ghost predicate Admitted(batch: seq<Incoming>, exts: seq<string>, placed: seq<Option<string>>, ids: seq<nat>,
                           before: Dir, existing: set<nat>, files: Dir, next: nat) {
    && |placed| == |ids| <= |batch| == |exts|
    && (forall k :: 0 <= k < |placed| ==> Placement(batch[k], exts[k], placed[k], ids[k], before, files))
    && Increasing(placed, ids, existing, next)
  }

  /** The ids of the stored uploads: above every id present before the
      batch, below the counter, and in increasing order. */
  ghost predicate Increasing(placed: seq<Option<string>>, ids: seq<nat>, existing: set<nat>, next: nat) {
    && |placed| == |ids|
    && (forall k :: 0 <= k < |placed| && placed[k].Some? ==>
          (forall id :: id in existing ==> id < ids[k]) && ids[k] < next)
    && (forall k, j :: 0 <= k < j < |placed| && placed[k].Some? && placed[j].Some? ==> ids[k] < ids[j])
  }

  lemma IncreasingStored(placed: seq<Option<string>>, ids: seq<nat>, existing: set<nat>, next: nat, target: string, after: nat)
    requires Increasing(placed, ids, existing, next)
    requires forall id :: id in existing ==> id < next
    requires next < after
    ensures Increasing(placed + [Some(target)], ids + [after - 1], existing, after)
  {
    var placed', ids' := placed + [Some(target)], ids + [after - 1];
    assert forall k :: 0 <= k < |placed| ==> placed'[k] == placed[k] && ids'[k] == ids[k];
  }

  lemma IncreasingSkipped(placed: seq<Option<string>>, ids: seq<nat>, existing: set<nat>, next: nat)
    requires Increasing(placed, ids, existing, next)
    ensures Increasing(placed + [None], ids + [0], existing, next)
  {
    var placed', ids' := placed + [None], ids + [0];
    assert forall k :: 0 <= k < |placed| ==> placed'[k] == placed[k] && ids'[k] == ids[k];
  }

  lemma AdmitStored(batch: seq<Incoming>, exts: seq<string>, placed: seq<Option<string>>, ids: seq<nat>,
                    before: Dir, existing: set<nat>, files: Dir, files': Dir, next: nat, target: string, after: nat)
    requires Admitted(batch, exts, placed, ids, before, existing, files, next) && |placed| < |batch|
    requires forall id :: id in existing ==> id < next
    requires forall n :: n in before ==> n in files
    requires exts[|placed|] in AllowedExtensions
    requires next < after && target == Candidate(after - 1, exts[|placed|]) && target !in files
    requires files' == files[target := File(batch[|placed|].size, batch[|placed|].mtime)]
    ensures Admitted(batch, exts, placed + [Some(target)], ids + [after - 1], before, existing, files', after)
  {
    var placed', ids' := placed + [Some(target)], ids + [after - 1];
    forall k | 0 <= k < |placed'|
      ensures Placement(batch[k], exts[k], placed'[k], ids'[k], before, files')
    {
      if k < |placed| {
        PlacementKept(batch[k], exts[k], placed[k], ids[k], before, files, files');
      }
    }
    IncreasingStored(placed, ids, existing, next, target, after);
  }

  /** A placement stays true while the directory only grows. */
  lemma PlacementKept(uf: Incoming, ext: string, placed: Option<string>, id: nat, before: Dir, files: Dir, files': Dir)
    requires Placement(uf, ext, placed, id, before, files)
    requires forall n :: n in files ==> n in files' && files'[n] == files[n]
    ensures Placement(uf, ext, placed, id, before, files')
  {
  }

  lemma AdmitSkipped(batch: seq<Incoming>, exts: seq<string>, placed: seq<Option<string>>, ids: seq<nat>,
                     before: Dir, existing: set<nat>, files: Dir, next: nat)
    requires Admitted(batch, exts, placed, ids, before, existing, files, next) && |placed| < |batch|
    requires exts[|placed|] !in AllowedExtensions
    ensures Admitted(batch, exts, placed + [None], ids + [0], before, existing, files, next)
  {
    var placed', ids' := placed + [None], ids + [0];
    assert forall k :: 0 <= k < |placed| ==> placed'[k] == placed[k] && ids'[k] == ids[k];
    IncreasingSkipped(placed, ids, existing, next);
  }

  lemma PlacedNamesSnoc(placed: seq<Option<string>>, p: Option<string>)
    ensures PlacedNames(placed + [p]) == PlacedNames(placed) + (if p.Some? then {p.value} else {})
  {
    var q := placed + [p];
    assert forall k :: 0 <= k < |placed| ==> q[k] == placed[k];
    if p.Some? {
      assert q[|placed|] == p;
    }
  }

  /** The sidecar after a batch: untouched when it cannot be written or
      nothing was stored; otherwise a document holding a fresh default record
      for every stored name and what the old document held for the rest. */
  ghost predicate Recorded(before: Sidecar, after: Sidecar, writable: bool, names: set<string>, files: Dir, fmt: Formats) {
    && (forall n :: n in names ==> n in files && files[n].File?)
    && (!writable || names == {} ==> after == before)
    && (writable && names != {} ==>
          && after.Parsed?
          && forall n :: Stored(after, n) == if n in names
                                             then Some(Record(StatFields(Defaults, files[n], fmt)))
                                             else Stored(before, n))
  }

  lemma RecordedStep(before: Sidecar, mid: Sidecar, after: Sidecar, writable: bool, names: set<string>,
                     files: Dir, files': Dir, t: string, fmt: Formats)
    requires Recorded(before, mid, writable, names, files, fmt)
    requires t !in files && files'.Keys == files.Keys + {t} && files'[t].File?
    requires forall n :: n in files ==> files'[n] == files[n]
    requires after == if writable then Parsed(Load(mid)[t := Record(StatFields(Defaults, files'[t], fmt))]) else mid
    ensures Recorded(before, after, writable, names + {t}, files', fmt)
  {
    if writable {
      forall n ensures Stored(after, n) == if n in names + {t}
                                           then Some(Record(StatFields(Defaults, files'[n], fmt)))
                                           else Stored(before, n)
      {
        if n == t {
        } else if n in names {
          assert files'[n] == files[n];
        } else if names == {} {
          assert mid == before;
        }
      }
    }
  }

  /** The upload loop's account of the first |placed| uploads of a batch:
      the counter is above every id present before the batch, the uploads
      are admitted as Admitted says, the directory gained exactly the placed
      names and the sidecar is Recorded for them. */
  ghost predicate Account(batch: seq<Incoming>, exts: seq<string>, placed: seq<Option<string>>, ids: seq<nat>,
                          before: Dir, existing: set<nat>, sidecar0: Sidecar, writable: bool, fmt: Formats,
                          files: Dir, sidecar: Sidecar, next: nat) {
    && (forall id :: id in existing ==> id < next)
    && Admitted(batch, exts, placed, ids, before, existing, files, next)
    && files.Keys == before.Keys + PlacedNames(placed)
    && (forall n :: n in before ==> files[n] == before[n])
    && Recorded(sidecar0, sidecar, writable, PlacedNames(placed), files, fmt)
  }

  lemma AccountStored(batch: seq<Incoming>, exts: seq<string>, placed: seq<Option<string>>, ids: seq<nat>,
                      before: Dir, existing: set<nat>, sidecar0: Sidecar, writable: bool, fmt: Formats,
                      files: Dir, sidecar: Sidecar, next: nat,
                      files': Dir, sidecar': Sidecar, target: string, after: nat, p: Option<string>, id: nat)
    requires Account(batch, exts, placed, ids, before, existing, sidecar0, writable, fmt, files, sidecar, next)
    requires |placed| < |batch| && exts[|placed|] in AllowedExtensions
    requires next < after && target == Candidate(after - 1, exts[|placed|]) && target !in files
    requires files' == files[target := File(batch[|placed|].size, batch[|placed|].mtime)]
    requires sidecar' == if writable
                         then Parsed(Load(sidecar)[target := Record(StatFields(Defaults, files'[target], fmt))])
                         else sidecar
    requires p == Some(target) && id == after - 1
    ensures Account(batch, exts, placed + [p], ids + [id], before, existing, sidecar0, writable, fmt, files', sidecar', after)
  {
    FilesStep(before, files, files', placed, target, files'[target]);
    RecordedStep(sidecar0, sidecar, sidecar', writable, PlacedNames(placed), files, files', target, fmt);
    AdmitStored(batch, exts, placed, ids, before, existing, files, files', next, target, after);
  }

  /** Placing one more file keeps the directory's account: the old entries
      as they were and the placed names added. */
  lemma FilesStep(before: Dir, files: Dir, files': Dir, placed: seq<Option<string>>, target: string, node: Node)
    requires files.Keys == before.Keys + PlacedNames(placed)
    requires forall n :: n in before ==> files[n] == before[n]
    requires target !in files && files' == files[target := node]
    ensures PlacedNames(placed + [Some(target)]) == PlacedNames(placed) + {target}
    ensures files'.Keys == before.Keys + PlacedNames(placed + [Some(target)])
    ensures files'.Keys == files.Keys + {target}
    ensures forall n :: n in before ==> files'[n] == before[n]
  {
    PlacedNamesSnoc(placed, Some(target));
  }

  lemma AccountSkipped(batch: seq<Incoming>, exts: seq<string>, placed: seq<Option<string>>, ids: seq<nat>,
                       before: Dir, existing: set<nat>, sidecar0: Sidecar, writable: bool, fmt: Formats,
                       files: Dir, sidecar: Sidecar, next: nat)
    requires Account(batch, exts, placed, ids, before, existing, sidecar0, writable, fmt, files, sidecar, next)
    requires |placed| < |batch| && exts[|placed|] !in AllowedExtensions
    ensures Account(batch, exts, placed + [None], ids + [0], before, existing, sidecar0, writable, fmt, files, sidecar, next)
  {
    PlacedNamesSnoc(placed, None);
    AdmitSkipped(batch, exts, placed, ids, before, existing, files, next);
  }

  /** How one turn of the upload loop moves the counter: a skipped upload
      leaves the counter and the directory's names as they were; a stored
      one gets the first free id from the counter on, the counter moves one
      past it and its name joins the directory. */
  ghost predicate CountStep(p: Option<string>, id: nat, ext: string, c: nat, names: set<string>, c': nat, names': set<string>) {
    if p.None? then c' == c && names' == names
    else FirstFree(names, c, id, ext) && c' == id + 1 && names' == names + {p.value}
  }

  /** counters[k] and seen[k] are the counter and the directory's names
      before upload k of the batch; every turn moves them as CountStep says. */
  ghost predicate Counted(placed: seq<Option<string>>, ids: seq<nat>, exts: seq<string>,
                          counters: seq<nat>, seen: seq<set<string>>) {
    && |counters| == |seen| == |placed| + 1
    && |ids| == |placed| <= |exts|
    && forall k :: 0 <= k < |placed| ==>
         CountStep(placed[k], ids[k], exts[k], counters[k], seen[k], counters[k + 1], seen[k + 1])
  }

  lemma CountedSnoc(placed: seq<Option<string>>, ids: seq<nat>, exts: seq<string>,
                    counters: seq<nat>, seen: seq<set<string>>,
                    p: Option<string>, id: nat, c': nat, names': set<string>)
    requires Counted(placed, ids, exts, counters, seen) && |placed| < |exts|
    requires CountStep(p, id, exts[|placed|], counters[|placed|], seen[|placed|], c', names')
    ensures Counted(placed + [p], ids + [id], exts, counters + [c'], seen + [names'])
  {
    var placed', ids', counters', seen' := placed + [p], ids + [id], counters + [c'], seen + [names'];
    forall k | 0 <= k < |placed'|
      ensures CountStep(placed'[k], ids'[k], exts[k], counters'[k], seen'[k], counters'[k + 1], seen'[k + 1])
    {
      assert counters'[k] == counters[k] && seen'[k] == seen[k];
      if k < |placed| {
        assert placed'[k] == placed[k] && ids'[k] == ids[k];
        assert counters'[k + 1] == counters[k + 1] && seen'[k + 1] == seen[k + 1];
      }
    }
  }

  /** The upload loop's count after |placed| turns: Counted from the start
      the counter scan found and the names the directory had before the
      batch, up to the current counter and names. */
  ghost predicate Tally(placed: seq<Option<string>>, ids: seq<nat>, exts: seq<string>,
                        counters: seq<nat>, seen: seq<set<string>>, start: nat, before: set<string>,
                        next: nat, names: set<string>) {
    && Counted(placed, ids, exts, counters, seen)
    && counters[0] == start && seen[0] == before
    && counters[|placed|] == next && seen[|placed|] == names
  }

  lemma TallySnoc(placed: seq<Option<string>>, ids: seq<nat>, exts: seq<string>,
                  counters: seq<nat>, seen: seq<set<string>>, start: nat, before: set<string>,
                  next: nat, names: set<string>, p: Option<string>, id: nat, next': nat, names': set<string>)
    requires Tally(placed, ids, exts, counters, seen, start, before, next, names) && |placed| < |exts|
    requires CountStep(p, id, exts[|placed|], next, names, next', names')
    ensures Tally(placed + [p], ids + [id], exts, counters + [next'], seen + [names'], start, before, next', names')
  {
    CountedSnoc(placed, ids, exts, counters, seen, p, id, next', names');
  }

  /** Skipped uploads use no id: across a run of them the counter and the
      directory's names stay where they were. */
  lemma {:induction false} SkippedKeepCounter(placed: seq<Option<string>>, ids: seq<nat>, exts: seq<string>,
                                              counters: seq<nat>, seen: seq<set<string>>, i: nat)
    requires Counted(placed, ids, exts, counters, seen) && i <= |placed|
    requires forall k :: 0 <= k < i ==> placed[k].None?
    ensures counters[i] == counters[0] && seen[i] == seen[0]
  {
    if i > 0 {
      SkippedKeepCounter(placed, ids, exts, counters, seen, i - 1);
      assert CountStep(placed[i - 1], ids[i - 1], exts[i - 1], counters[i - 1], seen[i - 1], counters[i], seen[i]);
    }
  }

  /** A batch uploaded into an empty directory: its first stored file gets
      id 1, however many uploads before it were skipped. */
  lemma FirstUploadIntoEmpty(placed: seq<Option<string>>, ids: seq<nat>, exts: seq<string>,
                             counters: seq<nat>, seen: seq<set<string>>, i: nat)
    requires Counted(placed, ids, exts, counters, seen)
    requires IsStart(map[], counters[0]) && seen[0] == {}
    requires i < |placed| && placed[i].Some? && forall k :: 0 <= k < i ==> placed[k].None?
    ensures ids[i] == 1
  {
    SkippedKeepCounter(placed, ids, exts, counters, seen, i);
    assert CountStep(placed[i], ids[i], exts[i], counters[i], seen[i], counters[i + 1], seen[i + 1]);
    EmptyDirectoryFirstId(counters[0], ids[i], exts[i]);
  }

  class Store {
    /** The upload directory. */
    var files: Dir
    /** The content of metadata.json. The directory entry of that name in
        files is a separate value: the listing and the allocator skip it by
        name, and nothing here keeps its node in step with this field. */
    var sidecar: Sidecar
    /** Whether writing metadata.json succeeds. */
    var sidecarWritable: bool
    /** The size and time renderings. */
    const fmt: Formats

    constructor(files: Dir, sidecar: Sidecar, sidecarWritable: bool, fmt: Formats)
      ensures this.files == files && this.sidecar == sidecar
      ensures this.sidecarWritable == sidecarWritable && this.fmt == fmt
    {
      this.files := files;
      this.sidecar := sidecar;
      this.sidecarWritable := sidecarWritable;
      this.fmt := fmt;
    }

    /** `list_files`: one listing pass, and the write-back when it found
        something to repair (a failed write is swallowed). */
    method ListFiles() returns (items: seq<Item>)
      modifies this`sidecar
      ensures items == Pass(Load(old(sidecar)), files, fmt).items
      ensures sidecar == if Pass(Load(old(sidecar)), files, fmt).dirty && sidecarWritable
                         then Parsed(Pass(Load(old(sidecar)), files, fmt).doc) else old(sidecar)
    {
      var doc := Load(sidecar);
      var metadata, rows, dirty := ScanUploads(doc, files, fmt);
      ghost var out := Pass(doc, files, fmt);
      assert metadata == out.doc && rows == out.items && dirty == out.dirty;
      if dirty && sidecarWritable {
        sidecar := Parsed(metadata);
      }
      items := rows;
    }

    /** `/download` and `/stream` without the response plumbing: the file
        served, or None for a 404. */
    method Download(filename: string) returns (served: Option<string>)
      ensures served == Resolve(files, filename)
    {
      var safe := SafeFilename(filename);
      if safe in files && files[safe].File? {
        served := Some(safe);
      } else {
        served := None;
      }
    }

    /** Store one accepted upload under a fresh numbered name and record it
        with default annotations. */
    method Place(uf: Incoming, next: nat, ext: string)
      returns (target: string, after: nat)
      modifies this`files, this`sidecar
      ensures next < after && target == Candidate(after - 1, ext) && target !in old(files)
      ensures forall k :: next <= k < after - 1 ==> Candidate(k, ext) in old(files)
      ensures files == old(files)[target := File(uf.size, uf.mtime)]
      ensures sidecar == if sidecarWritable
                         then Parsed(Load(old(sidecar))[target := Record(StatFields(Defaults, files[target], fmt))])
                         else old(sidecar)
    {
      target, after := Probe(files, next, ext);
      files := files[target := File(uf.size, uf.mtime)];
      var data := Load(sidecar);
      data := data[target := Record(StatFields(Defaults, files[target], fmt))];
      if sidecarWritable {
        sidecar := Parsed(data);
      }
    }

    /** Place the upload the loop is at, whose extension is allowed. */
    method StoreOne(batch: seq<Incoming>, ghost exts: seq<string>, i: nat, ext: string, next: nat,
                    ghost placed: seq<Option<string>>, ghost ids: seq<nat>, ghost before: Dir, ghost existing: set<nat>, ghost sidecar0: Sidecar)
      returns (p: Option<string>, ghost id: nat, next': nat)
      modifies this`files, this`sidecar
      requires i == |placed| < |batch| == |exts| && exts[i] == ext && ext in AllowedExtensions
      requires Account(batch, exts, placed, ids, before, existing, sidecar0, sidecarWritable, fmt, files, sidecar, next)
      ensures p.Some?
      ensures Account(batch, exts, placed + [p], ids + [id], before, existing, sidecar0, sidecarWritable, fmt, files, sidecar, next')
      ensures CountStep(p, id, ext, next, old(files).Keys, next', files.Keys)
    {
      ghost var (files0, mid) := (files, sidecar);
      var target, after := Place(batch[i], next, ext);
      p, id, next' := Some(target), after - 1, after;
      AccountStored(batch, exts, placed, ids, before, existing, sidecar0, sidecarWritable, fmt, files0, mid, next,
                    files, sidecar, target, next', p, id);
    }

    /** The extension of an upload, computed as the handlers do. */
    method ExtensionOf(filename: string) returns (ext: string)
      ensures ext == UploadExt(filename)
    {
      var name := filename;
      if name == [] {
        name := "file";
      }
      ext := AsciiLower(SplitExt(SafeFilename(name)).1);
    }

    /** The extension of batch[i]. */
    method ExtensionAt(batch: seq<Incoming>, ghost exts: seq<string>, i: nat) returns (ext: string)
      requires i < |batch| && ExtensionsOf(batch, exts)
      ensures ext == exts[i]
    {
      ext := ExtensionOf(batch[i].filename);
    }

    /** One turn of the upload loop: batch[i] is placed when its extension
        is allowed and skipped otherwise. */
    method Admit(batch: seq<Incoming>, ghost exts: seq<string>, i: nat, ext: string, next: nat,
                 ghost placed: seq<Option<string>>, ghost ids: seq<nat>, ghost before: Dir, ghost existing: set<nat>, ghost sidecar0: Sidecar)
      returns (p: Option<string>, ghost id: nat, next': nat)
      modifies this`files, this`sidecar
      requires i == |placed| < |batch| == |exts| && exts[i] == ext
      requires Account(batch, exts, placed, ids, before, existing, sidecar0, sidecarWritable, fmt, files, sidecar, next)
      ensures Account(batch, exts, placed + [p], ids + [id], before, existing, sidecar0, sidecarWritable, fmt, files, sidecar, next')
      ensures CountStep(p, id, ext, next, old(files).Keys, next', files.Keys)
    {
      if ext in AllowedExtensions {
        p, id, next' := StoreOne(batch, exts, i, ext, next, placed, ids, before, existing, sidecar0);
      } else {
        AccountSkipped(batch, exts, placed, ids, before, existing, sidecar0, sidecarWritable, fmt, files, sidecar, next);
        p, id, next' := None, 0, next;
      }
    }

    /** `/upload`: every file of the batch whose extension is allowed is
        stored under the next free six-digit name and recorded with default
        annotations; the others are drained and skipped. placed[i] is the
        name given to batch[i], exts[i] the extension taken from its client
        name and ids[i] the number in it. */
    method Upload(batch: seq<Incoming>)
      returns (placed: seq<Option<string>>, ghost exts: seq<string>, ghost ids: seq<nat>,
               ghost counters: seq<nat>, ghost seen: seq<set<string>>)
      modifies this`files, this`sidecar
      ensures |placed| == |batch| == |ids| && ExtensionsOf(batch, exts)
      ensures Counted(placed, ids, exts, counters, seen) && seen[|batch|] == files.Keys
      ensures IsStart(old(files), counters[0]) && seen[0] == old(files).Keys
      ensures forall i :: 0 <= i < |batch| ==> Placement(batch[i], exts[i], placed[i], ids[i], old(files), files)
      ensures forall i :: 0 <= i < |batch| && placed[i].Some? ==>
        forall id :: id in ExistingIds(old(files)) ==> id < ids[i]
      ensures forall i, j :: 0 <= i < j < |batch| && placed[i].Some? && placed[j].Some? ==> ids[i] < ids[j]
      ensures files.Keys == old(files).Keys + PlacedNames(placed)
      ensures forall n :: n in old(files) ==> files[n] == old(files)[n]
      ensures Recorded(old(sidecar), sidecar, sidecarWritable, PlacedNames(placed), files, fmt)
    {
      var next := StartNumber(files);
      ghost var existing := ExistingIds(files);
      placed, ids := [], [];
      exts := Extensions(batch);
      ghost var start := next;
      counters, seen := [next], [files.Keys];
      for i := 0 to |batch|
        invariant |placed| == i
        invariant Account(batch, exts, placed, ids, old(files), existing, old(sidecar), sidecarWritable, fmt, files, sidecar, next)
        invariant Tally(placed, ids, exts, counters, seen, start, old(files).Keys, next, files.Keys)
      {
        var p;
        ghost var id;
        var ext := ExtensionAt(batch, exts, i);
        ghost var (next0, names0) := (next, files.Keys);
        p, id, next := Admit(batch, exts, i, ext, next, placed, ids, old(files), existing, old(sidecar));
        TallySnoc(placed, ids, exts, counters, seen, start, old(files).Keys, next0, names0, p, id, next, files.Keys);
        placed, ids := placed + [p], ids + [id];
        counters, seen := counters + [next], seen + [files.Keys];
      }
    }
    /** `/upload_outside`: a single file with its annotations. A file whose
        extension is not allowed is rejected and nothing changes; otherwise it
        is stored under the next free six-digit name (id is the number in it)
        with the nine-key record. */
    method UploadOutside(uf: Incoming, form: OutsideForm) returns (reply: OutsideReply, ghost start: nat, ghost id: nat)
      modifies this`files, this`sidecar
      ensures reply.Rejected? <==> UploadExt(uf.filename) !in AllowedExtensions
      ensures reply.Rejected? ==>
        reply.error == "Unsupported file type" && files == old(files) && sidecar == old(sidecar)
      ensures reply.Accepted? ==>
        && reply.file == Candidate(id, UploadExt(uf.filename)) && reply.file !in old(files)
        && IsStart(old(files), start) && FirstFree(old(files).Keys, start, id, UploadExt(uf.filename))
        && (forall e :: e in ExistingIds(old(files)) ==> e < id)
        && files == old(files)[reply.file := File(uf.size, uf.mtime)]
        && sidecar == (if sidecarWritable
                       then Parsed(Load(old(sidecar))[reply.file :=
                              Record(OutsideRecord(form, ClientName(uf.filename), File(uf.size, uf.mtime), fmt))])
                       else old(sidecar))
        && var a := OutsideAnnotation(form);
           reply == Accepted(reply.file, a.labelText, a.lang, a.gender, a.verified, form.speaker,
                             uf.size, fmt.timeText(uf.mtime))
    {
      var ext := ExtensionOf(uf.filename);
      if ext !in AllowedExtensions {
        return Rejected("Unsupported file type"), 0, 0;
      }
      reply, start, id := StoreOutside(uf, form, ext);
    }

    /** The rest of `/upload_outside` once the extension is known to be
        allowed. */
    method StoreOutside(uf: Incoming, form: OutsideForm, ext: string) returns (reply: OutsideReply, ghost start: nat, ghost id: nat)
      modifies this`files, this`sidecar
      ensures reply.Accepted?
      ensures reply.file == Candidate(id, ext) && reply.file !in old(files)
      ensures IsStart(old(files), start) && FirstFree(old(files).Keys, start, id, ext)
      ensures forall e :: e in ExistingIds(old(files)) ==> e < id
      ensures files == old(files)[reply.file := File(uf.size, uf.mtime)]
      ensures sidecar == if sidecarWritable
                         then Parsed(Load(old(sidecar))[reply.file :=
                                Record(OutsideRecord(form, ClientName(uf.filename), File(uf.size, uf.mtime), fmt))])
                         else old(sidecar)
      ensures var a := OutsideAnnotation(form);
              reply == Accepted(reply.file, a.labelText, a.lang, a.gender, a.verified, form.speaker,
                                uf.size, fmt.timeText(uf.mtime))
    {
      var lang := if form.language in Languages then form.language else DefaultLang;
      var gender := if form.gender in Genders then form.gender else "None";
      var target;
      target, start, id := Allocate(ext);
      var original := if uf.filename == [] then "file" else uf.filename;
      var node := File(uf.size, uf.mtime);
      files := files[target := node];
      var data := Load(sidecar);
      data := data[target := Record(OutsideRecord(form, original, node, fmt))];
      if sidecarWritable {
        sidecar := Parsed(data);
      }
      reply := Accepted(target, form.labelText, lang, gender, form.verified, form.speaker,
                        uf.size, fmt.timeText(uf.mtime));
    }

    /** The two loops of the allocator: start one above the largest id
        present and probe for the first free name. */
    method Allocate(ext: string) returns (target: string, ghost start: nat, ghost id: nat)
      ensures target == Candidate(id, ext) && target !in files
      ensures IsStart(files, start) && FirstFree(files.Keys, start, id, ext)
      ensures forall e :: e in ExistingIds(files) ==> e < id
    {
      var next := StartNumber(files);
      var after;
      target, after := Probe(files, next, ext);
      start, id := next, after - 1;
    }

    /** The stored name a request body addresses. */
    method Address(payload: Payload) returns (safe: string)
      ensures safe == Target(payload)
    {
      var filename := Field(payload, "filename", "");
      safe := SafeFilename(filename);
    }

    /** `/label`. */
    method SetLabel(payload: Payload) returns (reply: Reply)
      modifies this`sidecar
      ensures Effect(sidecar, reply) ==
              LabelEffect(old(sidecar), sidecarWritable, files, Target(payload), RequestedLabel(payload), fmt)
    {
      var safe := Address(payload);
      var text := Field(payload, "label", "");
      reply := ApplyLabel(safe, text);
    }

    /** The body of `/label` once the name is known. */
    method ApplyLabel(safe: string, text: string) returns (reply: Reply)
      modifies this`sidecar
      ensures Effect(sidecar, reply) ==
              LabelEffect(old(sidecar), sidecarWritable, files, safe, DropControls(text)[..Min(|DropControls(text)|, 200)], fmt)
    {
      if !(safe in files && files[safe].File?) {
        return NotFound;
      }
      var cleaned := DropControls(text);
      cleaned := cleaned[..Min(|cleaned|, 200)];
      var data := Load(sidecar);
      var a := AnnotationOf(Lookup(data, safe)).(labelText := cleaned);
      data := data[safe := Record(StatFields(a, files[safe], fmt))];
      if !sidecarWritable {
        return WriteFailed;
      }
      sidecar := Parsed(data);
      reply := Ok("label", JStr(OrNone(cleaned)));
    }

    /** `/speaker`. */
    method SetSpeaker(payload: Payload) returns (reply: Reply)
      modifies this`sidecar
      ensures Effect(sidecar, reply) ==
              SpeakerEffect(old(sidecar), sidecarWritable, files, Target(payload), RequestedSpeaker(payload), fmt)
    {
      var safe := Address(payload);
      var speaker := Field(payload, "speaker", "");
      reply := ApplySpeaker(safe, speaker);
    }

    /** The body of `/speaker` once the name is known. */
    method ApplySpeaker(safe: string, speaker: string) returns (reply: Reply)
      modifies this`sidecar
      ensures Effect(sidecar, reply) == SpeakerEffect(old(sidecar), sidecarWritable, files, safe, speaker, fmt)
    {
      if !(safe in files && files[safe].File?) {
        return NotFound;
      }
      var data := Load(sidecar);
      var entry := Lookup(data, safe);
      if !EntryTruthy(entry) {
        entry := Some(Record(map[]));
      }
      if !entry.value.Record? {
        return ServerError;
      }
      var a := AnnotationOf(entry);
      var node := files[safe];
      data := data[safe := Record(Entry8(a, speaker, JStr(fmt.sizeText(node.size)), JInt(node.size),
                                         JStr(fmt.timeText(node.mtime))))];
      if !sidecarWritable {
        return WriteFailed;
      }
      sidecar := Parsed(data);
      reply := Ok("speaker", JStr(OrNone(speaker)));
    }

    /** `/verify`. */
    method SetVerified(payload: Payload) returns (reply: Reply)
      modifies this`sidecar
      ensures Effect(sidecar, reply) ==
              VerifiedEffect(old(sidecar), sidecarWritable, files, Target(payload), RequestedVerified(payload), fmt)
    {
      var safe := Address(payload);
      var verified := TruthyOr(Get(payload, "verified"));
      reply := ApplyVerified(safe, verified);
    }

    /** The body of `/verify` once the name is known. */
    method ApplyVerified(safe: string, verified: bool) returns (reply: Reply)
      modifies this`sidecar
      ensures Effect(sidecar, reply) == VerifiedEffect(old(sidecar), sidecarWritable, files, safe, verified, fmt)
    {
      if !(safe in files && files[safe].File?) {
        return NotFound;
      }
      var data := Load(sidecar);
      var a := AnnotationOf(Lookup(data, safe)).(verified := verified);
      data := data[safe := Record(StatFields(a, files[safe], fmt))];
      if !sidecarWritable {
        return WriteFailed;
      }
      sidecar := Parsed(data);
      reply := Ok("verified", JBool(verified));
    }

    /** `/lang` as written: the new record is built and dropped. */
    method SetLanguage(payload: Payload) returns (reply: Reply)
      ensures Effect(sidecar, reply) ==
              LanguageEffect(sidecar, sidecarWritable, files, Target(payload), RequestedLang(payload), fmt)
    {
      var lang := Field(payload, "lang", DefaultLang);
      if lang !in Languages {
        return InvalidLanguage;
      }
      var safe := Address(payload);
      if !(safe in files && files[safe].File?) {
        return NotFound;
      }
      var data := Load(sidecar);
      var a := AnnotationOf(Lookup(data, safe)).(lang := lang);
      data := data[safe := Record(StatFields(a, files[safe], fmt))];
      reply := NoReply;
    }

    /** `/gender`. */
    method SetGender(payload: Payload) returns (reply: Reply)
      modifies this`sidecar
      ensures Effect(sidecar, reply) ==
              GenderEffect(old(sidecar), sidecarWritable, files, Target(payload), RequestedGender(payload), fmt)
    {
      var gender := Field(payload, "gender", DefaultGender);
      if gender !in Genders {
        return InvalidGender;
      }
      var safe := Address(payload);
      reply := ApplyGender(safe, gender);
    }

    /** The body of `/gender` once the gender is valid and the name known. */
    method ApplyGender(safe: string, gender: string) returns (reply: Reply)
      modifies this`sidecar
      requires gender in Genders
      ensures Effect(sidecar, reply) == GenderEffect(old(sidecar), sidecarWritable, files, safe, gender, fmt)
    {
      if !(safe in files && files[safe].File?) {
        return NotFound;
      }
      var data := Load(sidecar);
      var a := AnnotationOf(Lookup(data, safe)).(gender := gender);
      data := data[safe := Record(StatFields(a, files[safe], fmt))];
      if !sidecarWritable {
        return WriteFailed;
      }
      sidecar := Parsed(data);
      reply := Ok("gender", JStr(gender));
    }
  }
}
