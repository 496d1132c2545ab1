# Audio dataset curation service: a Dafny model

The application keeps audio recordings in one upload directory and their
annotations in a JSON sidecar, `metadata.json`, in the same directory. The
annotations are:

- a free-text label;
- a verified flag;
- a language (Khmer, English or Mix-Both);
- a gender (Male or Female);
- a speaker name;
- cached size and time fields.

This project models the parts of `main.py` that decide what is stored and
what is shown:

- **The filename sanitiser** `_safe_filename` (module `Sanitizer`, with
  `Text` and `Paths` for Python's `str.strip`, `str.lower`,
  `os.path.basename`, `os.path.splitext` and the pathlib suffix and stem).
- **The sequential id allocator** of `upload` and `upload_outside`
  (module `Allocator`). It scans the directory for six-digit stems, starts
  one above the largest, and probes `{n:06d}{ext}` for a free name.
- **The listing pass** `list_files` (modules `Listing` and
  `ListingProps`). It walks the directory in name order and fills in
  missing annotation keys. It rebuilds each listed file's entry as an
  eight-key record and refreshes the cached stat fields. It raises the
  dirty flag whenever it changes something, and it sorts the rows newest
  first.
- **The per-field updaters** `/label`, `/speaker`, `/verify`, `/lang` and
  `/gender` (module `Updaters`). Each is a pure function from the sidecar,
  the directory, the stored name and the requested value to the new
  sidecar and the reply.
- **The application state** (module `App`): a `Store` class with the
  directory and the sidecar as fields. It has one method per endpoint,
  written step by step as the handlers are. The listing, the download and
  the five updaters are proved equal to their specification functions
  (`Listing.Pass`, `App.Resolve` and the `Updaters` effects). The two upload
  endpoints carry relational contracts instead: what each stored file is
  named and holds, which ids it may take (the first free one from the
  counter the directory scan gives), and what the directory and the sidecar
  hold afterwards.
- **How the endpoints compose** (module `EndpointProps`): what the next
  listing shows after each update, and after an upload.

The directory is a `map` from entry name to `File(size, mtime)` or
`Folder`. The sidecar is `Absent`, `Unparsable` or `Parsed(doc)`. The
document maps names to entries, and an entry is one of:

- `Record(fields)`, a JSON object;
- `Legacy(text)`, a bare string (the old label-only form);
- `Other`, any other JSON value.

Record values keep what the handlers use of Python's semantics:
truthiness for `x or default`, `str()`, and `==` against a str or an int.
The human-readable size and the formatted modification time are opaque
functions of the byte count and the mtime (the `Formats` value). A failing
write of `metadata.json` is the store's `sidecarWritable` flag.

Three behaviours of `main.py` that the model reproduces:

- **Traversal names.** The sanitiser takes `os.path.basename` before it
  replaces any character, so `/download/../../etc/passwd` asks for
  `passwd`: everything up to the last `/` is discarded
  (`Sanitizer.DirectoriesAreDropped`).
- **Field preservation.** `/label`, `/verify` and `/gender` rewrite the
  entry with seven keys and no `"speaker"` key, so a speaker set earlier is
  lost and the next listing shows an empty speaker
  (`EndpointProps.LabelThenList`, `EndpointProps.LabelErasesSpeaker`).
- **Relisting.** A second listing pass finds a clean document and writes
  nothing back (`ListingProps.RelistIsClean`), but its rows can differ from
  the first pass's, because the first pass can show a stale speaker:
  - the `speaker` variable is bound only for object entries and is read
    through `locals()`;
  - so a bare-string or missing entry shows the speaker of the object entry
    visited before it (`ListingProps.StaleSpeakerExample`);
  - the relisting then shows each record's own speaker
    (`ListingProps.RelistShowsOwnSpeaker`).

## Model

| member | source | states |
|---|---|---|
| Text.StripLeft | main.py:36 | the result is a suffix of the input whose first character is not whitespace, and everything removed was whitespace |
| Text.StripRight | main.py:36 | the result is a prefix of the input whose last character is not whitespace, and everything removed was whitespace |
| Text.StripIdempotent | main.py:36 | stripping twice is the same as stripping once |
| Text.AsciiLower | main.py:706 | lower-casing keeps the length and lower-cases each character in place |
| Text.Decimal | main.py:713 | the decimal rendering is a non-empty digit string that reads back as the number |
| Text.DecimalLength | main.py:713 | a number of at least 10^k needs more than k digits |
| Text.DecimalShort | main.py:713 | a number below 10^k needs at most k digits |
| Text.ZerosPrefixValue | main.py:713 | leading zeros do not change the value of a digit string |
| Text.NameLessTransitive | main.py:73 | Python's string order is transitive |
| Text.NameLessTotal | main.py:73 | any two different strings are ordered one way or the other |
| Text.NameLessAsymmetric | main.py:73 | Python's string order is asymmetric |
| Paths.Basename | main.py:36 | the basename is the part after the last '/' and contains no '/' |
| Paths.BasenameAfterSlash | main.py:36 | for the last '/' at position k, the basename is exactly the text after k |
| Paths.SplitExt | main.py:44 | root plus extension is the input; a non-empty extension is a dot followed by no further dot or '/', and the last component of the root has a character other than a dot; conversely, with an empty extension every dot of the last component has only dots before it in that component |
| Paths.StemSuffix | main.py:693 | a name is its pathlib stem followed by its suffix |
| Sanitizer.DropNul | main.py:36 | no NUL is left, and a string without NULs is unchanged |
| Sanitizer.DropNulAppend | main.py:36 | NUL removal distributes over concatenation, so the characters other than NUL are kept in order |
| Sanitizer.DropNulOne | main.py:36 | a single character is removed exactly when it is NUL |
| Sanitizer.Scrub | main.py:38 | one character out per character in: each character of [A-Za-z0-9._-] is kept and every other character becomes '_' |
| Sanitizer.Truncate | main.py:43-45 | the length cap yields a safe name, and a name of at most 200 characters is untouched |
| Sanitizer.Settle | main.py:40-45 | the empty name, "." and ".." become "file"; any other name is the length-capped name; the result is a safe name |
| Sanitizer.SafeFilename | main.py:35-46 | the result is non-empty, at most 200 characters over [A-Za-z0-9._-], and neither "." nor ".." |
| Sanitizer.CleanedKeepsSafe | main.py:36-38 | basename, strip, NUL removal and replacement leave a safe name unchanged |
| Sanitizer.SafeNamesAreFixed | main.py:35-46 | a stored name such as "000001.mp3" sanitises to itself |
| Sanitizer.SafeFilenameFixedPoints | main.py:35-46 | the names the sanitiser leaves unchanged are exactly the safe names |
| Sanitizer.SafeFilenameIdempotent | main.py:35-46 | sanitising twice is the same as sanitising once |
| Sanitizer.TruncateKeepsShortExtension | main.py:43-45 | an over-long name with an extension of at most 20 characters is cut to its first 180 stem characters, and the extension is kept whole |
| Sanitizer.NoExtensionMeansNoDot | main.py:44 | a name without '/' that does not start with a dot and gets no extension from splitext contains no dot at all |
| Sanitizer.SplitExtAt | main.py:44 | splitext splits at the last dot when that dot is not leading |
| Sanitizer.DirectoriesAreDropped | main.py:36 | a path sanitises as its last component, so a traversal attempt keeps only the final name |
| PyJson.StrOr | main.py:106-110 | `str(v or default)`: the str() of a truthy value, the default for a falsy or missing value; non-empty for a non-empty default, and a non-empty string value is unchanged |
| PyJson.TruthyRendersNonEmpty | main.py:106-110 | a truthy value has a non-empty str() |
| PyJson.LookupExtensional | main.py:122 | two documents that answer every lookup alike are equal |
| PyJson.Load | main.py:64-70 | a missing or unparseable sidecar loads as the empty document |
| Layout.AllowedAreLower | main.py:21 | the allowed extensions are their own lower-case form |
| Layout.AnnotationOf | main.py:886-898 | a bare string is the label of otherwise default annotations; a missing or non-object entry gives the defaults; lang and gender are never empty |
| Layout.Entry7 | main.py:902-910 | the label, verify and gender handlers write exactly the seven keys, with no "speaker" |
| Layout.Entry8 | main.py:122-131 | the listing and the speaker handler write exactly the eight keys |
| Layout.Entry8Values | main.py:939-948 | the value stored under each of the eight keys |
| Layout.RecordReadBack | main.py:886-910 | a written seven- or eight-key record reads back, through the handlers' `or` defaults, as the annotations it was built from |
| Layout.StatFields | main.py:733-741 | the upload record has the seven keys and carries the live size text, byte count and time text of the file |
| Listing.LeastExists | main.py:73 | every non-empty set of names has a least name |
| Listing.LeastUnique | main.py:73 | the least name is unique |
| Listing.SortedKeys | main.py:73 | `sorted(glob)` lists every entry name exactly once, in strictly ascending order |
| Listing.LeastFirst | main.py:73 | the least name followed by the sorted rest is sorted |
| Listing.InsertByTime | main.py:170 | insertion adds exactly the one item (as a multiset) |
| Listing.SortNewestFirst | main.py:170 | the sort is a permutation of the rows |
| Listing.InsertKeepsOrder | main.py:170 | inserting an item with the largest name keeps the rows newest first, in ascending name order among equal times |
| Listing.ConsOrdered | main.py:170 | an item before every item of an ordered sequence can lead it |
| Listing.SortNewestFirstOrdered | main.py:73 | rows that arrive in name order are sorted newest first, and equal mtimes stay in ascending name order (the sort is stable) |
| Listing.FilledKeeps | main.py:91-105 | filling in the defaults keeps every existing key and value, and adds only the five annotation keys |
| Listing.Repaired | main.py:122-155 | every repaired entry has exactly the eight keys |
| Listing.ScanStep | main.py:73-168 | scanning one more name visits it after the shorter scan |
| Listing.FillDefaults | main.py:91-105 | the five key checks produce the filled object, and report a change exactly when an annotation key was missing |
| Listing.RefreshStat | main.py:112-120 | the three cache checks store the live size text, byte count and time text, and report a change exactly when one of them differed |
| Listing.RepairedFromFilled | main.py:89-131 | the repair of an object entry is the eight-key record read off the filled object; it needs repair exactly when a key was missing or the cached stat differs |
| Listing.FilledKeepsStat | main.py:112-120 | filling in the defaults does not touch the cached stat fields |
| Listing.RepairRecord | main.py:89-131 | the object branch yields the repaired record, the settled annotations, the entry's speaker and the dirty bit |
| Listing.RepairEntry | main.py:84-156 | each of the three entry shapes yields the repaired record, the settled annotations and the dirty bit; only an object entry rebinds the speaker |
| Listing.VisitPath | main.py:74-168 | one loop turn skips what is not listed and otherwise updates the document, the rows, the flag and the speaker as the visit function says |
| Listing.ScanUploads | main.py:63-177 | the loop and the sort produce the document, rows and dirty flag of one listing pass |
| Allocator.SeqMax | main.py:699 | the maximum is an element and bounds every element |
| Allocator.StartNumber | main.py:689-699 | the counter starts above every six-digit id present, and is either 1 or one above an id present |
| Allocator.ZeroPadDigits | main.py:713 | `{n:06d}` is all digits, reads back as n and has at least six characters |
| Allocator.ZeroPadLength | main.py:713 | the padded form has exactly six digits if and only if n is below a million |
| Allocator.AllowedShape | main.py:21 | each allowed extension is a dot followed by non-dot characters |
| Allocator.CandidateRoundTrip | main.py:693-694 | a stored name's stem is the padded number and its suffix is the extension; the next scan counts it as id n exactly when n is below a million |
| Allocator.Probe | main.py:712-718 | the probe returns the first free candidate from the counter on (every candidate between is taken), and the counter ends one past it |
| Allocator.AbsentWhenLong | main.py:712-718 | a candidate longer than every name present is free, so the probe ends |
| Allocator.StartIsUnique | main.py:689-699 | the starting counter is determined by the directory: two starts that both satisfy the scan are equal |
| Allocator.FirstFreeIsUnique | main.py:712-718 | the first free id from a given counter is unique, so the allocator's choice is a function of the names present and the extension |
| Allocator.EmptyDirectoryFirstId | main.py:689-718 | in an empty directory the counter starts at 1 and the first upload is named "000001" plus its extension |
| Allocator.ZeroPadOne | main.py:713 | `f"{1:06d}"` is "000001" |
| Updaters.Target | main.py:871-873 | the name a request addresses is always a safe name |
| Updaters.DropControls | main.py:878 | no control character is left, and text without control characters is unchanged |
| Updaters.DropControlsAppend | main.py:878 | control-character removal distributes over concatenation, so every other character is kept in order |
| Updaters.DropControlsOne | main.py:878 | a single character is removed exactly when it is a control character |
| Updaters.RequestedLabel | main.py:872-878 | the stored label is the first min(n, 200) characters of the requested label with its n non-control characters kept in order; so it has at most 200 characters and no control character |
| Updaters.Commit | main.py:911-915 | a successful write stores the record and changes no other entry; a failed write leaves the sidecar unchanged and reports the failure |
| Updaters.Write7 | main.py:899-915 | on a successful write the entry becomes exactly the seven-key record of the given annotations and the file's live stat, no other entry changes, and the record reads back as those annotations; a failed write changes nothing and replies "Failed to write metadata" |
| Updaters.Write8 | main.py:937-953 | on a successful write the entry becomes exactly that seven-key record plus the given speaker, no other entry changes, and the record reads back as the annotations; a failed write changes nothing and replies "Failed to write metadata" |
| Updaters.LabelEffect | main.py:869-915 | success if and only if the file exists and the write succeeds; a missing file replies "File not found" and a failed write "Failed to write metadata", changing nothing; on success only that entry changes, it has the seven keys, the new label and the live stat, and the reply is the label or "None" |
| Updaters.SpeakerEffect | main.py:918-953 | success if and only if the file exists, the write succeeds and the entry is not a truthy non-object; such an entry raises and nothing is written; a missing file replies "File not found" and a failed write "Failed to write metadata"; on success the four annotations are kept, the speaker is set and the live stat stored |
| Updaters.VerifiedEffect | main.py:956-998 | success if and only if the file exists and the write succeeds; a missing file replies "File not found" and a failed write "Failed to write metadata", changing nothing; on success the seven-key record keeps label, lang and gender, sets verified and stores the live stat |
| Updaters.LanguageEffect | main.py:1001-1040 | as written: an invalid language and a missing file are errors, a valid language for an existing file gets no reply, and the sidecar is never changed |
| Updaters.IntendedLanguageEffect | main.py:1088-1092 | with the dead write block in place: an invalid language is rejected; then a missing file replies "File not found" and a failed write "Failed to write metadata"; success if and only if the file exists and the write succeeds, and on success only the language changes and the live stat is stored |
| Updaters.GenderEffect | main.py:1043-1087 | an invalid gender is rejected before any lookup; then a missing file replies "File not found" and a failed write "Failed to write metadata"; success if and only if the file exists and the write succeeds; on success only the gender changes, in a seven-key record with the live stat |
| ListingProps.SortedIsDistinct | main.py:73 | the sorted names are pairwise distinct |
| ListingProps.ReadBack | main.py:122-131 | an eight-key record needs no filling and reads back as its annotations and speaker |
| ListingProps.FilledIsIdentity | main.py:91-105 | an object with all five annotation keys is not changed by the filling |
| ListingProps.EightKeyRecordListed | main.py:89-131 | an eight-key record lacks no annotation, and lists with its own speaker and the annotations the handlers read |
| ListingProps.RepairIsStable | main.py:89-156 | a repaired record needs no further repair, settles to the same annotations and repairs to itself |
| ListingProps.RepairedIsEntry8 | main.py:122-131 | the repair is the eight-key record of the settled annotations, the carried speaker and the live stat |
| ListingProps.RepairedShape | main.py:132-156 | the repair always has the eight keys and the live stat; a bare string becomes the label of a default record, and a missing or other entry becomes the default record |
| ListingProps.RepairKeepsAnnotations | main.py:106-131 | an object entry keeps its non-empty label, lang and gender and its string speaker, and verified becomes its truthiness |
| ListingProps.ScanDoc | main.py:122-156 | after the scan, each visited listed file holds its repaired record and every other entry is untouched |
| ListingProps.ScanDirty | main.py:89-156 | the scan is dirty if and only if some visited name is a listed file whose entry needs repair |
| ListingProps.ScanShows | main.py:157-168 | every row of the scan shows its file's live stat and its entry's settled annotations |
| ListingProps.ScanRows | main.py:73 | the scan's rows come in ascending name order |
| ListingProps.ScanCovers | main.py:73-79 | every listed file visited has a row |
| ListingProps.ScanCount | main.py:74-79 | there is one row per listed file visited |
| ListingProps.NamesOfDir | main.py:73-79 | the listed files among the sorted names are exactly the listed files of the directory |
| ListingProps.PassDocument | main.py:73-156 | after a pass each listed file has its repaired eight-key record, and every other entry is untouched (nothing is pruned) |
| ListingProps.PassDirty | main.py:89-156 | the pass writes back if and only if some listed file's entry needs repair |
| ListingProps.ScannedRows | main.py:73-168 | before the sort there is one row per listed file, each showing it, in name order |
| ListingProps.ReorderedRows | main.py:170 | a permutation of the rows still has one row per listed file, each showing it |
| ListingProps.PassRows | main.py:157-170 | the returned rows are one per listed file, each showing that file, newest first and by name among equal times |
| ListingProps.RowOf | main.py:157-168 | a listed file has a row, and every row with its name shows it |
| ListingProps.RelistIsClean | main.py:172-176 | a second pass over the written document finds nothing to repair and leaves it as it was |
| ListingProps.RelistShowsOwnSpeaker | main.py:110 | on the relisting every row shows the speaker stored in its own record |
| ListingProps.CarriedSpeaker | main.py:132-167 | a bare-string or missing entry's row shows the speaker bound last, while its record stores an empty speaker |
| ListingProps.StaleSpeakerExample | main.py:110-167 | an object entry followed by a bare-string entry: the second row shows the first entry's speaker |
| ListingProps.VisitRecord | main.py:89-131 | visiting an object entry adds one row, binds that entry's speaker and leaves every other entry alone |
| EndpointProps.SevenKeyRecordListed | main.py:103-105 | a seven-key record lacks "speaker", so the listing marks it dirty and shows an empty speaker |
| EndpointProps.ListShows | main.py:157-168 | the listed file's row shows how its stored record settles and the record's speaker |
| EndpointProps.ListAfterSevenKeyWrite | main.py:902-910 | after a seven-key write the listing is dirty and shows the written annotations with an empty speaker |
| EndpointProps.LabelThenList | main.py:902-910 | after labelling, the listing shows the new label, the other annotations as they were and an empty speaker |
| EndpointProps.VerifiedThenList | main.py:985-993 | after /verify, the listing shows the new flag, the other annotations as they were and an empty speaker |
| EndpointProps.GenderThenList | main.py:1074-1082 | after /gender, the listing shows the new gender, the other annotations as they were and an empty speaker |
| EndpointProps.LabelErasesSpeaker | main.py:939-948 | a speaker set by /speaker is gone once /label rewrites the entry |
| EndpointProps.SpeakerThenList | main.py:932-948 | after /speaker, the listing shows that speaker and the annotations as they were |
| EndpointProps.LanguageNeverPersists | main.py:1032-1040 | as written, a valid language for an existing file gets no reply and the stored language does not change |
| EndpointProps.IntendedLanguageThenList | main.py:1088-1092 | with the write in place, the listing shows the new language and the other annotations as they were |
| EndpointProps.UnreadableSidecarIsReplaced | main.py:880-885 | an update against a missing or unparseable sidecar leaves a document holding only the updated file |
| EndpointProps.UploadIsListed | main.py:713 | a stored upload is an audio file the listing reports |
| EndpointProps.UploadIsCounted | main.py:689-699 | an upload numbered below a million is counted by the next scan, whose counter starts above it |
| EndpointProps.UploadThenList | main.py:733-741 | a fresh upload is listed with the default annotations and an empty speaker, and that listing writes the missing key back |
| App.OutsideAnnotation | main.py:777-778 | the language falls back to Khmer and the gender to "None" when it is not one of the valid values; label and verified are kept |
| App.OutsideRecordShape | main.py:825-835 | the outside record has the eight keys plus "original_name", holds the client's name and the speaker, and reads back as the validated annotations |
| App.Resolve | main.py:755-763 | a request resolves if and only if its sanitised name is a regular file, and then to that safe name |
| App.StoredNamesResolve | main.py:755 | every stored safe name resolves to itself exactly when it is a regular file |
| App.IncreasingStored | main.py:712-718 | storing one more upload keeps the ids increasing and above every pre-existing id |
| App.AdmitStored | main.py:711-741 | a stored upload gets the free candidate of its id, and every earlier placement still holds |
| App.AdmitSkipped | main.py:707-710 | a disallowed extension uses no id and stores nothing |
| App.RecordedStep | main.py:725-745 | recording one more upload writes its default seven-key record and keeps every other entry |
| App.AccountStored | main.py:711-745 | one stored upload keeps the loop's account of directory, ids and sidecar |
| App.AccountSkipped | main.py:707-710 | one skipped upload keeps the loop's account unchanged |
| App.CountedSnoc | main.py:701-718 | one more loop turn that moves the counter as a skip or a store does extends the per-upload account of counters and names |
| App.TallySnoc | main.py:701-718 | the same, with the start and the current counter and names carried along |
| App.SkippedKeepCounter | main.py:707-710 | a run of skipped uploads leaves the counter and the directory's names where they were |
| App.FirstUploadIntoEmpty | main.py:689-718 | in a batch uploaded into an empty directory the first stored file gets id 1, however many skipped uploads precede it |
| App.Store.ListFiles | main.py:63-177 | returns the pass's rows, and writes the pass's document only when it is dirty and writable |
| App.Store.Download | main.py:753-764 | serves the sanitised name if it is a regular file, and otherwise not found |
| App.Store.Place | main.py:711-745 | stores the upload under the first free candidate from the counter (every candidate in between is taken), the counter ends one past it, and the default seven-key record is written when the sidecar is writable |
| App.Store.StoreOne | main.py:711-745 | an allowed upload is stored, keeps the loop's account, and takes the first free id from the counter |
| App.Store.ExtensionOf | main.py:703-706 | the lower-cased splitext extension of the sanitised client name |
| App.Store.Admit | main.py:701-747 | one loop turn stores or skips the upload, keeps the loop's account, and moves the counter as a skip (not at all) or a store (one past the first free id) does |
| App.Store.Upload | main.py:685-750 | each upload is skipped if and only if its extension is disallowed; the counter starts where the directory scan puts it; each stored upload gets the first free id from the counter left by the previous stored one, and a skipped one uses no id; so ids are above every pre-existing id and strictly increasing; old files are kept and only the placed names are added; each gets a default record |
| App.Store.UploadOutside | main.py:767-851 | a disallowed extension is rejected with nothing changed; otherwise the file is stored under the first free numbered name from the scanned start, with its nine-key record, and the reply echoes the validated annotations |
| App.Store.StoreOutside | main.py:776-851 | the accepted path of /upload_outside, with the same id, effect and reply |
| App.Store.Allocate | main.py:782-809 | the counter starts where the scan puts it and the allocated id is the first one from there whose name is free; that id is above every existing id |
| App.Store.Address | main.py:871-873 | the stored name addressed by the request body |
| App.Store.SetLabel | main.py:869-915 | the new sidecar and the reply are exactly those of the label effect |
| App.Store.ApplyLabel | main.py:873-915 | the step-by-step body equals the label effect for the cleaned label |
| App.Store.SetSpeaker | main.py:918-953 | the new sidecar and the reply are exactly those of the speaker effect |
| App.Store.ApplySpeaker | main.py:926-953 | the step-by-step body, including the raise on a truthy non-object entry, equals the speaker effect |
| App.Store.SetVerified | main.py:956-998 | the new sidecar and the reply are exactly those of the verified effect |
| App.Store.ApplyVerified | main.py:960-998 | the step-by-step body equals the verified effect |
| App.Store.SetLanguage | main.py:1001-1040 | as written: no state change, and the reply of the as-written language effect |
| App.Store.SetGender | main.py:1043-1087 | the new sidecar and the reply are exactly those of the gender effect |
| App.Store.ApplyGender | main.py:1049-1087 | the step-by-step body for a valid gender equals the gender effect |

## Left out

- The HTML page `home()` and its embedded client script (main.py:180-682): user interface only.
- `_human_size` and `datetime.fromtimestamp(...).strftime`: float formatting. They are the opaque `Formats` functions of the byte count and the mtime.
- File and JSON I/O: globbing, `stat`, reading and writing `metadata.json`, `json.loads` and `json.dumps`. The directory and the document are values. A parse failure is the `Unparsable` sidecar, and a write failure is the `sidecarWritable` flag.
- A sidecar that parses but is not a JSON object would make the handlers fail. The model's document is always an object.
- The uploaded bytes, `UploadFile` reading, draining and closing, `FileResponse`, `RedirectResponse`, `mimetypes` and the media type: framework plumbing. An upload is its size and its mtime.
- The `resolve()`/`relative_to` containment check of `/download` and `/stream`: it depends on operating-system path resolution and symbolic links. A sanitised name has no '/' and is never "." or "..", so it stays inside the directory anyway.
- `/stream` is `/download` with a different media type, so `App.Store.Download` covers both.
- `_unique_path` (main.py:49-60): nothing calls it.
- The speaker registry and `/speaker_add`: they are not in `main.py`, and are not part of this model.
- Concurrent requests and their last-write-wins races.
- Text.AsciiLower: `str.lower` is modelled for ASCII letters only. Sanitised names and extensions are ASCII, so the result is exact wherever it is used.
- Allocator.StartNumber: `str.isdigit` and `int()` are modelled for ASCII digits only. Non-ASCII digit stems can never occur in sanitised stored names.
- Allocator.Probe: the counter's `next_num += 1` after a pick is the `after` result. From a million on, the padded name has seven digits and the next scan no longer counts it (`Allocator.CandidateRoundTrip`).
- The pathlib suffix and stem follow the rule of Python 3.12 and earlier, where a name ending in a dot has no suffix.
- Listing.SortNewestFirst: mtimes are real numbers; floating-point rounding is not modelled.
- App.Store.UploadOutside: the reply's `label` field is read back from the stored record and equals the form's label. The model states it directly.

## Findings

| source | as written | input that shows it | evidently intended | confidence | as-written member | corrected member |
|---|---|---|---|---|---|---|
| main.py:1001-1040, 1088-1092 | `set_language` builds the new entry and then falls off the end of the function. Its write and its `{"ok": true, "lang": ...}` reply sit after the `return` of `set_gender`, where they can never run. | `{"filename": "000001.mp3", "lang": "English"}` for an existing file whose language is Khmer: the reply is `null`, and the stored language is still Khmer | write the document and reply `{"ok": true, "lang": lang}`, as `set_gender` does | not executed | EndpointProps.LanguageNeverPersists | Updaters.IntendedLanguageEffect |
