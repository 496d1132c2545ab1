/** What one listing pass guarantees about the document it writes back and
    the rows it returns, and what a second pass over its own output does. */
module ListingProps {
  import opened Text
  import opened PyJson
  import opened Layout
  import opened Listing

  predicate Distinct(names: seq<string>) {
    forall i, j :: 0 <= i < j < |names| ==> names[i] != names[j]
  }

  lemma SortedIsDistinct(names: seq<string>)
    requires StrictlySorted(names)
    ensures Distinct(names)
  {
    forall i, j | 0 <= i < j < |names| ensures names[i] != names[j] {
      if names[i] == names[j] {
        NameLessIrreflexive(names[i]);
      }
    }
  }

  /** A listed file of doc whose entry the listing has to repair. */
  predicate Broken(doc: Doc, dir: Dir, n: string, fmt: Formats) {
    n in dir && Listed(n, dir[n])
    && NeedsRepair(Lookup(doc, n), dir[n].size, fmt.sizeText(dir[n].size), fmt.timeText(dir[n].mtime))
  }

  // ---------------------------------------------------------------------
  // One record

  /** An eight-key record reads back as the annotations and the speaker
      it was built from. */
  lemma ReadBack(a: Annotation, speaker: string, sizeH: Json, sizeBytes: Json, mtimeIso: Json)
    requires a.lang != [] && a.gender != []
    ensures var g := Entry8(a, speaker, sizeH, sizeBytes, mtimeIso);
      && Filled(g) == g
      && AnnotationOf(Some(Record(g))) == a
      && SpeakerField(g) == speaker
  {
    var g := Entry8(a, speaker, sizeH, sizeBytes, mtimeIso);
    assert Filled(g) == g;
    assert g["label"] == JStr(a.labelText) && g["verified"] == JBool(a.verified);
    assert g["lang"] == JStr(a.lang) && g["gender"] == JStr(a.gender);
    assert g["speaker"] == JStr(speaker);
  }

  /** Filling in defaults leaves an object that has every annotation key
      as it was. */
  lemma FilledIsIdentity(f: Fields)
    requires !LacksAnnotation(f)
    ensures Filled(f) == f
  {
  }

  /** An eight-key record needs no annotation filled in and lists with its
      own speaker. */
  lemma EightKeyRecordListed(f: Fields, speaker: string)
    requires f.Keys == EightKeys && f["speaker"] == JStr(speaker)
    ensures !LacksAnnotation(f)
    ensures SpeakerField(f) == speaker
    ensures Settled(Some(Record(f))) == AnnotationOf(Some(Record(f)))
  {
    assert "label" in EightKeys && "verified" in EightKeys && "lang" in EightKeys;
    assert "gender" in EightKeys && "speaker" in EightKeys;
    FilledIsIdentity(f);
  }

  /** A repaired record needs no further repair, reads back as the same
      annotations, and is repaired to itself. */
  lemma RepairIsStable(e: Option<Entry>, size: nat, sizeH: string, mtimeIso: string)
    ensures var g := Repaired(e, size, sizeH, mtimeIso);
      && !NeedsRepair(Some(Record(g)), size, sizeH, mtimeIso)
      && Settled(Some(Record(g))) == Settled(e)
      && Repaired(Some(Record(g)), size, sizeH, mtimeIso) == g
  {
    var g := Repaired(e, size, sizeH, mtimeIso);
    var a := Settled(e);
    var speaker := if e.Some? && e.value.Record? then SpeakerField(e.value.fields) else "";
    var sizeBytes := g["size_bytes"];
    RepairedIsEntry8(e, size, sizeH, mtimeIso);
    Entry8Values(a, speaker, JStr(sizeH), sizeBytes, JStr(mtimeIso));
    RepairedShape(e, size, sizeH, mtimeIso);
    EightKeyRecordListed(g, speaker);
    RecordReadBack(a, speaker, JStr(sizeH), sizeBytes, JStr(mtimeIso));
    assert Get(g, "size_h") == Some(JStr(sizeH)) && Get(g, "mtime_iso") == Some(JStr(mtimeIso));
    assert Get(g, "size_bytes") == Some(sizeBytes);
  }

  /** The repaired record is the eight-key record of the settled
      annotations, the carried speaker and the live stat. */
  lemma RepairedIsEntry8(e: Option<Entry>, size: nat, sizeH: string, mtimeIso: string)
    ensures var g := Repaired(e, size, sizeH, mtimeIso);
      var speaker := if e.Some? && e.value.Record? then SpeakerField(e.value.fields) else "";
      g == Entry8(Settled(e), speaker, JStr(sizeH), g["size_bytes"], JStr(mtimeIso))
  {
    var g := Repaired(e, size, sizeH, mtimeIso);
    var speaker := if e.Some? && e.value.Record? then SpeakerField(e.value.fields) else "";
    var sizeBytes := if e.Some? && e.value.Record? && EqualsInt(Get(e.value.fields, "size_bytes"), size)
                     then e.value.fields["size_bytes"] else JInt(size);
    assert g == Entry8(Settled(e), speaker, JStr(sizeH), sizeBytes, JStr(mtimeIso));
    Entry8Values(Settled(e), speaker, JStr(sizeH), sizeBytes, JStr(mtimeIso));
  }

  /** The shapes the repair writes: always the eight keys with the live
      stat; a bare string becomes the label of an otherwise default record
      and a missing or non-object entry becomes the default record. */
  lemma RepairedShape(e: Option<Entry>, size: nat, sizeH: string, mtimeIso: string)
    ensures var g := Repaired(e, size, sizeH, mtimeIso);
      && g.Keys == EightKeys
      && g["size_h"] == JStr(sizeH) && g["mtime_iso"] == JStr(mtimeIso)
      && EqualsInt(Some(g["size_bytes"]), size)
      && (e.Some? && e.value.Legacy? ==>
            g == Entry8(Defaults.(labelText := e.value.text), "", JStr(sizeH), JInt(size), JStr(mtimeIso)))
      && (e.None? || e.value.Other? ==> g == Entry8(Defaults, "", JStr(sizeH), JInt(size), JStr(mtimeIso)))
  {
  }

  /** An object entry keeps every annotation it had that Python reads as
      set: a non-empty string label, lang and gender stay as they were. */
  lemma RepairKeepsAnnotations(f: Fields, size: nat, sizeH: string, mtimeIso: string)
    ensures var g := Repaired(Some(Record(f)), size, sizeH, mtimeIso);
      && ("label" in f && f["label"].JStr? && f["label"].s != [] ==> g["label"] == f["label"])
      && ("lang" in f && f["lang"].JStr? && f["lang"].s != [] ==> g["lang"] == f["lang"])
      && ("gender" in f && f["gender"].JStr? && f["gender"].s != [] ==> g["gender"] == f["gender"])
      && ("speaker" in f && f["speaker"].JStr? ==> g["speaker"] == f["speaker"])
      && ("verified" in f ==> g["verified"] == JBool(Truthy(f["verified"])))
  {
    var h := Filled(f);
    var a := AnnotationOf(Some(Record(h)));
    var sizeBytes := if EqualsInt(Get(f, "size_bytes"), size) then f["size_bytes"] else JInt(size);
    var g := Repaired(Some(Record(f)), size, sizeH, mtimeIso);
    assert g == Entry8(a, SpeakerField(f), JStr(sizeH), sizeBytes, JStr(mtimeIso));
    Entry8Values(a, SpeakerField(f), JStr(sizeH), sizeBytes, JStr(mtimeIso));
    FilledKeeps(f);
    forall k | k in f ensures Get(h, k) == Some(f[k]) {
    }
  }

  // ---------------------------------------------------------------------
  // The scan, by induction over the names visited

  lemma {:induction false} ScanDoc(doc: Doc, dir: Dir, names: seq<string>, fmt: Formats, n: string)
    requires forall k :: 0 <= k < |names| ==> names[k] in dir
    requires Distinct(names)
    ensures Lookup(Scan(doc, dir, names, fmt).doc, n) ==
      if n in names && Listed(n, dir[n]) then Some(Record(RepairedFor(doc, n, dir[n], fmt))) else Lookup(doc, n)
  {
    if names != [] {
      var init, last := names[..|names| - 1], names[|names| - 1];
      assert names == init + [last];
      ScanDoc(doc, dir, init, fmt, n);
      ScanDoc(doc, dir, init, fmt, last);
      assert last !in init;
    }
  }

  /** The listed files whose entries need repair. */
  ghost function BrokenNames(doc: Doc, dir: Dir, fmt: Formats): set<string> {
    set n | n in dir && Broken(doc, dir, n, fmt)
  }

  lemma {:induction false} ScanDirty(doc: Doc, dir: Dir, names: seq<string>, fmt: Formats)
    requires forall k :: 0 <= k < |names| ==> names[k] in dir
    requires Distinct(names)
    ensures Scan(doc, dir, names, fmt).dirty <==> Among(names, BrokenNames(doc, dir, fmt)) != {}
  {
    if names != [] {
      var init, last := names[..|names| - 1], names[|names| - 1];
      ScanDirty(doc, dir, init, fmt);
      ScanDirtyStep(doc, dir, names, fmt);
      AmongSnoc(names, BrokenNames(doc, dir, fmt));
      assert last in BrokenNames(doc, dir, fmt) <==> Broken(doc, dir, last, fmt);
    }
  }

  /** Visiting one more name sets the flag exactly when that file is
      broken in the starting document. */
  lemma ScanDirtyStep(doc: Doc, dir: Dir, names: seq<string>, fmt: Formats)
    requires forall k :: 0 <= k < |names| ==> names[k] in dir
    requires names != [] && Distinct(names)
    ensures var init, last := names[..|names| - 1], names[|names| - 1];
      Scan(doc, dir, names, fmt).dirty <==> Scan(doc, dir, init, fmt).dirty || Broken(doc, dir, last, fmt)
  {
    var init, last := names[..|names| - 1], names[|names| - 1];
    ScanDoc(doc, dir, init, fmt, last);
    assert last !in init;
  }

  /** A row reports the live stat of a listed file and the annotations of
      its entry in the document the pass started from; for an object entry
      the speaker is the entry's own. */
  predicate Shows(it: Item, doc: Doc, dir: Dir, fmt: Formats) {
    && it.name in dir && Listed(it.name, dir[it.name])
    && it.size == dir[it.name].size && it.mtime == dir[it.name].mtime
    && it.sizeH == fmt.sizeText(it.size) && it.mtimeIso == fmt.timeText(it.mtime)
    && Annotation(it.labelText, it.verified, it.lang, it.gender) == Settled(Lookup(doc, it.name))
    && (Lookup(doc, it.name).Some? && Lookup(doc, it.name).value.Record? ==>
          it.speaker == SpeakerField(Lookup(doc, it.name).value.fields))
  }

  /** The names of a sequence that belong to s. */
  function Among(names: seq<string>, s: set<string>): set<string> {
    set k | 0 <= k < |names| && names[k] in s :: names[k]
  }

  /** The listed files among some names of the directory. */
  function ListedAmong(dir: Dir, names: seq<string>): set<string> {
    Among(names, ListedNames(dir))
  }

  /** Visiting one more name appends at most its own row. */
  lemma ScanAppends(doc: Doc, dir: Dir, names: seq<string>, fmt: Formats)
    requires forall k :: 0 <= k < |names| ==> names[k] in dir
    requires names != [] && Distinct(names)
    ensures var init, last := names[..|names| - 1], names[|names| - 1];
      var before := Scan(doc, dir, init, fmt).items;
      var items := Scan(doc, dir, names, fmt).items;
      if Listed(last, dir[last]) then
        && items == before + [items[|before|]]
        && items[|before|].name == last && Shows(items[|before|], doc, dir, fmt)
      else items == before
  {
    var init, last := names[..|names| - 1], names[|names| - 1];
    ScanDoc(doc, dir, init, fmt, last);
    assert last !in init;
  }

  /** Every row of the scan belongs to one of the names visited. */
  lemma {:induction false} ScanNames(doc: Doc, dir: Dir, names: seq<string>, fmt: Formats)
    requires forall k :: 0 <= k < |names| ==> names[k] in dir
    requires Distinct(names)
    ensures var items := Scan(doc, dir, names, fmt).items;
      forall i :: 0 <= i < |items| ==> items[i].name in names
  {
    if names != [] {
      var init := names[..|names| - 1];
      ScanNames(doc, dir, init, fmt);
      ScanAppends(doc, dir, names, fmt);
      var before := Scan(doc, dir, init, fmt).items;
      forall i | 0 <= i < |before| ensures before[i].name in names {
        var k :| 0 <= k < |init| && init[k] == before[i].name;
        assert names[k] == init[k];
      }
    }
  }

  /** Every row of the scan shows its file. */
  lemma {:induction false} ScanShows(doc: Doc, dir: Dir, names: seq<string>, fmt: Formats)
    requires forall k :: 0 <= k < |names| ==> names[k] in dir
    requires Distinct(names)
    ensures var items := Scan(doc, dir, names, fmt).items;
      forall i :: 0 <= i < |items| ==> Shows(items[i], doc, dir, fmt)
  {
    if names != [] {
      ScanShows(doc, dir, names[..|names| - 1], fmt);
      ScanAppends(doc, dir, names, fmt);
    }
  }

  /** The scan's rows come in the order of the sorted names. */
  lemma {:induction false} ScanRows(doc: Doc, dir: Dir, names: seq<string>, fmt: Formats)
    requires forall k :: 0 <= k < |names| ==> names[k] in dir
    requires StrictlySorted(names)
    ensures var items := Scan(doc, dir, names, fmt).items;
      forall i, j :: 0 <= i < j < |items| ==> NameLess(items[i].name, items[j].name)
  {
    if names != [] {
      var init, last := names[..|names| - 1], names[|names| - 1];
      SortedIsDistinct(names);
      SortedIsDistinct(init);
      ScanRows(doc, dir, init, fmt);
      ScanNames(doc, dir, init, fmt);
      ScanAppends(doc, dir, names, fmt);
      var before := Scan(doc, dir, init, fmt).items;
      forall i | 0 <= i < |before| ensures NameLess(before[i].name, last) {
        var k :| 0 <= k < |init| && init[k] == before[i].name;
        assert names[k] == init[k];
      }
    }
  }

  lemma {:induction false} ScanCovers(doc: Doc, dir: Dir, names: seq<string>, fmt: Formats)
    requires forall k :: 0 <= k < |names| ==> names[k] in dir
    requires Distinct(names)
    ensures var items := Scan(doc, dir, names, fmt).items;
      forall n :: n in names && Listed(n, dir[n]) ==> exists i :: 0 <= i < |items| && items[i].name == n
  {
    if names != [] {
      var init, last := names[..|names| - 1], names[|names| - 1];
      assert names == init + [last];
      ScanCovers(doc, dir, init, fmt);
      ScanAppends(doc, dir, names, fmt);
      var before := Scan(doc, dir, init, fmt).items;
      var items := Scan(doc, dir, names, fmt).items;
      forall n | n in names && Listed(n, dir[n])
        ensures exists i :: 0 <= i < |items| && items[i].name == n
      {
        if n == last {
          assert items[|before|].name == n;
        } else {
          assert n in init;
          var i :| 0 <= i < |before| && before[i].name == n;
          assert items[i].name == n;
        }
      }
    }
  }

  lemma AmongSnoc(names: seq<string>, s: set<string>)
    requires names != [] && Distinct(names)
    ensures var init, last := names[..|names| - 1], names[|names| - 1];
      && last !in Among(init, s)
      && Among(names, s) == Among(init, s) + if last in s then {last} else {}
  {
    var init, last := names[..|names| - 1], names[|names| - 1];
    var small, big := Among(init, s), Among(names, s);
    forall n | n in big ensures n in small || (n == last && last in s) {
      var k :| 0 <= k < |names| && names[k] in s && names[k] == n;
      if k < |init| {
        assert init[k] == n;
      }
    }
    forall n | n in small ensures n in big && n != last {
      var k :| 0 <= k < |init| && init[k] in s && init[k] == n;
      assert names[k] == n;
    }
    if last in s {
      assert names[|names| - 1] == last;
      assert last in big;
    }
  }

  lemma ListedAmongSnoc(dir: Dir, names: seq<string>)
    requires forall k :: 0 <= k < |names| ==> names[k] in dir
    requires names != [] && Distinct(names)
    ensures var init, last := names[..|names| - 1], names[|names| - 1];
      && last !in ListedAmong(dir, init)
      && ListedAmong(dir, names) == ListedAmong(dir, init) + if Listed(last, dir[last]) then {last} else {}
  {
    AmongSnoc(names, ListedNames(dir));
    var last := names[|names| - 1];
    assert last in ListedNames(dir) <==> Listed(last, dir[last]);
  }

  lemma {:induction false} ScanCount(doc: Doc, dir: Dir, names: seq<string>, fmt: Formats)
    requires forall k :: 0 <= k < |names| ==> names[k] in dir
    requires Distinct(names)
    ensures |Scan(doc, dir, names, fmt).items| == |ListedAmong(dir, names)|
  {
    if names != [] {
      var init := names[..|names| - 1];
      ScanCount(doc, dir, init, fmt);
      ScanAppends(doc, dir, names, fmt);
      ListedAmongSnoc(dir, names);
    }
  }

  // ---------------------------------------------------------------------
  // One full pass

  /** The audio files the listing reports. */
  function ListedNames(dir: Dir): set<string> {
    set n | n in dir && Listed(n, dir[n])
  }

  lemma NamesOfDir(dir: Dir)
    ensures var names := SortedKeys(dir.Keys);
      && (forall k :: 0 <= k < |names| ==> names[k] in dir)
      && ListedAmong(dir, names) == ListedNames(dir)
  {
    var names := SortedKeys(dir.Keys);
    forall n | n in ListedNames(dir) ensures n in ListedAmong(dir, names) {
      var k :| 0 <= k < |names| && names[k] == n;
    }
  }

  /** After a pass, every listed file has the repaired eight-key record and
      every other entry of the document is untouched (the sidecar's own
      entry, entries of deleted files, entries of other extensions). */
  lemma PassDocument(doc: Doc, dir: Dir, fmt: Formats, n: string)
    ensures var out := Pass(doc, dir, fmt);
      if n in dir && Listed(n, dir[n]) then
        && Lookup(out.doc, n) == Some(Record(RepairedFor(doc, n, dir[n], fmt)))
        && out.doc[n].fields.Keys == EightKeys
      else Lookup(out.doc, n) == Lookup(doc, n)
  {
    var names := SortedKeys(dir.Keys);
    SortedIsDistinct(names);
    ScanDoc(doc, dir, names, fmt, n);
  }

  /** The pass asks for a write-back exactly when some listed file's entry
      needs repair. */
  lemma PassDirty(doc: Doc, dir: Dir, fmt: Formats)
    ensures Pass(doc, dir, fmt).dirty <==> exists n :: Broken(doc, dir, n, fmt)
  {
    var names := SortedKeys(dir.Keys);
    SortedIsDistinct(names);
    ScanDirty(doc, dir, names, fmt);
    var broken := BrokenNames(doc, dir, fmt);
    assert forall n :: n in broken ==> n in names;
    AmongAll(names, broken);
    if exists n :: Broken(doc, dir, n, fmt) {
      var n :| Broken(doc, dir, n, fmt);
      assert n in broken;
    }
  }

  /** A sequence holding every member of s picks out all of s. */
  lemma AmongAll(names: seq<string>, s: set<string>)
    requires forall n :: n in s ==> n in names
    ensures Among(names, s) == s
  {
    forall n | n in s ensures n in Among(names, s) {
      var k :| 0 <= k < |names| && names[k] == n;
    }
  }

  lemma SameElements(a: seq<Item>, b: seq<Item>)
    requires multiset(a) == multiset(b)
    ensures |a| == |b| && forall x :: x in a <==> x in b
  {
    assert |a| == |multiset(a)| && |b| == |multiset(b)|;
    forall x ensures x in a <==> x in b {
      assert x in a <==> x in multiset(a);
      assert x in b <==> x in multiset(b);
    }
  }

  /** The rows a listing reports about a directory: one per listed file,
      each showing that file's stat and its entry's annotations. */
  ghost predicate Rows(items: seq<Item>, doc: Doc, dir: Dir, fmt: Formats) {
    && (forall i :: 0 <= i < |items| ==> Shows(items[i], doc, dir, fmt))
    && (forall n :: n in ListedNames(dir) <==> exists i :: 0 <= i < |items| && items[i].name == n)
    && |items| == |ListedNames(dir)|
  }

  /** Before sorting, the scan has produced the rows in name order. */
  lemma ScannedRows(doc: Doc, dir: Dir, fmt: Formats)
    ensures var scanned := Scan(doc, dir, SortedKeys(dir.Keys), fmt).items;
      && Rows(scanned, doc, dir, fmt)
      && (forall i, j :: 0 <= i < j < |scanned| ==> NameLess(scanned[i].name, scanned[j].name))
  {
    var names := SortedKeys(dir.Keys);
    NamesOfDir(dir);
    ScanRows(doc, dir, names, fmt);
    SortedIsDistinct(names);
    ScanShows(doc, dir, names, fmt);
    ScanNames(doc, dir, names, fmt);
    ScanCovers(doc, dir, names, fmt);
    ScanCount(doc, dir, names, fmt);
  }

  /** A listed file has a row in the listing, and every row with its name
      shows it. */
  lemma RowOf(doc: Doc, dir: Dir, fmt: Formats, n: string)
    requires n in dir && Listed(n, dir[n])
    ensures var items := Pass(doc, dir, fmt).items;
      && (exists i :: 0 <= i < |items| && items[i].name == n)
      && forall i :: 0 <= i < |items| && items[i].name == n ==> Shows(items[i], doc, dir, fmt)
  {
    PassRows(doc, dir, fmt);
    assert n in ListedNames(dir);
  }

  /** A reordering of the rows is still the rows. */
  lemma ReorderedRows(scanned: seq<Item>, items: seq<Item>, doc: Doc, dir: Dir, fmt: Formats)
    requires Rows(scanned, doc, dir, fmt)
    requires multiset(items) == multiset(scanned)
    ensures Rows(items, doc, dir, fmt)
  {
    SameElements(items, scanned);
    forall i | 0 <= i < |items| ensures Shows(items[i], doc, dir, fmt) {
      assert items[i] in scanned;
    }
    forall n | n in ListedNames(dir) ensures exists i :: 0 <= i < |items| && items[i].name == n {
      var k :| 0 <= k < |scanned| && scanned[k].name == n;
      assert scanned[k] in items;
    }
    forall n | (exists i :: 0 <= i < |items| && items[i].name == n) ensures n in ListedNames(dir) {
      var i :| 0 <= i < |items| && items[i].name == n;
      assert items[i] in scanned;
    }
  }

  /** The rows of a pass: one per listed file, each showing that file's
      stat and its entry's annotations, newest first and by name among
      equal times. */
  lemma PassRows(doc: Doc, dir: Dir, fmt: Formats)
    ensures var items := Pass(doc, dir, fmt).items;
      && (forall i :: 0 <= i < |items| ==> Shows(items[i], doc, dir, fmt))
      && (forall n :: n in ListedNames(dir) <==> exists i :: 0 <= i < |items| && items[i].name == n)
      && |items| == |ListedNames(dir)|
      && OrderedBefore(items)
  {
    ScannedRows(doc, dir, fmt);
    var scanned := Scan(doc, dir, SortedKeys(dir.Keys), fmt).items;
    SortNewestFirstOrdered(scanned);
    ReorderedRows(scanned, SortNewestFirst(scanned), doc, dir, fmt);
  }

  /** Listing again right after a pass finds nothing to repair and leaves
      the document as the first pass wrote it. */
  lemma RelistIsClean(doc: Doc, dir: Dir, fmt: Formats)
    ensures var out := Pass(doc, dir, fmt);
      && !Pass(out.doc, dir, fmt).dirty
      && Pass(out.doc, dir, fmt).doc == out.doc
  {
    var out := Pass(doc, dir, fmt);
    var again := Pass(out.doc, dir, fmt);
    forall n ensures Lookup(again.doc, n) == Lookup(out.doc, n) && !Broken(out.doc, dir, n, fmt) {
      PassDocument(doc, dir, fmt, n);
      PassDocument(out.doc, dir, fmt, n);
      if n in dir && Listed(n, dir[n]) {
        var node := dir[n];
        RepairIsStable(Lookup(doc, n), node.size, fmt.sizeText(node.size), fmt.timeText(node.mtime));
      }
    }
    LookupExtensional(again.doc, out.doc);
    PassDirty(out.doc, dir, fmt);
  }

  /** On the relisting every row shows the speaker stored in its own record. */
  lemma RelistShowsOwnSpeaker(doc: Doc, dir: Dir, fmt: Formats)
    ensures var out := Pass(doc, dir, fmt);
      var items := Pass(out.doc, dir, fmt).items;
      forall i :: 0 <= i < |items| ==>
        && Lookup(out.doc, items[i].name).Some? && Lookup(out.doc, items[i].name).value.Record?
        && items[i].speaker == SpeakerField(Lookup(out.doc, items[i].name).value.fields)
  {
    var out := Pass(doc, dir, fmt);
    var items := Pass(out.doc, dir, fmt).items;
    PassRows(out.doc, dir, fmt);
    forall i | 0 <= i < |items|
      ensures Lookup(out.doc, items[i].name).Some? && Lookup(out.doc, items[i].name).value.Record?
    {
      assert Shows(items[i], out.doc, dir, fmt);
      PassDocument(doc, dir, fmt, items[i].name);
    }
  }

  /** The row of a bare-string or missing entry shows the speaker the loop
      last bound, while the record written for it has an empty speaker. */
  lemma CarriedSpeaker(p: Progress, name: string, node: Node, fmt: Formats)
    requires Listed(name, node)
    requires !(Lookup(p.doc, name).Some? && Lookup(p.doc, name).value.Record?)
    ensures var q := Visit(p, name, node, fmt);
      && |q.items| == |p.items| + 1
      && q.items[|p.items|].speaker == p.speaker
      && q.speaker == p.speaker
      && name in q.doc && q.doc[name].Record? && q.doc[name].fields["speaker"] == JStr("")
  {
  }

  /** Two listed files visited in a row, the first with an object entry and
      the second with a bare label: the second row shows the first entry's
      speaker while the record written for it has an empty one. */
  lemma StaleSpeakerExample(doc: Doc, dir: Dir, fmt: Formats, a: string, b: string, f: Fields)
    requires a != b && a in dir && b in dir && Listed(a, dir[a]) && Listed(b, dir[b])
    requires Lookup(doc, a) == Some(Record(f)) && Lookup(doc, b).Some? && Lookup(doc, b).value.Legacy?
    ensures var p := Scan(doc, dir, [a, b], fmt);
      && |p.items| == 2 && p.items[1].name == b && p.items[1].speaker == SpeakerField(f)
      && b in p.doc && p.doc[b].Record? && p.doc[b].fields["speaker"] == JStr("")
  {
    var p0 := Progress(doc, [], false, "");
    var p1 := Visit(p0, a, dir[a], fmt);
    assert Scan(doc, dir, [a], fmt) == p1 by {
      assert [a][..0] == [];
    }
    assert Scan(doc, dir, [a, b], fmt) == Visit(p1, b, dir[b], fmt) by {
      assert [a, b][..1] == [a];
    }
    VisitRecord(p0, a, dir[a], fmt, f);
    CarriedSpeaker(p1, b, dir[b], fmt);
  }

  /** Visiting a listed file with an object entry adds one row, binds the
      entry's speaker and leaves every other entry alone. */
  lemma VisitRecord(p: Progress, name: string, node: Node, fmt: Formats, f: Fields)
    requires Listed(name, node) && Lookup(p.doc, name) == Some(Record(f))
    ensures var q := Visit(p, name, node, fmt);
      && |q.items| == |p.items| + 1
      && q.speaker == SpeakerField(f)
      && forall n :: n != name ==> Lookup(q.doc, n) == Lookup(p.doc, n)
  {
  }
}
