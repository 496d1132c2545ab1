/** `list_files`: the pass that reconciles the upload directory with the
    metadata document on every page load. It walks the directory in name
    order, repairs or creates the record of every listed audio file, collects
    one item per file, sorts the items newest first and reports whether the
    document needs writing back. */
module Listing {
  import opened Text
  import opened Paths
  import opened PyJson
  import opened Layout

  /** One row of the listing. */
  datatype Item = Item(name: string, size: nat, sizeH: string, mtime: real, mtimeIso: string,
                       labelText: string, verified: bool, lang: string, gender: string,
                       speaker: string)

  // ---------------------------------------------------------------------
  // sorted(UPLOAD_DIR.glob("*")): the entry names in Python's string order

  predicate IsLeast(m: string, s: set<string>) {
    m in s && forall n :: n in s && n != m ==> NameLess(m, n)
  }

  lemma {:induction false} LeastExists(s: set<string>)
    requires s != {}
    ensures exists m :: IsLeast(m, s)
    decreases |s|
  {
    var x :| x in s;
    if s == {x} {
      assert IsLeast(x, s);
    } else {
      LeastExists(s - {x});
      var m :| IsLeast(m, s - {x});
      NameLessTotal(m, x);
      if NameLess(m, x) {
        assert IsLeast(m, s);
      } else {
        forall n | n in s && n != x ensures NameLess(x, n) {
          if n != m {
            NameLessTransitive(x, m, n);
          }
        }
        assert IsLeast(x, s);
      }
    }
  }

  lemma LeastUnique(s: set<string>)
    ensures forall m, m' :: IsLeast(m, s) && IsLeast(m', s) ==> m == m'
  {
    forall m, m' | IsLeast(m, s) && IsLeast(m', s) ensures m == m' {
      if m != m' {
        NameLessAsymmetric(m, m');
      }
    }
  }

  predicate StrictlySorted(r: seq<string>) {
    forall i, j :: 0 <= i < j < |r| ==> NameLess(r[i], r[j])
  }

  /** The names of a directory in ascending order, each once. */
  function SortedKeys(s: set<string>): (r: seq<string>)
    ensures |r| == |s|
    ensures forall n :: n in r <==> n in s
    ensures StrictlySorted(r)
    decreases |s|
  {
    if s == {} then []
    else
      LeastExists(s);
      LeastUnique(s);
      var m :| IsLeast(m, s);
      var rest := SortedKeys(s - {m});
      LeastFirst(m, s, rest);
      [m] + rest
  }

  /** The least name followed by the others in order is in order. */
  lemma LeastFirst(m: string, s: set<string>, rest: seq<string>)
    requires IsLeast(m, s) && StrictlySorted(rest)
    requires forall n :: n in rest ==> n in s - {m}
    ensures StrictlySorted([m] + rest)
  {
    var r := [m] + rest;
    forall i, j | 0 <= i < j < |r| ensures NameLess(r[i], r[j]) {
      assert r[j] == rest[j - 1] && rest[j - 1] in rest;
      if i > 0 {
        assert r[i] == rest[i - 1];
      }
    }
  }

  // ---------------------------------------------------------------------
  // items.sort(key=lambda x: x["mtime"], reverse=True): stable, newest first

  /** The order the listing promises: newer first, and among equal times
      the name that sorts first. */
  predicate Before(a: Item, b: Item) {
    a.mtime > b.mtime || (a.mtime == b.mtime && NameLess(a.name, b.name))
  }

  /** x placed after every item at least as new as it. */
  function InsertByTime(r: seq<Item>, x: Item): (q: seq<Item>)
    ensures multiset(q) == multiset(r) + multiset{x}
  {
    if r == [] then [x]
    else if r[0].mtime >= x.mtime then
      assert r == [r[0]] + r[1..];
      [r[0]] + InsertByTime(r[1..], x)
    else [x] + r
  }

  /** Python's stable sort on mtime with reverse=True. */
  function SortNewestFirst(items: seq<Item>): (r: seq<Item>)
    ensures multiset(r) == multiset(items)
  {
    if items == [] then []
    else
      assert items == items[..|items| - 1] + [items[|items| - 1]];
      InsertByTime(SortNewestFirst(items[..|items| - 1]), items[|items| - 1])
  }

  predicate OrderedBefore(r: seq<Item>) {
    forall i, j :: 0 <= i < j < |r| ==> Before(r[i], r[j])
  }

  lemma {:induction false} InsertKeepsOrder(r: seq<Item>, x: Item)
    requires OrderedBefore(r)
    requires forall y :: y in r ==> NameLess(y.name, x.name)
    ensures OrderedBefore(InsertByTime(r, x))
  {
    if r != [] {
      if r[0].mtime >= x.mtime {
        var rest := InsertByTime(r[1..], x);
        InsertKeepsOrder(r[1..], x);
        forall y | y in rest ensures Before(r[0], y) {
          assert y in multiset(rest);
          if y != x {
            assert y in r[1..];
            var k :| 0 <= k < |r[1..]| && r[1..][k] == y;
            assert r[k + 1] == y;
          }
        }
        ConsOrdered(r[0], rest);
      } else {
        forall y | y in r ensures Before(x, y) {
          var j :| 0 <= j < |r| && r[j] == y;
          if j > 0 {
            assert Before(r[0], r[j]);
          }
        }
        ConsOrdered(x, r);
      }
    }
  }

  /** An item before every item of an ordered sequence can lead it. */
  lemma ConsOrdered(a: Item, r: seq<Item>)
    requires OrderedBefore(r)
    requires forall y :: y in r ==> Before(a, y)
    ensures OrderedBefore([a] + r)
  {
    var q := [a] + r;
    forall i, j | 0 <= i < j < |q| ensures Before(q[i], q[j]) {
      assert q[j] == r[j - 1];
      if i > 0 {
        assert q[i] == r[i - 1];
      }
    }
  }

  /** Items arriving in ascending name order come out newest first, and
      equal times keep ascending name order. */
  lemma {:induction false} SortNewestFirstOrdered(items: seq<Item>)
    requires forall i, j :: 0 <= i < j < |items| ==> NameLess(items[i].name, items[j].name)
    ensures OrderedBefore(SortNewestFirst(items))
  {
    if items != [] {
      var init, x := items[..|items| - 1], items[|items| - 1];
      SortNewestFirstOrdered(init);
      var r := SortNewestFirst(init);
      forall y | y in r ensures NameLess(y.name, x.name) {
        assert y in multiset(init);
        var k :| 0 <= k < |init| && init[k] == y;
      }
      InsertKeepsOrder(r, x);
    }
  }

  // ---------------------------------------------------------------------
  // One file: the repaired record, the dirty test and the row

  /** The in-place default filling of the five annotation keys. */
  function Filled(f: Fields): Fields {
    var f1 := if "label" in f then f else f["label" := JStr("")];
    var f2 := if "verified" in f1 then f1 else f1["verified" := JBool(false)];
    var f3 := if "lang" in f2 then f2 else f2["lang" := JStr(DefaultLang)];
    var f4 := if "gender" in f3 then f3 else f3["gender" := JStr(DefaultGender)];
    if "speaker" in f4 then f4 else f4["speaker" := JStr("")]
  }

  /** Filling in defaults keeps every key the entry had with its value and
      adds exactly the missing annotation keys. */
  lemma FilledKeeps(f: Fields)
    ensures forall k :: k in f ==> k in Filled(f) && Filled(f)[k] == f[k]
    ensures Filled(f).Keys == f.Keys + {"label", "verified", "lang", "gender", "speaker"}
  {
  }

  predicate LacksAnnotation(f: Fields) {
    !("label" in f && "verified" in f && "lang" in f && "gender" in f && "speaker" in f)
  }

  /** What sets `dirty` for one listed file: an entry that is not an object,
      lacks an annotation key, or caches a size or time that differs from
      the live stat. */
  predicate NeedsRepair(e: Option<Entry>, size: nat, sizeH: string, mtimeIso: string) {
    match e
    case Some(Record(f)) =>
      || LacksAnnotation(f)
      || !EqualsStr(Get(f, "size_h"), sizeH)
      || !EqualsInt(Get(f, "size_bytes"), size)
      || !EqualsStr(Get(f, "mtime_iso"), mtimeIso)
    case _ => true
  }

  /** The label, verified, lang and gender the listing settles on. */
  function Settled(e: Option<Entry>): Annotation {
    match e
    case Some(Record(f)) => AnnotationOf(Some(Record(Filled(f))))
    case _ => AnnotationOf(e)
  }

  /** The speaker of an object entry. */
  function SpeakerField(f: Fields): string {
    StrOr(Get(Filled(f), "speaker"), "")
  }

  /** The eight-key record the listing stores for a listed file. */
  function Repaired(e: Option<Entry>, size: nat, sizeH: string, mtimeIso: string): (f: Fields)
    ensures f.Keys == EightKeys
  {
    match e
    case Some(Record(g)) =>
      Entry8(Settled(e), SpeakerField(g), JStr(sizeH),
             if EqualsInt(Get(g, "size_bytes"), size) then g["size_bytes"] else JInt(size),
             JStr(mtimeIso))
    case _ => Entry8(Settled(e), "", JStr(sizeH), JInt(size), JStr(mtimeIso))
  }

  /** The record stored for entry name of doc when the file is node. */
  function RepairedFor(doc: Doc, name: string, node: Node, fmt: Formats): Fields
    requires node.File?
  {
    Repaired(Lookup(doc, name), node.size, fmt.sizeText(node.size), fmt.timeText(node.mtime))
  }

  /** The loop state: the document, the rows so far, the dirty flag, and the
      last value bound to the loop's `speaker` variable. Python binds it only
      for object entries and the row reads it through locals(), so a row for a
      bare-string or missing entry shows the speaker of the last object entry
      before it (or "" before the first). */
  datatype Progress = Progress(doc: Doc, items: seq<Item>, dirty: bool, speaker: string)

  function Visit(p: Progress, name: string, node: Node, fmt: Formats): Progress {
    if !Listed(name, node) then p
    else
      var sizeH, mtimeIso := fmt.sizeText(node.size), fmt.timeText(node.mtime);
      var e := Lookup(p.doc, name);
      var a := Settled(e);
      var speaker := if e.Some? && e.value.Record? then SpeakerField(e.value.fields) else p.speaker;
      Progress(p.doc[name := Record(Repaired(e, node.size, sizeH, mtimeIso))],
               p.items + [Item(name, node.size, sizeH, node.mtime, mtimeIso,
                               a.labelText, a.verified, a.lang, a.gender, speaker)],
               p.dirty || NeedsRepair(e, node.size, sizeH, mtimeIso),
               speaker)
  }

  function Scan(doc: Doc, dir: Dir, names: seq<string>, fmt: Formats): Progress
    requires forall k :: 0 <= k < |names| ==> names[k] in dir
  {
    if names == [] then Progress(doc, [], false, "")
    else
      var last := names[|names| - 1];
      Visit(Scan(doc, dir, names[..|names| - 1], fmt), last, dir[last], fmt)
  }

  /** Scanning one more name is visiting it after the shorter scan. */
  lemma ScanStep(doc: Doc, dir: Dir, names: seq<string>, i: nat, fmt: Formats)
    requires i < |names| && forall k :: 0 <= k < |names| ==> names[k] in dir
    ensures Scan(doc, dir, names[..i + 1], fmt) == Visit(Scan(doc, dir, names[..i], fmt), names[i], dir[names[i]], fmt)
  {
    assert names[..i + 1][..i] == names[..i];
  }

  datatype Outcome = Outcome(doc: Doc, items: seq<Item>, dirty: bool)

  /** One listing pass over doc and dir. */
  function Pass(doc: Doc, dir: Dir, fmt: Formats): Outcome {
    var p := Scan(doc, dir, SortedKeys(dir.Keys), fmt);
    Outcome(p.doc, SortNewestFirst(p.items), p.dirty)
  }

  /** The five `if key not in meta_val` steps of the object branch. */
  method FillDefaults(f: Fields) returns (g: Fields, changed: bool)
    ensures g == Filled(f)
    ensures changed == LacksAnnotation(f)
  {
    g, changed := f, false;
    if "label" !in g { g := g["label" := JStr("")]; changed := true; }
    if "verified" !in g { g := g["verified" := JBool(false)]; changed := true; }
    if "lang" !in g { g := g["lang" := JStr(DefaultLang)]; changed := true; }
    if "gender" !in g { g := g["gender" := JStr(DefaultGender)]; changed := true; }
    if "speaker" !in g { g := g["speaker" := JStr("")]; changed := true; }
  }

  /** The three cache refreshes of the object branch. */
  method RefreshStat(g: Fields, size: nat, sizeH: string, mtimeIso: string)
    returns (sizeHOut: Json, sizeBytes: Json, mtimeOut: Json, changed: bool)
    ensures sizeHOut == JStr(sizeH) && mtimeOut == JStr(mtimeIso)
    ensures sizeBytes == if EqualsInt(Get(g, "size_bytes"), size) then g["size_bytes"] else JInt(size)
    ensures changed == (!EqualsStr(Get(g, "size_h"), sizeH) || !EqualsInt(Get(g, "size_bytes"), size)
                        || !EqualsStr(Get(g, "mtime_iso"), mtimeIso))
  {
    var h := g;
    changed := false;
    if !EqualsStr(Get(h, "size_h"), sizeH) { h := h["size_h" := JStr(sizeH)]; changed := true; }
    if !EqualsInt(Get(h, "size_bytes"), size) { h := h["size_bytes" := JInt(size)]; changed := true; }
    if !EqualsStr(Get(h, "mtime_iso"), mtimeIso) { h := h["mtime_iso" := JStr(mtimeIso)]; changed := true; }
    sizeHOut, sizeBytes, mtimeOut := h["size_h"], h["size_bytes"], h["mtime_iso"];
  }

  /** The repair of an object entry, read off the entry with its defaults
      filled in: filling keeps the cached stat, so the refresh sees the
      same size and time fields. */
  lemma RepairedFromFilled(f: Fields, size: nat, sizeH: string, mtimeIso: string)
    ensures var g := Filled(f);
      && Repaired(Some(Record(f)), size, sizeH, mtimeIso)
         == Entry8(AnnotationOf(Some(Record(g))), StrOr(Get(g, "speaker"), ""), JStr(sizeH),
                   if EqualsInt(Get(g, "size_bytes"), size) then g["size_bytes"] else JInt(size),
                   JStr(mtimeIso))
      && (NeedsRepair(Some(Record(f)), size, sizeH, mtimeIso) <==>
            || LacksAnnotation(f)
            || !EqualsStr(Get(g, "size_h"), sizeH)
            || !EqualsInt(Get(g, "size_bytes"), size)
            || !EqualsStr(Get(g, "mtime_iso"), mtimeIso))
  {
    FilledKeepsStat(f);
  }

  lemma FilledKeepsStat(f: Fields)
    ensures var g := Filled(f);
      && Get(g, "size_bytes") == Get(f, "size_bytes")
      && Get(g, "size_h") == Get(f, "size_h") && Get(g, "mtime_iso") == Get(f, "mtime_iso")
  {
    FilledKeeps(f);
  }

  /** The object branch of the loop body. */
  method RepairRecord(f: Fields, size: nat, sizeH: string, mtimeIso: string)
    returns (rebuilt: Fields, a: Annotation, speaker: string, changed: bool)
    ensures rebuilt == Repaired(Some(Record(f)), size, sizeH, mtimeIso)
    ensures a == Settled(Some(Record(f)))
    ensures speaker == SpeakerField(f)
    ensures changed == NeedsRepair(Some(Record(f)), size, sizeH, mtimeIso)
  {
    var g, filled := FillDefaults(f);
    RepairedFromFilled(f, size, sizeH, mtimeIso);
    a := Annotation(StrOr(Get(g, "label"), ""), TruthyOr(Get(g, "verified")),
                    StrOr(Get(g, "lang"), DefaultLang), StrOr(Get(g, "gender"), DefaultGender));
    speaker := StrOr(Get(g, "speaker"), "");
    var sizeHOut, sizeBytes, mtimeOut, refreshed := RefreshStat(g, size, sizeH, mtimeIso);
    rebuilt := Entry8(a, speaker, sizeHOut, sizeBytes, mtimeOut);
    changed := filled || refreshed;
  }

  /** One listed file: the rebuilt record, the annotations shown in its row,
      the loop's `speaker` variable afterwards, and whether the file makes
      the document dirty. */
  method RepairEntry(metaVal: Option<Entry>, size: nat, sizeH: string, mtimeIso: string, speakerIn: string)
    returns (rebuilt: Fields, a: Annotation, speaker: string, changed: bool)
    ensures rebuilt == Repaired(metaVal, size, sizeH, mtimeIso)
    ensures a == Settled(metaVal)
    ensures speaker == if metaVal.Some? && metaVal.value.Record? then SpeakerField(metaVal.value.fields) else speakerIn
    ensures changed == NeedsRepair(metaVal, size, sizeH, mtimeIso)
  {
    match metaVal {
      case Some(Record(f)) =>
        rebuilt, a, speaker, changed := RepairRecord(f, size, sizeH, mtimeIso);
      case Some(Legacy(s)) =>
        a, speaker, changed := Defaults.(labelText := s), speakerIn, true;
        rebuilt := Entry8(a, "", JStr(sizeH), JInt(size), JStr(mtimeIso));
      case _ =>
        a, speaker, changed := Defaults, speakerIn, true;
        rebuilt := Entry8(a, "", JStr(sizeH), JInt(size), JStr(mtimeIso));
    }
  }

  /** One iteration of the loop of `list_files`: skip a path that is not a
      listed audio file, otherwise repair its record and append its row. */
  method VisitPath(metadata: Doc, items: seq<Item>, dirty: bool, speaker: string,
                   name: string, node: Node, fmt: Formats)
    returns (metadata': Doc, items': seq<Item>, dirty': bool, speaker': string)
    ensures Progress(metadata', items', dirty', speaker') == Visit(Progress(metadata, items, dirty, speaker), name, node, fmt)
  {
    metadata', items', dirty', speaker' := metadata, items, dirty, speaker;
    if node.File? && name != MetadataName && AsciiLower(Suffix(name)) in AllowedExtensions {
      var sizeH := fmt.sizeText(node.size);
      var mtimeIso := fmt.timeText(node.mtime);
      var rebuilt, a, changed;
      rebuilt, a, speaker', changed := RepairEntry(Lookup(metadata, name), node.size, sizeH, mtimeIso, speaker);
      metadata' := metadata[name := Record(rebuilt)];
      dirty' := dirty || changed;
      items' := items + [Item(name, node.size, sizeH, node.mtime, mtimeIso,
                              a.labelText, a.verified, a.lang, a.gender, speaker')];
    }
  }

  /** The body of `list_files` without its I/O: the document it loaded, the
      directory it globbed; it returns the normalised document, the rows and
      the dirty flag that decides the write-back. */
  method ScanUploads(doc: Doc, dir: Dir, fmt: Formats) returns (metadata: Doc, items: seq<Item>, dirty: bool)
    ensures Outcome(metadata, items, dirty) == Pass(doc, dir, fmt)
  {
    metadata, items, dirty := doc, [], false;
    // Unbound in Python until the first object entry; rows then read "".
    var speaker := "";
    var names := SortedKeys(dir.Keys);
    for i := 0 to |names|
      invariant Progress(metadata, items, dirty, speaker) == Scan(doc, dir, names[..i], fmt)
    {
      ScanStep(doc, dir, names, i, fmt);
      metadata, items, dirty, speaker := VisitPath(metadata, items, dirty, speaker, names[i], dir[names[i]], fmt);
    }
    assert names[..|names|] == names;
    items := SortNewestFirst(items);
  }
}
