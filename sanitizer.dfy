/** The filename sanitiser `_safe_filename`: every client-supplied name,
    on upload and on every endpoint that takes a filename, is mapped to a
    short basename over [A-Za-z0-9._-] before it touches the upload
    directory. */
module Sanitizer {
  import opened Text
  import opened Paths

  /** Longest name kept whole; above it the name is cut down. */
  const MaxLength: nat := 200
  /** How much of the stem and of the extension survive the cut. */
  const StemKeep: nat := 180
  const ExtKeep: nat := 20

  predicate IsSafeChar(c: char) {
    ('A' <= c <= 'Z') || ('a' <= c <= 'z') || ('0' <= c <= '9') || c == '.' || c == '_' || c == '-'
  }

  /** What the sanitiser promises: a non-empty name of at most 200 safe
      characters that is neither "." nor "..". */
  predicate IsSafeName(s: string) {
    && 0 < |s| <= MaxLength
    && (forall i :: 0 <= i < |s| ==> IsSafeChar(s[i]))
    && s != "."
    && s != ".."
  }

  /** str.replace("\x00", ""): every NUL removed, everything else kept in order. */
  function DropNul(s: string): (r: string)
    ensures |r| <= |s|
    ensures forall i :: 0 <= i < |r| ==> r[i] != '\0'
    ensures (forall i :: 0 <= i < |s| ==> s[i] != '\0') ==> r == s
  {
    if s == [] then []
    else if s[0] == '\0' then DropNul(s[1..])
    else [s[0]] + DropNul(s[1..])
  }

  /** NUL removal works character by character: a single character is
      dropped exactly when it is NUL, and the removal distributes over
      concatenation, so every other character stays in order. */
  lemma {:induction false} DropNulAppend(a: string, b: string)
    ensures DropNul(a + b) == DropNul(a) + DropNul(b)
  {
    if a == [] {
      assert a + b == b;
    } else {
      var ab := a + b;
      assert ab[0] == a[0] && ab[1..] == a[1..] + b;
      DropNulAppend(a[1..], b);
    }
  }

  /** A single character is dropped exactly when it is removed by the rule. */
  lemma DropNulOne(c: char)
    ensures DropNul([c]) == if c == '\0' then [] else [c]
  {
    assert [c][1..] == [];
  }

  /** re.sub(r"[^A-Za-z0-9._-]", "_", s): one character for one. */
  function Scrub(s: string): (r: string)
    ensures |r| == |s|
    ensures forall i :: 0 <= i < |r| ==> IsSafeChar(r[i])
    ensures forall i :: 0 <= i < |s| && IsSafeChar(s[i]) ==> r[i] == s[i]
    ensures forall i :: 0 <= i < |s| && !IsSafeChar(s[i]) ==> r[i] == '_'
  {
    seq(|s|, i requires 0 <= i < |s| => if IsSafeChar(s[i]) then s[i] else '_')
  }

  function Min(a: nat, b: nat): nat {
    if a <= b then a else b
  }

  /** The length cap: a name over 200 characters keeps the first 180
      characters of its stem and the first 20 of its extension. */
  function Truncate(s: string): (r: string)
    requires s != [] && s != "." && s != ".."
    requires forall i :: 0 <= i < |s| ==> IsSafeChar(s[i])
    ensures IsSafeName(r)
    ensures |s| <= MaxLength ==> r == s
  {
    if |s| <= MaxLength then s
    else
      var parts := SplitExt(s);
      CutIsSafe(s, parts.0, parts.1);
      parts.0[..Min(|parts.0|, StemKeep)] + parts.1[..Min(|parts.1|, ExtKeep)]
  }

  lemma CutIsSafe(s: string, root: string, ext: string)
    requires forall i :: 0 <= i < |s| ==> IsSafeChar(s[i])
    requires |s| > MaxLength && root + ext == s
    ensures IsSafeName(root[..Min(|root|, StemKeep)] + ext[..Min(|ext|, ExtKeep)])
  {
    var a := root[..Min(|root|, StemKeep)];
    var b := ext[..Min(|ext|, ExtKeep)];
    forall i | 0 <= i < |a| ensures IsSafeChar(a[i]) {
      assert a[i] == s[i];
    }
    forall i | 0 <= i < |b| ensures IsSafeChar(b[i]) {
      assert b[i] == s[|root| + i];
    }
    assert |a + b| >= ExtKeep;
  }

  /** The name used when nothing usable is left. */
  const Fallback: string := "file"

  /** The first line of `_safe_filename`: last component, stripped, NULs
      dropped, every other character outside the safe set replaced. */
  function Cleaned(name: string): (r: string)
    ensures forall i :: 0 <= i < |r| ==> IsSafeChar(r[i])
  {
    Scrub(DropNul(Strip(Basename(name))))
  }

  /** The rest of `_safe_filename`: the fallback for an empty or dot-only
      result, then the length cap. */
  function Settle(base: string): (r: string)
    requires forall i :: 0 <= i < |base| ==> IsSafeChar(base[i])
    ensures IsSafeName(r)
    ensures base == [] || base == "." || base == ".." ==> r == Fallback
    ensures !(base == [] || base == "." || base == "..") ==> r == Truncate(base)
  {
    if base == [] || base == "." || base == ".." then Fallback else Truncate(base)
  }

  /** `_safe_filename`. */
  function SafeFilename(name: string): (r: string)
    ensures IsSafeName(r)
  {
    Settle(Cleaned(name))
  }

  /** A safe name has no '/', no whitespace, no NUL and no character to
      replace, so the first line of the sanitiser leaves it alone. */
  lemma CleanedKeepsSafe(s: string)
    requires IsSafeName(s)
    ensures Cleaned(s) == s
  {
    assert forall i :: 0 <= i < |s| ==> s[i] != '/' && !IsSpace(s[i]) && s[i] != '\0';
    assert Basename(s) == s;
    StripKeeps(s);
  }

  /** A name that already satisfies the promise passes through unchanged:
      this is what lets the download, stream and update handlers re-derive
      a stored name such as "000001.mp3" from client input. */
  lemma SafeNamesAreFixed(s: string)
    requires IsSafeName(s)
    ensures SafeFilename(s) == s
  {
    CleanedKeepsSafe(s);
  }

  /** The names the sanitiser leaves alone are exactly the safe names. */
  lemma SafeFilenameFixedPoints(s: string)
    ensures SafeFilename(s) == s <==> IsSafeName(s)
  {
    if IsSafeName(s) {
      SafeNamesAreFixed(s);
    }
  }

  /** Sanitising twice is sanitising once. */
  lemma SafeFilenameIdempotent(name: string)
    ensures SafeFilename(SafeFilename(name)) == SafeFilename(name)
  {
    SafeNamesAreFixed(SafeFilename(name));
  }

  /** Cutting an over-long name whose extension is at most 20 characters and
      whose first character is not a dot keeps that extension intact and
      keeps exactly 180 characters of the stem. */
  lemma TruncateKeepsShortExtension(s: string)
    requires s != [] && s != "." && s != ".."
    requires forall i :: 0 <= i < |s| ==> IsSafeChar(s[i])
    requires |s| > MaxLength && |SplitExt(s).1| <= ExtKeep && s[0] != '.'
    ensures SplitExt(Truncate(s)) == (SplitExt(s).0[..StemKeep], SplitExt(s).1)
  {
    var root, ext := SplitExt(s).0, SplitExt(s).1;
    var t := Truncate(s);
    var stem := root[..StemKeep];
    assert t == stem + ext;
    assert forall i :: 0 <= i < |t| ==> t[i] != '/';
    if ext == [] {
      NoExtensionMeansNoDot(s);
      assert root == s && t == s[..StemKeep];
      assert forall i :: 0 <= i < |t| ==> t[i] == s[i];
      SplitExtWithoutDot(t);
    } else {
      assert t[0] == s[0];
      SplitExtAt(t, |stem|);
      assert t[..|stem|] == stem && t[|stem|..] == ext;
    }
  }

  /** A name with no '/' whose first character is not a dot has an
      extension as soon as it has a dot. */
  lemma NoExtensionMeansNoDot(s: string)
    requires s != [] && s[0] != '.' && forall i :: 0 <= i < |s| ==> s[i] != '/'
    requires SplitExt(s).1 == []
    ensures forall i :: 0 <= i < |s| ==> s[i] != '.'
  {
    assert LastIndexOf(s, '/') == -1;
    var dot := LastIndexOf(s, '.');
    assert dot < 0;
  }

  lemma SplitExtWithoutDot(t: string)
    requires forall i :: 0 <= i < |t| ==> t[i] != '.'
    ensures SplitExt(t) == (t, [])
  {
    assert LastIndexOf(t, '.') == -1;
  }

  lemma SplitExtAt(t: string, d: nat)
    requires 0 < d < |t| && t[d] == '.' && t[0] != '.'
    requires forall i :: 0 <= i < |t| ==> t[i] != '/'
    requires forall i :: d < i < |t| ==> t[i] != '.'
    ensures SplitExt(t) == (t[..d], t[d..])
  {
    assert LastIndexOf(t, '/') == -1;
    assert LastIndexOf(t, '.') == d;
  }

  /** A traversal attempt is reduced to its last component: whatever
      precedes the last '/' ("../../etc/" in "../../etc/passwd") is dropped
      before anything else happens. */
  lemma DirectoriesAreDropped(p: string, k: nat)
    requires k < |p| && p[k] == '/'
    requires forall i :: k < i < |p| ==> p[i] != '/'
    ensures SafeFilename(p) == SafeFilename(p[k + 1..])
  {
    var b := p[k + 1..];
    BasenameAfterSlash(p, k);
    assert Basename(b) == b;
    assert Cleaned(p) == Cleaned(b);
  }
}
