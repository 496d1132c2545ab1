/** The sequential id allocator shared by `upload` and `upload_outside`:
    stored audio files are named by a zero-padded six-digit counter followed
    by the lower-cased extension of the client's name. */
module Allocator {
  import opened Text
  import opened Paths
  import opened Layout

  /** An entry the counter scan counts: a regular file other than the
      sidecar whose pathlib stem is exactly six ASCII digits. */
  predicate HoldsId(name: string, node: Node) {
    name != MetadataName && node.File? && |Stem(name)| == 6 && AllDigits(Stem(name))
  }

  /** The ids already present in the directory. */
  function ExistingIds(dir: Dir): set<nat> {
    set n | n in dir && HoldsId(n, dir[n]) :: DigitsValue(Stem(n))
  }

  function SeqMax(s: seq<nat>): (m: nat)
    requires s != []
    ensures m in s && forall k :: 0 <= k < |s| ==> s[k] <= m
  {
    if |s| == 1 then s[0]
    else
      var m := SeqMax(s[..|s| - 1]);
      assert forall k :: 0 <= k < |s| - 1 ==> s[..|s| - 1][k] == s[k];
      if s[|s| - 1] > m then s[|s| - 1] else m
  }

  /** Where the counter starts: one above the largest id present, or 1. */
  ghost predicate IsStart(dir: Dir, next: nat) {
    && next >= 1
    && (forall id :: id in ExistingIds(dir) ==> id < next)
    && (next == 1 || next - 1 in ExistingIds(dir))
  }

  /** The first loop of `upload`: gather the six-digit stems and start one
      above the largest. */
  method StartNumber(dir: Dir) returns (next: nat)
    ensures IsStart(dir, next)
  {
    var nums: seq<nat> := [];
    var rest := dir.Keys;
    while rest != {}
      invariant rest <= dir.Keys
      invariant forall k :: 0 <= k < |nums| ==> nums[k] in ExistingIds(dir)
      invariant forall n :: n in dir && n !in rest && HoldsId(n, dir[n]) ==> DigitsValue(Stem(n)) in nums
      decreases |rest|
    {
      var p :| p in rest;
      if p != MetadataName && dir[p].File? {
        var stem := Stem(p);
        if |stem| == 6 && AllDigits(stem) {
          nums := nums + [DigitsValue(stem)];
        }
      }
      rest := rest - {p};
    }
    next := if nums != [] then SeqMax(nums) + 1 else 1;
    forall id | id in ExistingIds(dir) ensures id < next {
      var n :| n in dir && HoldsId(n, dir[n]) && DigitsValue(Stem(n)) == id;
      assert id in nums;
    }
  }

  /** f"{n:06d}": the decimal digits of n, zero-padded on the left to six. */
  function ZeroPad(n: nat): string {
    var d := Decimal(n);
    if |d| >= 6 then d else Zeros(6 - |d|) + d
  }

  /** The padded form is all digits, reads back as n, and is at least six
      characters and at least as long as the plain decimal form. */
  lemma ZeroPadDigits(n: nat)
    ensures AllDigits(ZeroPad(n)) && DigitsValue(ZeroPad(n)) == n
    ensures |ZeroPad(n)| >= 6 && |ZeroPad(n)| >= |Decimal(n)|
  {
    var d := Decimal(n);
    if |d| < 6 {
      ZerosPrefixValue(6 - |d|, d);
    }
  }

  /** A number below a million pads to exactly six digits; from a million
      on the rendering has seven or more. */
  lemma ZeroPadLength(n: nat)
    ensures n < 1000000 <==> |ZeroPad(n)| == 6
  {
    ZeroPadDigits(n);
    assert Pow10(6) == 1000000;
    if n < 1000000 {
      DecimalShort(n, 6);
    } else {
      DecimalLength(n, 6);
    }
  }

  /** The probed name. */
  function Candidate(n: nat, ext: string): string {
    ZeroPad(n) + ext
  }

  /** The allowed extensions are a dot followed by letters and digits. */
  lemma AllowedShape(ext: string)
    requires ext in AllowedExtensions
    ensures |ext| >= 2 && ext[0] == '.'
    ensures forall i :: 1 <= i < |ext| ==> ext[i] != '.'
  {
  }

  /** The id of a stored name reads back: the stem of Candidate(n, ext) is
      the padded number and its suffix is ext, so a later scan counts it as
      id n exactly when n is below a million. */
  lemma CandidateRoundTrip(n: nat, ext: string)
    requires ext in AllowedExtensions
    ensures Stem(Candidate(n, ext)) == ZeroPad(n)
    ensures Suffix(Candidate(n, ext)) == ext
    ensures HoldsId(Candidate(n, ext), File(0, 0.0)) <==> n < 1000000
    ensures n < 1000000 ==> DigitsValue(Stem(Candidate(n, ext))) == n
  {
    var c, d := Candidate(n, ext), ZeroPad(n);
    ZeroPadDigits(n);
    AllowedShape(ext);
    assert c[|d|] == '.';
    assert forall i :: |d| < i < |c| ==> c[i] == ext[i - |d|];
    var k := LastIndexOf(c, '.');
    assert k == |d|;
    assert c[..k] == d;
    ZeroPadLength(n);
    assert c[0] == d[0] && IsDigit(d[0]);
    assert MetadataName[0] == 'm';
  }

  /** id is the first number from `from` on whose candidate name is not
      among names: the one the probe loop settles on. */
  ghost predicate FirstFree(names: set<string>, from: nat, id: nat, ext: string) {
    && from <= id
    && Candidate(id, ext) !in names
    && forall k :: from <= k < id ==> Candidate(k, ext) in names
  }

  /** The counter's start is determined by the directory. */
  lemma {:induction false} StartIsUnique(dir: Dir, s: nat, t: nat)
    requires IsStart(dir, s) && IsStart(dir, t)
    ensures s == t
  {
    assert s < t ==> t - 1 in ExistingIds(dir);
    assert t < s ==> s - 1 in ExistingIds(dir);
  }

  /** So is the first free id from a given start: the allocator's choice is a
      function of the directory and the extension. */
  lemma {:induction false} FirstFreeIsUnique(names: set<string>, from: nat, a: nat, b: nat, ext: string)
    requires FirstFree(names, from, a, ext) && FirstFree(names, from, b, ext)
    ensures a == b
  {
    assert a < b ==> Candidate(a, ext) in names;
    assert b < a ==> Candidate(b, ext) in names;
  }

  /** In an empty directory the counter starts at 1 and the first upload
      gets id 1, whatever its extension: the name 000001 plus extension. */
  lemma EmptyDirectoryFirstId(s: nat, id: nat, ext: string)
    requires IsStart(map[], s) && FirstFree({}, s, id, ext)
    ensures s == 1 && id == 1
    ensures Candidate(id, ext) == "000001" + ext
  {
    assert ExistingIds(map[]) == {};
    assert FirstFree({}, 1, 1, ext);
    FirstFreeIsUnique({}, 1, 1, id, ext);
    ZeroPadOne();
  }

  lemma ZeroPadOne()
    ensures ZeroPad(1) == "000001"
  {
    assert Decimal(1) == "1";
  }

  /** The probe loop: from next on, the first number whose candidate name is
      not in the directory; the counter ends one past it. */
  method Probe(dir: Dir, next: nat, ext: string) returns (target: string, after: nat)
    ensures next < after
    ensures target == Candidate(after - 1, ext) && target !in dir
    ensures forall k :: next <= k < after - 1 ==> Candidate(k, ext) in dir
    ensures FirstFree(dir.Keys, next, after - 1, ext)
  {
    var n := next;
    ghost var bound := Pow10(LongestKey(dir.Keys));
    while Candidate(n, ext) in dir
      invariant next <= n
      invariant forall k :: next <= k < n ==> Candidate(k, ext) in dir
      decreases bound as int - n
    {
      if n >= bound {
        AbsentWhenLong(dir, n, ext);
        assert false;
      }
      n := n + 1;
    }
    target, after := Candidate(n, ext), n + 1;
  }

  /** A candidate longer than every name in the directory is free, so the
      probe stops at the latest when the number outgrows the longest name. */
  lemma AbsentWhenLong(dir: Dir, n: nat, ext: string)
    requires n >= Pow10(LongestKey(dir.Keys))
    ensures Candidate(n, ext) !in dir
  {
    DecimalLength(n, LongestKey(dir.Keys));
    ZeroPadDigits(n);
  }

  ghost function LongestKey(names: set<string>): (m: nat)
    ensures forall x :: x in names ==> |x| <= m
  {
    if names == {} then 0
    else
      var x :| x in names;
      var rest := LongestKey(names - {x});
      if |x| > rest then |x| else rest
  }
}
