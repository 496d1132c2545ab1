/** The metadata document as the handlers see it after json.loads: a map from
    stored filename to an entry, where an entry is a JSON object (the normal
    record), a bare string (the legacy label-only form) or anything else.
    Values inside a record keep just enough of Python's semantics for what
    the handlers do with them: truthiness (`x or default`), str(), and `==`
    against a str or an int. */
module PyJson {
  import opened Text

  datatype Option<T> = None | Some(value: T)

  /** Python's str() of a number, list or object is never empty. */
  type Rendering = s: string | s != [] witness "0"

  datatype Json =
    | JNull
    | JBool(b: bool)
    | JInt(i: int)
      /** a float, with the text str() gives for it */
    | JFloat(value: real, text: Rendering)
    | JStr(s: string)
      /** a list or object nested in a record, with its str() text and
          whether it is non-empty */
    | JOther(text: Rendering, truthy: bool)

  /** Python truthiness. */
  predicate Truthy(v: Json) {
    match v
    case JNull => false
    case JBool(b) => b
    case JInt(i) => i != 0
    case JFloat(x, _) => x != 0.0
    case JStr(s) => s != []
    case JOther(_, t) => t
  }

  /** Python str(). */
  function Str(v: Json): string {
    match v
    case JNull => "None"
    case JBool(b) => if b then "True" else "False"
    case JInt(i) => IntText(i)
    case JFloat(_, t) => t
    case JStr(s) => s
    case JOther(t, _) => t
  }

  /** Only the empty string renders as the empty string. */
  lemma TruthyRendersNonEmpty(v: Json)
    requires Truthy(v)
    ensures Str(v) != []
  {
  }

  /** `str(d.get(k) or default)` where default is a str. */
  function StrOr(v: Option<Json>, default: string): (r: string)
    ensures default != [] ==> r != []
    ensures v.Some? && v.value.JStr? && v.value.s != [] ==> r == v.value.s
    ensures (v.None? || !Truthy(v.value)) ==> r == default
    ensures v.Some? && Truthy(v.value) ==> r == Str(v.value)
  {
    if v.Some? && Truthy(v.value) then
      TruthyRendersNonEmpty(v.value);
      Str(v.value)
    else default
  }

  /** `bool(d.get(k) or False)`. */
  function TruthyOr(v: Option<Json>): bool {
    v.Some? && Truthy(v.value)
  }

  /** `d.get(k) == s` for a str s. */
  predicate EqualsStr(v: Option<Json>, s: string) {
    v == Some(JStr(s))
  }

  /** `d.get(k) == n` for an int n: Python compares bools and floats with
      ints by value (True == 1, 5.0 == 5). */
  predicate EqualsInt(v: Option<Json>, n: int) {
    v.Some? &&
    match v.value
    case JInt(i) => i == n
    case JBool(b) => (if b then 1 else 0) == n
    case JFloat(x, _) => x == n as real
    case _ => false
  }

  type Fields = map<string, Json>

  /** dict.get. */
  function Get(f: Fields, k: string): Option<Json> {
    if k in f then Some(f[k]) else None
  }

  /** One value of the metadata document. */
  datatype Entry =
    | Record(fields: Fields)
    | Legacy(text: string)
      /** a number, boolean, null or list, known only by its truthiness */
    | Other(truthy: bool)

  type Doc = map<string, Entry>

  /** dict.get on the document. */
  function Lookup(d: Doc, name: string): Option<Entry> {
    if name in d then Some(d[name]) else None
  }

  /** Two documents that answer every lookup alike are equal. */
  lemma LookupExtensional(a: Doc, b: Doc)
    requires forall n :: Lookup(a, n) == Lookup(b, n)
    ensures a == b
  {
    assert forall n :: n in a <==> n in b by {
      forall n ensures n in a <==> n in b {
        assert Lookup(a, n) == Lookup(b, n);
      }
    }
    forall n | n in a ensures a[n] == b[n] {
      assert Lookup(a, n) == Lookup(b, n);
    }
  }

  /** metadata.json on disk: missing, not parseable as JSON, or a parsed
      JSON object. */
  datatype Sidecar = Absent | Unparsable | Parsed(doc: Doc)

  /** The handlers' load step: a missing or unparseable sidecar reads as the
      empty document. */
  function Load(s: Sidecar): (d: Doc)
    ensures !s.Parsed? ==> d == map[]
  {
    if s.Parsed? then s.doc else map[]
  }
}
