/**
 * JSON values as the cleaner sees them after decoding, the lookup of the
 * record's title, and Python's equality on the scalar values a title can hold.
 */
module Json {
  import opened Wrappers

  /** A decoded JSON value. Numbers are kept as exact reals (see README). */
  datatype Value =
    | Null
    | Bool(b: bool)
    | Num(x: real)
    | Str(s: string)
    | Arr(items: seq<Value>)
    | Obj(fields: map<string, Value>)

  /** One decoded line: a JSON object, i.e. a dictionary from keys to values. */
  type Record = map<string, Value>

  /** The two key spellings a title can be stored under, in priority order. */
  const TitleKeyName: string := "title"
  const LocalTitleKeyName: string := "Наименование"

  /**
   * The value the cleaner deduplicates on: the value under "title" when that
   * key is present (even when it is null), otherwise the value under
   * "Наименование", otherwise null (Python's None).
   */
  function TitleOf(record: Record): (title: Value)
    ensures TitleKeyName in record ==> title == record[TitleKeyName]
    ensures TitleKeyName !in record && LocalTitleKeyName in record ==> title == record[LocalTitleKeyName]
    ensures TitleKeyName !in record && LocalTitleKeyName !in record ==> title == Null
  {
    if TitleKeyName in record then record[TitleKeyName]
    else if LocalTitleKeyName in record then record[LocalTitleKeyName]
    else Null
  }

  /** Values Python can hash, and so can put into a set; lists and dicts cannot. */
  predicate IsHashable(v: Value) {
    v.Null? || v.Bool? || v.Num? || v.Str?
  }

  /**
   * Python's `==` on two hashable values decoded from JSON: strings equal
   * strings, and booleans are the integers 0 and 1, so `True == 1 == 1.0`.
   */
  predicate PyEquals(v: Value, w: Value)
    requires IsHashable(v) && IsHashable(w)
  {
    match (v, w)
    case (Null, Null) => true
    case (Str(s), Str(t)) => s == t
    case (Bool(b), Bool(c)) => b == c
    case (Num(x), Num(y)) => x == y
    case (Bool(b), Num(y)) => (if b then 1.0 else 0.0) == y
    case (Num(x), Bool(c)) => x == (if c then 1.0 else 0.0)
    case _ => false
  }

  /** What the seen-title set holds: one key per class of Python-equal titles. */
  datatype TitleKey = NumKey(x: real) | StrKey(s: string)

  function KeyOf(v: Value): (k: TitleKey)
    requires IsHashable(v) && !v.Null?
  {
    match v
    case Bool(b) => NumKey(if b then 1.0 else 0.0)
    case Num(x) => NumKey(x)
    case Str(s) => StrKey(s)
  }

  /** Two non-null hashable titles share a set entry exactly when Python calls them equal. */
  lemma KeyOfMatchesPyEquals(v: Value, w: Value)
    requires IsHashable(v) && !v.Null? && IsHashable(w) && !w.Null?
    ensures KeyOf(v) == KeyOf(w) <==> PyEquals(v, w)
  {
  }

  /**
   * The title's set key, or None for a record whose title is absent or
   * null; only defined when the title is hashable.
   */
  function TitleKeyOf(record: Record): (k: Option<TitleKey>)
    requires IsHashable(TitleOf(record))
    ensures k.None? <==> TitleOf(record).Null?
    ensures k.Some? ==> k.value == KeyOf(TitleOf(record))
  {
    var title := TitleOf(record);
    if title.Null? then None else Some(KeyOf(title))
  }
}
