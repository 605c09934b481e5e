/** JSON values as JavaScript holds them, the canonical printer of the audit trail, and
    `JSON.stringify` on values that JSON text can carry. */
module Json {
  import opened Strings

  datatype Entry<T> = Entry(key: string, value: T)

  /** `fields` lists an object's own keys in enumeration order. A number is the numeral that it is
      written as: Num if that has no fraction and no exponent, else Real with its parts. */
  datatype Json =
    | Undefined
    | Null
    | Bool(b: bool)
    | Num(n: int)
    | Real(negative: bool, whole: nat, decimals: string, exponent: string)
    | Str(s: string)
    | Arr(items: seq<Json>)
    | Obj(fields: seq<Entry<Json>>)

  // ----- Objects -------------------------------------------------------------

  predicate HasKey<T>(fields: seq<Entry<T>>, k: string) {
    exists i :: 0 <= i < |fields| && fields[i].key == k
  }

  ghost predicate DistinctKeys<T>(fields: seq<Entry<T>>) {
    forall i, j :: 0 <= i < j < |fields| ==> fields[i].key != fields[j].key
  }

  /** Looking up a key of an object: undefined when it is absent. */
  function Get(fields: seq<Entry<Json>>, k: string): Json {
    if fields == [] then Undefined
    else if fields[0].key == k then fields[0].value
    else Get(fields[1..], k)
  }

  /** Looking up a key of any value: undefined on anything that is not an object. */
  function Member(v: Json, k: string): Json {
    if v.Obj? then Get(v.fields, k) else Undefined
  }

  /** What counts as true in a condition. */
  predicate Truthy(v: Json) {
    v !in {Undefined, Null, Bool(false), Num(0), Str("")}
  }

  /** An exponent with its letter, or none. */
  predicate IsExponent(s: string) {
    s == ""
    || (s[0] in {'e', 'E'} && |s| > 1
        && if s[1] in {'+', '-'} then |s| > 2 && IsDigits(s[2..]) else IsDigits(s[1..]))
  }

  predicate IsNumeral(decimals: string, exponent: string) {
    IsDigits(decimals) && IsExponent(exponent) && (decimals != "" || exponent != "")
  }

  /** Keys are distinct at every level, as in any JavaScript object. */
  ghost predicate IsValue(v: Json) {
    match v
    case Real(_, _, d, e) => IsNumeral(d, e)
    case Arr(items) => forall i :: 0 <= i < |items| ==> IsValue(items[i])
    case Obj(fields) => DistinctKeys(fields) && forall i :: 0 <= i < |fields| ==> IsValue(fields[i].value)
    case _ => true
  }

  /** A value with no `undefined` in it, so that JSON text can carry it. */
  ghost predicate IsPlain(v: Json) {
    match v
    case Undefined => false
    case Real(_, _, d, e) => IsNumeral(d, e)
    case Arr(items) => forall i :: 0 <= i < |items| ==> IsPlain(items[i])
    case Obj(fields) => DistinctKeys(fields) && forall i :: 0 <= i < |fields| ==> IsPlain(fields[i].value)
    case _ => true
  }

  /** Equal up to the order of keys, with `undefined` counted as null. */
  ghost predicate Same(v: Json, w: Json)
    decreases v, 1
  {
    match v
    case Undefined => w.Undefined? || w.Null?
    case Null => w.Undefined? || w.Null?
    case Arr(items) =>
      w.Arr? && |items| == |w.items| && forall i :: 0 <= i < |items| ==> Same(items[i], w.items[i])
    case Obj(fields) =>
      && w.Obj?
      && (forall i :: 0 <= i < |fields| ==> SameAsSome(fields[i], w.fields))
      && (forall j :: 0 <= j < |w.fields| ==> SomeSameAs(fields, w.fields[j]))
    case _ => v == w
  }

  ghost predicate SameAsSome(e: Entry<Json>, fields: seq<Entry<Json>>)
    decreases e, 0
  {
    exists j :: 0 <= j < |fields| && e.key == fields[j].key && Same(e.value, fields[j].value)
  }

  ghost predicate SomeSameAs(fields: seq<Entry<Json>>, e: Entry<Json>)
    decreases fields, 0
  {
    exists i :: 0 <= i < |fields| && e.key == fields[i].key && Same(fields[i].value, e.value)
  }

  // ----- Scalars ----------------------------------------------------------------

  function HexDigit(d: nat): char
    requires d < 16
  {
    if d < 10 then '0' + d as char else 'a' + (d - 10) as char
  }

  /** How `JSON.stringify` writes one character of a string. */
  function Escape(c: char): string {
    if c == '\"' then "\\\""
    else if c == '\\' then "\\\\"
    else if c as int == 8 then "\\b"
    else if c as int == 9 then "\\t"
    else if c as int == 10 then "\\n"
    else if c as int == 12 then "\\f"
    else if c as int == 13 then "\\r"
    else if c as int < 32 then "\\u00" + [HexDigit(c as int / 16), HexDigit(c as int % 16)]
    else [c]
  }

  function Escaped(s: string): string {
    if s == "" then "" else Escape(s[0]) + Escaped(s[1..])
  }

  function Quote(s: string): string {
    "\"" + Escaped(s) + "\""
  }

  function Tail(decimals: string, exponent: string): string {
    (if decimals == "" then "" else "." + decimals) + exponent
  }

  function Scalar(v: Json): string
    requires !v.Arr? && !v.Obj?
  {
    match v
    case Bool(b) => if b then "true" else "false"
    case Num(n) => if n < 0 then "-" + Decimal(-n) else Decimal(n)
    case Real(negative, whole, d, e) => (if negative then "-" else "") + (Decimal(whole) + Tail(d, e))
    case Str(s) => Quote(s)
    case _ => "null"
  }

  // ----- canonicalJson -------------------------------------------------------------

  function InsertByKey<T>(e: Entry<T>, s: seq<Entry<T>>): seq<Entry<T>> {
    if s == [] || !Less(s[0].key, e.key) then [e] + s else [s[0]] + InsertByKey(e, s[1..])
  }

  /** The entries in order of their keys. */
  function SortByKey<T>(s: seq<Entry<T>>): seq<Entry<T>> {
    if s == [] then [] else InsertByKey(s[0], SortByKey(s[1..]))
  }

  function Pairs(s: seq<Entry<string>>): seq<string> {
    if s == [] then [] else [Quote(s[0].key) + (":" + s[0].value)] + Pairs(s[1..])
  }

  /** `canonicalJson` of the audit writer, which is also `canon` of the draw verifier. */
  function Canon(v: Json): string
    decreases v, 1
  {
    match v
    case Arr(items) => "[" + Join(CanonItems(items)) + "]"
    case Obj(fields) => "{" + Join(Pairs(SortByKey(CanonFields(fields)))) + "}"
    case _ => Scalar(v)
  }

  function CanonItems(items: seq<Json>): seq<string>
    decreases items, 0
  {
    if items == [] then [] else [Canon(items[0])] + CanonItems(items[1..])
  }

  function CanonFields(fields: seq<Entry<Json>>): seq<Entry<string>>
    decreases fields, 0
  {
    if fields == [] then [] else [Entry(fields[0].key, Canon(fields[0].value))] + CanonFields(fields[1..])
  }

  // ----- JSON.stringify on plain values ------------------------------------------------

  function Print(v: Json): string
    decreases v, 1
  {
    match v
    case Arr(items) => if items == [] then "[]" else "[" + (Print(items[0]) + PrintItems(items[1..]))
    case Obj(fields) =>
      if fields == [] then "{}"
      else "{" + (PrintField(fields[0]) + PrintFields(fields[1..]))
    case _ => Scalar(v)
  }

  /** The items after the first, and the closing bracket. */
  function PrintItems(items: seq<Json>): string
    decreases items, 0
  {
    if items == [] then "]" else "," + (Print(items[0]) + PrintItems(items[1..]))
  }

  function PrintField(e: Entry<Json>): string
    decreases e, 2
  {
    Quote(e.key) + (":" + Print(e.value))
  }

  function PrintFields(fields: seq<Entry<Json>>): string
    decreases fields, 0
  {
    if fields == [] then "}" else "," + (PrintField(fields[0]) + PrintFields(fields[1..]))
  }

  function Carried(fields: seq<Entry<Json>>): seq<Entry<Json>> {
    if fields == [] then []
    else (if fields[0].value.Undefined? then [] else [fields[0]]) + Carried(fields[1..])
  }

  /** What `JSON.stringify` writes of an object whose entries hold no undefined further down: entries
      that are undefined are left out. */
  function Written(v: Json): Json {
    if v.Obj? then Obj(Carried(v.fields)) else v
  }

  // ----- The canonical form ----------------------------------------------------------

  /** Keys sorted at every level and `undefined` replaced by null. */
  function Normalize(v: Json): Json
    decreases v, 1
  {
    match v
    case Undefined => Null
    case Arr(items) => Arr(NormalizeItems(items))
    case Obj(fields) => Obj(SortByKey(NormalizeFields(fields)))
    case _ => v
  }

  function NormalizeItems(items: seq<Json>): seq<Json>
    decreases items, 0
  {
    if items == [] then [] else [Normalize(items[0])] + NormalizeItems(items[1..])
  }

  function NormalizeFields(fields: seq<Entry<Json>>): seq<Entry<Json>>
    decreases fields, 0
  {
    if fields == [] then [] else [Entry(fields[0].key, Normalize(fields[0].value))] + NormalizeFields(fields[1..])
  }
}
