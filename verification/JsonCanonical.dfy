/** The canonical printer prints the normalized value; normalizing forgets exactly the key order. */
module JsonCanonical {
  import opened Strings
  import opened Json

  // ----- Sorting by key ----------------------------------------------------------

  ghost predicate KeysAscend(s: seq<Entry<Json>>) {
    forall i, j :: 0 <= i < j < |s| ==> Less(s[i].key, s[j].key)
  }

  lemma {:induction false} InsertByKeyMembers(e: Entry<Json>, s: seq<Entry<Json>>)
    ensures forall x :: x in InsertByKey(e, s) <==> x == e || x in s
  {
    if s != [] && Less(s[0].key, e.key) {
      InsertByKeyMembers(e, s[1..]);
      assert s == [s[0]] + s[1..];
    }
  }

  lemma {:induction false} InsertByKeyAscends(e: Entry<Json>, s: seq<Entry<Json>>)
    requires KeysAscend(s) && forall x :: x in s ==> x.key != e.key
    ensures KeysAscend(InsertByKey(e, s))
  {
    if s == [] {
    } else if !Less(s[0].key, e.key) {
      LessTotal(s[0].key, e.key);
      assert s[0] in s;
      forall j | 0 <= j < |s| ensures Less(e.key, s[j].key) {
        if j > 0 {
          LessTransitive(e.key, s[0].key, s[j].key);
        }
      }
    } else {
      var tail := InsertByKey(e, s[1..]);
      InsertByKeyAscends(e, s[1..]);
      InsertByKeyMembers(e, s[1..]);
      forall j | 0 <= j < |tail| ensures Less(s[0].key, tail[j].key) {
        assert tail[j] in tail;
        if tail[j] != e {
          var k :| 0 <= k < |s| - 1 && s[1..][k] == tail[j];
        }
      }
    }
  }

  /** Sorting keeps the entries and, when keys are distinct, puts them in strictly ascending order. */
  lemma {:induction false} SortByKeySorts(s: seq<Entry<Json>>)
    requires DistinctKeys(s)
    ensures KeysAscend(SortByKey(s)) && forall x :: x in SortByKey(s) <==> x in s
  {
    if s != [] {
      SortByKeySorts(s[1..]);
      forall x | x in s[1..] ensures x.key != s[0].key {
        var k :| 0 <= k < |s| - 1 && s[1..][k] == x;
      }
      InsertByKeyAscends(s[0], SortByKey(s[1..]));
      InsertByKeyMembers(s[0], SortByKey(s[1..]));
      assert s == [s[0]] + s[1..];
    }
  }

  lemma KeysAscendDistinct(s: seq<Entry<Json>>)
    requires KeysAscend(s)
    ensures DistinctKeys(s)
  {
    forall i, j | 0 <= i < j < |s| ensures s[i].key != s[j].key {
      LessIrreflexive(s[i].key);
    }
  }

  lemma AscendingHeads(a: seq<Entry<Json>>, b: seq<Entry<Json>>)
    requires KeysAscend(a) && KeysAscend(b) && (forall x :: x in a <==> x in b) && a != []
    ensures b != [] && a[0] == b[0]
    ensures forall x :: x in a[1..] <==> x in a && x != a[0]
  {
    assert a[0] in b;
    var j :| 0 <= j < |b| && b[j] == a[0];
    assert b[0] in a;
    var i :| 0 <= i < |a| && a[i] == b[0];
    if i != 0 && j != 0 {
      LessAsymmetric(a[0].key, b[0].key);
    }
    assert a == [a[0]] + a[1..];
    KeysAscendDistinct(a);
  }

  lemma NoMembers<T>(s: seq<T>)
    ensures (forall x :: x !in s) ==> s == []
  {
    if s != [] {
      assert s[0] in s;
    }
  }

  lemma {:induction false} AscendingUnique(a: seq<Entry<Json>>, b: seq<Entry<Json>>)
    requires KeysAscend(a) && KeysAscend(b) && forall x :: x in a <==> x in b
    ensures a == b
  {
    if a == [] {
      NoMembers(b);
    } else {
      AscendingHeads(a, b);
      AscendingHeads(b, a);
      AscendingUnique(a[1..], b[1..]);
      assert a == [a[0]] + a[1..] && b == [b[0]] + b[1..];
    }
  }

  // ----- Normalize -------------------------------------------------------------------

  lemma {:induction false} NormalizeItemsAt(items: seq<Json>)
    ensures |NormalizeItems(items)| == |items|
    ensures forall i :: 0 <= i < |items| ==> NormalizeItems(items)[i] == Normalize(items[i])
  {
    if items != [] {
      NormalizeItemsAt(items[1..]);
    }
  }

  function NormalizeEntry(e: Entry<Json>): Entry<Json> {
    Entry(e.key, Normalize(e.value))
  }

  lemma {:induction false} NormalizeFieldsAt(fields: seq<Entry<Json>>)
    ensures |NormalizeFields(fields)| == |fields|
    ensures forall i :: 0 <= i < |fields| ==> NormalizeFields(fields)[i] == NormalizeEntry(fields[i])
  {
    if fields != [] {
      NormalizeFieldsAt(fields[1..]);
    }
  }

  lemma SortedFields(fields: seq<Entry<Json>>)
    requires DistinctKeys(fields)
    ensures KeysAscend(SortByKey(NormalizeFields(fields))) && DistinctKeys(SortByKey(NormalizeFields(fields)))
    ensures forall x :: x in SortByKey(NormalizeFields(fields)) <==> x in NormalizeFields(fields)
  {
    NormalizeFieldsAt(fields);
    SortByKeySorts(NormalizeFields(fields));
    KeysAscendDistinct(SortByKey(NormalizeFields(fields)));
  }

  /** The canonical form can be carried by JSON text. */
  lemma {:induction false} NormalizeIsPlain(v: Json)
    requires IsValue(v)
    ensures IsPlain(Normalize(v))
  {
    match v
    case Arr(items) =>
      NormalizeItemsAt(items);
      forall i | 0 <= i < |items| ensures IsPlain(NormalizeItems(items)[i]) {
        NormalizeIsPlain(items[i]);
      }
    case Obj(fields) =>
      NormalizeFieldsAt(fields);
      SortedFields(fields);
      var s := SortByKey(NormalizeFields(fields));
      forall i | 0 <= i < |s| ensures IsPlain(s[i].value) {
        assert s[i] in NormalizeFields(fields);
        var j :| 0 <= j < |fields| && NormalizeFields(fields)[j] == s[i];
        NormalizeIsPlain(fields[j].value);
      }
    case _ =>
  }

  // ----- Canon prints the canonical form -------------------------------------------------

  function PrintEntry(e: Entry<Json>): Entry<string> {
    Entry(e.key, Print(e.value))
  }

  function PrintEntries(s: seq<Entry<Json>>): seq<Entry<string>> {
    if s == [] then [] else [PrintEntry(s[0])] + PrintEntries(s[1..])
  }

  lemma {:induction false} InsertCommutes(e: Entry<Json>, s: seq<Entry<Json>>)
    ensures InsertByKey(PrintEntry(e), PrintEntries(s)) == PrintEntries(InsertByKey(e, s))
  {
    if s != [] && Less(s[0].key, e.key) {
      InsertCommutes(e, s[1..]);
      assert PrintEntries(s)[1..] == PrintEntries(s[1..]);
      assert InsertByKey(e, s)[1..] == InsertByKey(e, s[1..]);
    } else {
      assert ([e] + s)[1..] == s;
    }
  }

  lemma {:induction false} SortCommutes(s: seq<Entry<Json>>)
    ensures SortByKey(PrintEntries(s)) == PrintEntries(SortByKey(s))
  {
    if s != [] {
      SortCommutes(s[1..]);
      InsertCommutes(s[0], SortByKey(s[1..]));
      assert PrintEntries(s)[1..] == PrintEntries(s[1..]);
    }
  }

  /** Joining with commas and closing is what the stringify printer writes after the first part. */
  lemma {:induction false} JoinItems(items: seq<Json>, parts: seq<string>)
    requires items != [] && |parts| == |items| && forall i :: 0 <= i < |items| ==> parts[i] == Print(items[i])
    ensures Join(parts) + "]" == Print(items[0]) + PrintItems(items[1..])
  {
    if |items| > 1 {
      JoinItems(items[1..], parts[1..]);
      assert Join(parts) + "]" == parts[0] + ("," + (Join(parts[1..]) + "]"));
    } else {
      assert items[1..] == [];
    }
  }

  lemma {:induction false} JoinFields(fields: seq<Entry<Json>>, parts: seq<string>)
    requires fields != [] && |parts| == |fields| && forall i :: 0 <= i < |fields| ==> parts[i] == PrintField(fields[i])
    ensures Join(parts) + "}" == PrintField(fields[0]) + PrintFields(fields[1..])
  {
    if |fields| > 1 {
      JoinFields(fields[1..], parts[1..]);
      assert Join(parts) + "}" == parts[0] + ("," + (Join(parts[1..]) + "}"));
    } else {
      assert fields[1..] == [];
    }
  }

  lemma {:induction false} PairsAre(s: seq<Entry<Json>>)
    ensures |Pairs(PrintEntries(s))| == |s|
    ensures forall i :: 0 <= i < |s| ==> Pairs(PrintEntries(s))[i] == PrintField(s[i])
  {
    if s != [] {
      PairsAre(s[1..]);
      assert PrintEntries(s)[1..] == PrintEntries(s[1..]);
    }
  }

  lemma {:induction false} CanonItemsAre(items: seq<Json>)
    ensures |CanonItems(items)| == |items|
    ensures forall i :: 0 <= i < |items| ==> CanonItems(items)[i] == Print(Normalize(items[i]))
    decreases items, 0
  {
    if items != [] {
      CanonIsPrint(items[0]);
      CanonItemsAre(items[1..]);
    }
  }

  lemma {:induction false} CanonFieldsAre(fields: seq<Entry<Json>>)
    ensures CanonFields(fields) == PrintEntries(NormalizeFields(fields))
    decreases fields, 0
  {
    if fields != [] {
      CanonIsPrint(fields[0].value);
      CanonFieldsAre(fields[1..]);
      assert NormalizeFields(fields)[1..] == NormalizeFields(fields[1..]);
    }
  }

  lemma PrintOfItems(items: seq<Json>)
    requires |CanonItems(items)| == |items|
    requires forall i :: 0 <= i < |items| ==> CanonItems(items)[i] == Print(Normalize(items[i]))
    ensures Canon(Arr(items)) == Print(Arr(NormalizeItems(items)))
  {
    hide CanonItems, NormalizeItems, PrintItems, Normalize;
    NormalizeItemsAt(items);
    if items == [] {
      assert CanonItems(items) == [] && NormalizeItems(items) == [];
    } else {
      JoinItems(NormalizeItems(items), CanonItems(items));
      assert Canon(Arr(items)) == "[" + (Join(CanonItems(items)) + "]");
    }
  }

  lemma PrintOfFields(fields: seq<Entry<Json>>)
    ensures "{" + Join(Pairs(SortByKey(PrintEntries(fields)))) + "}" == Print(Obj(SortByKey(fields)))
  {
    hide SortByKey, PrintEntries, PrintFields, PrintField;
    SortCommutes(fields);
    var s := SortByKey(fields);
    PairsAre(s);
    if s == [] {
      assert Pairs(PrintEntries(s)) == [];
    } else {
      JoinFields(s, Pairs(PrintEntries(s)));
      assert "{" + Join(Pairs(PrintEntries(s))) + "}" == "{" + (Join(Pairs(PrintEntries(s))) + "}");
    }
  }

  /** `canonicalJson(v)` is `JSON.stringify` of the value with keys sorted and undefined made null. */
  lemma {:induction false} CanonIsPrint(v: Json)
    ensures Canon(v) == Print(Normalize(v))
    decreases v, 1
  {
    match v
    case Arr(items) =>
      CanonItemsAre(items);
      PrintOfItems(items);
    case Obj(fields) =>
      CanonFieldsAre(fields);
      PrintOfFields(NormalizeFields(fields));
    case _ =>
  }

  // ----- Same is equality of canonical forms ------------------------------------------------

  ghost predicate HasCounterpart(e: Entry<Json>, g: seq<Entry<Json>>) {
    exists j :: 0 <= j < |g| && NormalizeEntry(e) == NormalizeEntry(g[j])
  }

  lemma FieldMatch(f: seq<Entry<Json>>, g: seq<Entry<Json>>, x: Entry<Json>)
    requires forall i :: 0 <= i < |f| ==> HasCounterpart(f[i], g)
    requires x in NormalizeFields(f)
    ensures x in NormalizeFields(g)
  {
    hide NormalizeFields, NormalizeEntry;
    NormalizeFieldsAt(f);
    NormalizeFieldsAt(g);
    var i :| 0 <= i < |f| && NormalizeFields(f)[i] == x;
    assert HasCounterpart(f[i], g);
    var j :| 0 <= j < |g| && NormalizeEntry(f[i]) == NormalizeEntry(g[j]);
    assert NormalizeFields(g)[j] == x;
  }

  ghost predicate SameFields(f: seq<Entry<Json>>, g: seq<Entry<Json>>) {
    (forall x :: x in NormalizeFields(f) <==> x in NormalizeFields(g))
  }

  lemma SameFieldsSort(f: seq<Entry<Json>>, g: seq<Entry<Json>>)
    requires DistinctKeys(f) && DistinctKeys(g)
    ensures SameFields(f, g) <==> SortByKey(NormalizeFields(f)) == SortByKey(NormalizeFields(g))
  {
    hide NormalizeFields, SortByKey;
    SortedFields(f);
    SortedFields(g);
    if SameFields(f, g) {
      AscendingUnique(SortByKey(NormalizeFields(f)), SortByKey(NormalizeFields(g)));
    }
  }

  lemma Counterparts(f: seq<Entry<Json>>, g: seq<Entry<Json>>)
    requires forall i :: 0 <= i < |f| ==> HasCounterpart(f[i], g)
    requires forall j :: 0 <= j < |g| ==> HasCounterpart(g[j], f)
    ensures SameFields(f, g)
  {
    hide NormalizeFields, HasCounterpart;
    forall x ensures x in NormalizeFields(f) <==> x in NormalizeFields(g) {
      if x in NormalizeFields(f) {
        FieldMatch(f, g, x);
      } else if x in NormalizeFields(g) {
        FieldMatch(g, f, x);
      }
    }
  }

  /** Values that are equal up to key order have one canonical form. */
  lemma {:induction false} SameNormalizes(v: Json, w: Json)
    requires IsValue(v) && IsValue(w) && Same(v, w)
    ensures Normalize(v) == Normalize(w)
    decreases v, 2
  {
    match v
    case Arr(items) =>
      NormalizeItemsAt(items);
      NormalizeItemsAt(w.items);
      forall i | 0 <= i < |items| ensures Normalize(items[i]) == Normalize(w.items[i]) {
        SameNormalizes(items[i], w.items[i]);
      }
      assert NormalizeItems(items) == NormalizeItems(w.items);
    case Obj(f) =>
      SameFieldsNormalize(f, w.fields);
      SameFieldsSort(f, w.fields);
    case _ =>
  }

  lemma {:induction false} SameFieldsNormalize(f: seq<Entry<Json>>, g: seq<Entry<Json>>)
    requires IsValue(Obj(f)) && IsValue(Obj(g))
    requires forall i :: 0 <= i < |f| ==> SameAsSome(f[i], g)
    requires forall j :: 0 <= j < |g| ==> SomeSameAs(f, g[j])
    ensures SameFields(f, g)
    decreases f, 1
  {
    hide Normalize, NormalizeFields, SameAsSome, SomeSameAs, SameFields;
    forall i | 0 <= i < |f|
      ensures HasCounterpart(f[i], g)
    {
      var j := MatchingField(f[i], g);
      assert NormalizeEntry(f[i]) == NormalizeEntry(g[j]);
    }
    forall j | 0 <= j < |g|
      ensures HasCounterpart(g[j], f)
    {
      var i := MatchedField(f, g[j]);
      assert NormalizeEntry(g[j]) == NormalizeEntry(f[i]);
    }
    Counterparts(f, g);
  }

  lemma {:induction false} MatchingField(e: Entry<Json>, g: seq<Entry<Json>>) returns (j: nat)
    requires IsValue(e.value) && IsValue(Obj(g)) && SameAsSome(e, g)
    ensures j < |g| && NormalizeEntry(e) == NormalizeEntry(g[j])
    decreases e, 0
  {
    hide Normalize, Same;
    j :| 0 <= j < |g| && e.key == g[j].key && Same(e.value, g[j].value);
    SameNormalizes(e.value, g[j].value);
  }

  lemma {:induction false} MatchedField(f: seq<Entry<Json>>, e: Entry<Json>) returns (i: nat)
    requires IsValue(Obj(f)) && IsValue(e.value) && SomeSameAs(f, e)
    ensures i < |f| && NormalizeEntry(e) == NormalizeEntry(f[i])
    decreases f, 0
  {
    hide Normalize, Same;
    i :| 0 <= i < |f| && e.key == f[i].key && Same(f[i].value, e.value);
    SameNormalizes(f[i].value, e.value);
  }

  lemma SameFieldsBack(f: seq<Entry<Json>>, g: seq<Entry<Json>>)
    requires SameFields(f, g)
    ensures SameFields(g, f)
  {
    hide NormalizeFields;
  }

  lemma CounterpartField(f: seq<Entry<Json>>, g: seq<Entry<Json>>, i: nat) returns (j: nat)
    requires SameFields(f, g) && i < |f|
    ensures j < |g| && NormalizeEntry(f[i]) == NormalizeEntry(g[j])
  {
    hide NormalizeFields, NormalizeEntry;
    NormalizeFieldsAt(f);
    NormalizeFieldsAt(g);
    assert NormalizeFields(f)[i] in NormalizeFields(g);
    j :| 0 <= j < |g| && NormalizeFields(g)[j] == NormalizeEntry(f[i]);
  }

  /** Values with one canonical form are equal up to key order. */
  lemma {:induction false} NormalizesSame(v: Json, w: Json)
    requires IsValue(v) && IsValue(w) && Normalize(v) == Normalize(w)
    ensures Same(v, w)
    decreases v, 1
  {
    match v
    case Arr(items) =>
      NormalizeItemsAt(items);
      NormalizeItemsAt(w.items);
      forall i | 0 <= i < |items| ensures Same(items[i], w.items[i]) {
        assert Normalize(items[i]) == NormalizeItems(w.items)[i];
        NormalizesSame(items[i], w.items[i]);
      }
    case Obj(f) =>
      SameFieldsSort(f, w.fields);
      NormalizesSameFields(f, w.fields);
    case _ =>
  }

  lemma {:induction false} NormalizesSameFields(f: seq<Entry<Json>>, g: seq<Entry<Json>>)
    requires IsValue(Obj(f)) && IsValue(Obj(g)) && SameFields(f, g)
    ensures forall i :: 0 <= i < |f| ==> SameAsSome(f[i], g)
    ensures forall j :: 0 <= j < |g| ==> SomeSameAs(f, g[j])
    decreases f, 0
  {
    hide Normalize, NormalizeFields, Same, SameFields;
    forall i | 0 <= i < |f| ensures SameAsSome(f[i], g) {
      var j := CounterpartField(f, g, i);
      NormalizesSame(f[i].value, g[j].value);
    }
    SameFieldsBack(f, g);
    forall j | 0 <= j < |g| ensures SomeSameAs(f, g[j]) {
      var i := CounterpartField(g, f, j);
      NormalizesSame(f[i].value, g[j].value);
    }
  }

  // ----- Looking up keys ------------------------------------------------------------------------

  lemma {:induction false} GetMember(fields: seq<Entry<Json>>, e: Entry<Json>)
    requires DistinctKeys(fields) && e in fields
    ensures Get(fields, e.key) == e.value
  {
    if fields[0] != e {
      var i :| 0 <= i < |fields| && fields[i] == e;
      assert fields[1..][i - 1] == e;
      GetMember(fields[1..], e);
    }
  }

  // ----- How scalars are written --------------------------------------------------------------

  /** Strings are written as they are, but for quotes, backslashes and control characters; five of the
      latter have a letter, the others four hexadecimal digits. */
  lemma EscapesAre(c: char)
    ensures c as int >= 32 && c != '\"' && c != '\\' ==> Escape(c) == [c]
    ensures Escape('\"') == ['\\', '\"'] && Escape('\\') == ['\\', '\\']
    ensures Escape(8 as char) == ['\\', 'b'] && Escape(9 as char) == ['\\', 't'] && Escape(10 as char) == ['\\', 'n']
    ensures Escape(12 as char) == ['\\', 'f'] && Escape(13 as char) == ['\\', 'r']
    ensures c as int < 32 && c as int !in {8, 9, 10, 12, 13} ==>
              Escape(c) == ['\\', 'u', '0', '0', "01"[c as int / 16], "0123456789abcdef"[c as int % 16]]
  {
    if c as int < 32 {
      HexDigitIs(c as int / 16);
      HexDigitIs(c as int % 16);
    }
  }

  lemma HexDigitIs(d: nat)
    requires d < 16
    ensures HexDigit(d) == "0123456789abcdef"[d] && (d < 2 ==> HexDigit(d) == "01"[d])
  {
  }

  /** Integers are written in decimal digits without leading zeros, after a minus sign if negative. */
  lemma IntegersAre(n: nat)
    ensures Scalar(Num(n)) == Decimal(n) && (n > 0 ==> Scalar(Num(0 - n)) == "-" + Decimal(n))
    ensures n > 0 ==> Decimal(n)[0] != '0'
  {
    NoLeadingZero(n);
  }

  lemma {:induction false} NoLeadingZero(n: nat)
    ensures Decimal(n) != "" && (n > 0 ==> Decimal(n)[0] != '0')
  {
    if n >= 10 {
      NoLeadingZero(n / 10);
    }
  }

  /** The text has no white space of its own: brackets, commas and colons only. */
  lemma TextShapes(v: Json, w: Json, k: string)
    ensures Canon(Arr([])) == "[]" && Canon(Arr([v])) == "[" + Canon(v) + "]"
    ensures Canon(Arr([v, w])) == "[" + Canon(v) + "," + Canon(w) + "]"
    ensures Canon(Obj([])) == "{}" && Canon(Obj([Entry(k, v)])) == "{" + Quote(k) + ":" + Canon(v) + "}"
    ensures Quote(k) == "\"" + Escaped(k) + "\"" && Canon(Undefined) == Canon(Null) == "null"
    ensures Canon(Bool(true)) == "true" && Canon(Bool(false)) == "false"
  {
    hide Canon, CanonItems, CanonFields, Join, Quote;
    ListShapes(v, w);
    ObjectShapes(v, k);
    ScalarShapes(k);
  }

  lemma ListShapes(v: Json, w: Json)
    ensures Canon(Arr([])) == "[]" && Canon(Arr([v])) == "[" + Canon(v) + "]"
    ensures Canon(Arr([v, w])) == "[" + Canon(v) + "," + Canon(w) + "]"
  {
    ListText([]);
    ListText([v]);
    ListText([v, w]);
    FewItems(v, w);
    hide Canon, CanonItems, Join;
    JoinFew(Canon(v), Canon(w));
  }

  lemma ListText(items: seq<Json>)
    ensures Canon(Arr(items)) == "[" + Join(CanonItems(items)) + "]"
  {
  }

  lemma FewItems(v: Json, w: Json)
    ensures CanonItems([]) == [] && CanonItems([v]) == [Canon(v)] && CanonItems([v, w]) == [Canon(v), Canon(w)]
  {
    hide Canon;
    assert [v][1..] == [] && [v, w][1..] == [w] && [w][1..] == [];
    assert CanonItems([w]) == [Canon(w)];
  }

  lemma ObjectShapes(v: Json, k: string)
    ensures Canon(Obj([])) == "{}" && Canon(Obj([Entry(k, v)])) == "{" + Quote(k) + ":" + Canon(v) + "}"
  {
    var fields, text := [Entry(k, v)], [Entry(k, Canon(v))];
    assert fields[1..] == [] && text[1..] == [];
    assert CanonFields(fields) == text;
    assert SortByKey(text) == text;
    assert Pairs(text) == [Quote(k) + (":" + Canon(v))];
    hide CanonFields, SortByKey, Pairs, Quote;
    JoinFew(Quote(k) + (":" + Canon(v)), "");
    assert Quote(k) + (":" + Canon(v)) == Quote(k) + ":" + Canon(v);
  }

  lemma ScalarShapes(k: string)
    ensures Quote(k) == "\"" + Escaped(k) + "\"" && Canon(Undefined) == Canon(Null) == "null"
    ensures Canon(Bool(true)) == "true" && Canon(Bool(false)) == "false"
  {
  }
}
