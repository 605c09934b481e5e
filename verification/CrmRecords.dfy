/** What the CRM receiver stores and answers, field by field. */
module CrmRecords {
  import opened CrmReceiver
  import opened Json
  import opened Strings

  /** What JavaScript takes for false. */
  predicate IsFalse(f: Field) {
    f in {V(Undefined), V(Null), V(Bool(false)), V(Num(0)), V(Str("")), N(NaN), N(Finite(0.0))}
  }

  predicate HasAll(ev: Json) {
    && !IsFalse(V(Member(ev, "entity_type"))) && !IsFalse(V(Member(ev, "external_key")))
    && Member(ev, "entity_version") != Undefined && Member(ev, "entity_version") != Null
  }

  function SlotName(w: Conversions, ev: Json): string {
    w.text(Member(ev, "entity_type")) + ":" + w.text(Member(ev, "external_key"))
  }

  /** The stored version is a number above the event's. */
  predicate Outdated(w: Conversions, stored: Record, ev: Json) {
    var was := NumberOf(w, FieldAt(stored, "entity_version"));
    var now := w.number(Member(ev, "entity_version"));
    || (was.Finite? && now.Finite? && was.r > now.r)
    || (was.PlusInfinity? && (now.Finite? || now.MinusInfinity?))
    || (was.Finite? && now.MinusInfinity?)
  }

  /** A field is what the event's record gives for it, or else what is given here. */
  predicate FieldIs(rec: Record, ev: Json, name: string, otherwise: Field) {
    name in rec && rec[name] == if name in Extra(ev) then Extra(ev)[name] else otherwise
  }

  /** The record that an event leaves in a slot whose id was `kept`. */
  ghost predicate IsRecordOf(w: Conversions, rec: Record, ev: Json, kept: Field, newId: string, time: string) {
    && FieldIs(rec, ev, "id", if IsFalse(kept) then V(Str(newId)) else kept)
    && FieldIs(rec, ev, "entity_type", V(Member(ev, "entity_type")))
    && FieldIs(rec, ev, "external_key", V(Member(ev, "external_key")))
    && FieldIs(rec, ev, "entity_version", N(w.number(Member(ev, "entity_version"))))
    && FieldIs(rec, ev, "mapping_version", V(Member(ev, "mapping_version")))
    && "updated_at" in rec && rec["updated_at"] == V(Str(time))
    && (forall name :: name in Extra(ev) && name != "updated_at" ==> name in rec && rec[name] == Extra(ev)[name])
    && forall name :: name in rec ==>
         name in Extra(ev)
         || name in {"id", "entity_type", "external_key", "entity_version", "mapping_version", "updated_at"}
  }

  lemma TruthyIff(f: Field)
    ensures FieldTruthy(f) <==> !IsFalse(f)
    ensures f.V? ==> (Truthy(f.v) <==> !IsFalse(f))
  {
  }

  lemma AboveIff(w: Conversions, stored: Record, ev: Json)
    ensures Above(NumberOf(w, FieldAt(stored, "entity_version")), Version(w, ev)) <==> Outdated(w, stored, ev)
  {
    hide Member;
  }

  lemma NewRecordIs(w: Conversions, ev: Json, kept: Field, id: Field, newId: string, time: string)
    requires id == if IsFalse(kept) then V(Str(newId)) else kept
    ensures IsRecordOf(w, NewRecord(w, ev, id, time), ev, kept, newId, time)
  {
    hide Member, Extra, IsFalse, Version, FieldIs;
    var rec := NewRecord(w, ev, id, time);
    NewField(w, ev, id, time, "id");
    NewField(w, ev, id, time, "entity_type");
    NewField(w, ev, id, time, "external_key");
    NewField(w, ev, id, time, "entity_version");
    NewField(w, ev, id, time, "mapping_version");
    VersionIs(w, ev);
  }

  lemma VersionIs(w: Conversions, ev: Json)
    ensures Version(w, ev) == w.number(Member(ev, "entity_version"))
  {
  }

  lemma NewField(w: Conversions, ev: Json, id: Field, time: string, name: string)
    requires name in {"id", "entity_type", "external_key", "entity_version", "mapping_version"}
    ensures FieldIs(NewRecord(w, ev, id, time), ev, name,
                    if name == "id" then id
                    else if name == "entity_version" then N(Version(w, ev))
                    else V(Member(ev, name)))
  {
    hide Member, Extra, Version;
  }

  /** Every event that arrives: an exception on null, a refusal if something is missing or the slot holds
      a higher version, and else a record in the slot, answered with its id, key and version unless
      the receiver is told to time out. Nothing else in the store changes. */
  lemma EventMeans(w: Conversions, s: State, ev: Json, newId: string, time: string)
    ensures var (t, r) := Step(w, s, EventBody(ev, newId, time));
            var k := SlotName(w, ev);
            && (r == Crashed <==> ev == Null)
            && (r == Incomplete <==> ev != Null && !HasAll(ev))
            && (r.OlderVersion? <==> HasAll(ev) && k in s.store && Outdated(w, s.store[k], ev))
            && (r.OlderVersion? ==> r.current == FieldAt(s.store[k], "entity_version"))
            && (!(r.Accepted? || r.Silence?) ==> t == s && (r == Crashed || r == Incomplete || r.OlderVersion?))
            && (r.Accepted? || r.Silence? ==>
                  && k in t.store && t.fault == s.fault && t.store == s.store[k := t.store[k]]
                  && IsRecordOf(w, t.store[k], ev,
                                if k in s.store then FieldAt(s.store[k], "id") else V(Undefined), newId, time)
                  && (r == Silence <==> s.fault == Str("timeout-after-write"))
                  && (r != Silence ==>
                        r == Accepted(FieldAt(t.store[k], "id"), FieldAt(t.store[k], "external_key"),
                                      FieldAt(t.store[k], "entity_version"))))
  {
    hide Member, NewRecord, IsRecordOf, Above, Outdated, IsFalse, FieldTruthy, NumberOf, Slot, SlotName, Complete,
         HasAll, Version;
    CompleteIff(w, ev);
    var k := Slot(w, ev);
    if k in s.store {
      AboveIff(w, s.store[k], ev);
    }
    EmptyRefusesNothing(w, ev);
    var kept := if k in s.store then FieldAt(s.store[k], "id") else V(Undefined);
    TruthyIff(kept);
    UndefinedIsFalse();
    NewRecordIs(w, ev, kept, KeptId(s, k, newId), newId, time);
  }

  lemma CompleteIff(w: Conversions, ev: Json)
    ensures Complete(ev) <==> HasAll(ev)
    ensures !HasAll(Null) && Slot(w, ev) == SlotName(w, ev)
  {
    TruthyIff(V(Member(ev, "entity_type")));
    TruthyIff(V(Member(ev, "external_key")));
    var t, k := w.text(Member(ev, "entity_type")), w.text(Member(ev, "external_key"));
    assert t + (":" + k) == t + ":" + k;
  }

  lemma UndefinedIsFalse()
    ensures IsFalse(V(Undefined))
  {
  }

  lemma EmptyRefusesNothing(w: Conversions, ev: Json)
    ensures !Above(MinusInfinity, Version(w, ev))
  {
    hide Member;
  }

  /** Setting the fault mode: a mode that counts as false means none. */
  lemma FaultMeans(w: Conversions, s: State, body: Json)
    ensures var (t, r) := Step(w, s, FaultBody(body));
            && (r == Crashed <==> body == Null) && t.store == s.store
            && (body == Null ==> t == s)
            && (body != Null ==>
                  && t.fault == (if IsFalse(V(Member(body, "mode"))) then Str("none") else Member(body, "mode"))
                  && r == FaultSet(t.fault))
  {
    TruthyIff(V(Member(body, "mode")));
    hide Member, IsFalse;
  }

  /** Spreading an object adds its entries as they are. */
  lemma {:induction false} SpreadIs(fields: seq<Entry<Json>>, k: string)
    ensures k in Spread(Obj(fields)) <==> HasKey(fields, k)
    ensures HasKey(fields, k) ==> Spread(Obj(fields))[k] == V(Get(fields, k))
  {
    if fields != [] {
      SpreadIs(fields[1..], k);
      if HasKey(fields[1..], k) {
        var i :| 0 <= i < |fields[1..]| && fields[1..][i].key == k;
        assert fields[i + 1].key == k;
      }
      if HasKey(fields, k) && fields[0].key != k {
        var i :| 0 <= i < |fields| && fields[i].key == k;
        assert fields[1..][i - 1].key == k;
      }
    }
  }

  /** Spreading a list adds its items under their places. */
  lemma {:induction false} SpreadListIs(items: seq<Json>, i: nat)
    requires i < |items|
    ensures Decimal(i) in Spread(Arr(items)) && Spread(Arr(items))[Decimal(i)] == V(items[i])
  {
    var n := |items| - 1;
    if i < n {
      SpreadListIs(items[..n], i);
      if Decimal(i) == Decimal(n) {
        DecimalInjective(i, n);
        assert false;
      }
    }
  }

  /** A string is spread like the list of its characters; other scalars add nothing. */
  lemma SpreadScalarIs(s: string, i: nat, n: int, b: bool)
    requires i < |s|
    ensures Decimal(i) in Spread(Str(s)) && Spread(Str(s))[Decimal(i)] == V(Str([s[i]]))
    ensures Spread(Num(n)) == Spread(Bool(b)) == Spread(Null) == Spread(Undefined) == map[]
  {
    var items := seq(|s|, j requires 0 <= j < |s| => Str([s[j]]));
    SpreadListIs(items, i);
  }
}
