/** The contract-test receiver of the CRM webhook: a versioned upsert under fault injection.
    Several requests may be waiting for their bodies at once, so a request runs in two parts,
    before and after its body has arrived, and other requests run in between. */
module CrmReceiver {
  import opened Collections
  import opened Json
  import opened Strings

  /** A number of JavaScript. */
  datatype Numeric = NaN | MinusInfinity | Finite(r: real) | PlusInfinity

  /** A stored field: a JSON value, or a number that was converted from one. */
  datatype Field = V(v: Json) | N(x: Numeric)

  type Record = map<string, Field>

  datatype State = State(store: map<string, Record>, fault: Json)

  /** JavaScript's string and number conversions. */
  datatype Conversions = Conversions(text: Json -> string, number: Json -> Numeric)

  ghost predicate Proper(w: Conversions) {
    (forall s :: w.text(Str(s)) == s) && forall n :: w.number(Num(n)) == Finite(n as real)
  }

  datatype Request =
    | PostFault
    | GetHealth
    | PostEvent
    | GetRecord(entityType: string, key: string)
    | GetRecords
    | OtherRequest

  datatype Reply =
    | Waiting                                            // for the request's body
    | Unauthorized
    | FaultSet(fault: Json)
    | Health(up: bool, fault: Json, records: nat)
    | Down
    | Incomplete                                         // 400
    | OlderVersion(current: Field)                       // 409
    | Accepted(id: Field, key: Field, version: Field)    // 200
    | Silence                                            // stored, and never answered
    | Found(record: Record)
    | Listing(all: map<string, Record>)
    | Missing                                            // 404
    | Crashed

  /** What runs once a body has arrived; `newId` and `time` are what the receiver would draw. */
  datatype Call =
    | FaultBody(body: Json)
    | EventBody(event: Json, newId: string, time: string)

  // ----- Numbers and fields -------------------------------------------------------------

  /** Strictly greater, as JavaScript compares numbers: never with NaN. */
  predicate Above(x: Numeric, y: Numeric) {
    match (x, y)
    case (Finite(a), Finite(b)) => a > b
    case (NaN, _) => false
    case (_, NaN) => false
    case (PlusInfinity, _) => y != PlusInfinity
    case (_, MinusInfinity) => x != MinusInfinity
    case _ => false
  }

  predicate FieldTruthy(f: Field) {
    match f
    case V(v) => Truthy(v)
    case N(x) => x != NaN && x != Finite(0.0)
  }

  function NumberOf(w: Conversions, f: Field): Numeric {
    match f
    case V(v) => w.number(v)
    case N(x) => x
  }

  function FieldAt(r: Record, k: string): Field {
    if k in r then r[k] else V(Undefined)
  }

  /** The fields that spreading a value into an object adds to it. */
  function Spread(v: Json): Record {
    match v
    case Obj(fields) => SpreadFields(fields)
    case Arr(items) => SpreadItems(items)
    case Str(s) => SpreadItems(seq(|s|, i requires 0 <= i < |s| => Str([s[i]])))
    case _ => map[]
  }

  function SpreadFields(fields: seq<Entry<Json>>): Record {
    if fields == [] then map[] else SpreadFields(fields[1..])[fields[0].key := V(fields[0].value)]
  }

  function SpreadItems(items: seq<Json>): Record {
    if items == [] then map[]
    else SpreadItems(items[..|items| - 1])[Decimal(|items| - 1) := V(items[|items| - 1])]
  }

  // ----- One event ----------------------------------------------------------------------

  predicate Complete(ev: Json) {
    Truthy(Member(ev, "entity_type")) && Truthy(Member(ev, "external_key"))
    && Member(ev, "entity_version") !in {Undefined, Null}
  }

  function SlotOf(entityType: string, key: string): string {
    entityType + (":" + key)
  }

  function Slot(w: Conversions, ev: Json): string {
    SlotOf(w.text(Member(ev, "entity_type")), w.text(Member(ev, "external_key")))
  }

  function Version(w: Conversions, ev: Json): Numeric {
    w.number(Member(ev, "entity_version"))
  }

  function Extra(ev: Json): Record {
    Spread(Member(ev, "record"))
  }

  /** What an event says: its own fields, and over them those of its record. */
  function Said(w: Conversions, ev: Json): Record {
    map["entity_type" := V(Member(ev, "entity_type")),
        "external_key" := V(Member(ev, "external_key")),
        "entity_version" := N(Version(w, ev)),
        "mapping_version" := V(Member(ev, "mapping_version"))] + Extra(ev)
  }

  /** What an event says about its record, apart from the id and the time. */
  function Content(w: Conversions, ev: Json): Record {
    Plain(Said(w, ev))
  }

  /** A record without its id and time. */
  function Plain(r: Record): Record {
    r - {"id", "updated_at"}
  }

  /** The id, what the event says over it, and the time over all. */
  function NewRecord(w: Conversions, ev: Json, id: Field, time: string): Record {
    map["id" := id] + Said(w, ev) + map["updated_at" := V(Str(time))]
  }

  /** The version that a slot holds. An empty slot refuses nothing, like the least number. */
  function Floor(w: Conversions, s: State, k: string): Numeric {
    if k in s.store then NumberOf(w, FieldAt(s.store[k], "entity_version")) else MinusInfinity
  }

  predicate IsOlder(w: Conversions, s: State, ev: Json) {
    Above(Floor(w, s, Slot(w, ev)), Version(w, ev))
  }

  function KeptId(s: State, k: string, newId: string): Field {
    if k in s.store && FieldTruthy(FieldAt(s.store[k], "id")) then FieldAt(s.store[k], "id") else V(Str(newId))
  }

  function EventStep(w: Conversions, s: State, ev: Json, newId: string, time: string): (State, Reply) {
    var k := Slot(w, ev);
    if ev == Null then (s, Crashed)
    else if !Complete(ev) then (s, Incomplete)
    else if IsOlder(w, s, ev) then
      (s, OlderVersion(if k in s.store then FieldAt(s.store[k], "entity_version") else V(Undefined)))
    else
      var rec := NewRecord(w, ev, KeptId(s, k, newId), time);
      (s.(store := s.store[k := rec]),
       if s.fault == Str("timeout-after-write") then Silence
       else Accepted(FieldAt(rec, "id"), FieldAt(rec, "external_key"), FieldAt(rec, "entity_version")))
  }

  function FaultStep(s: State, body: Json): (State, Reply) {
    var mode := if Truthy(Member(body, "mode")) then Member(body, "mode") else Str("none");
    if body == Null then (s, Crashed) else (s.(fault := mode), FaultSet(mode))
  }

  function Step(w: Conversions, s: State, c: Call): (State, Reply) {
    match c
    case FaultBody(body) => FaultStep(s, body)
    case EventBody(ev, newId, time) => EventStep(w, s, ev, newId, time)
  }

  // ----- The receiver -------------------------------------------------------------------------

  class Receiver {
    const w: Conversions
    var store: map<string, Record>
    var fault: Json

    constructor (w: Conversions, store: map<string, Record>, fault: string)
      ensures this.w == w && Now() == State(store, if fault == "" then Str("none") else Str(fault))
    {
      this.w, this.store, this.fault := w, store, if fault == "" then Str("none") else Str(fault);
    }

    function Now(): State
      reads this
    {
      State(store, fault)
    }

    /** A request up to the point where it waits for its body; nothing changes before that. */
    method Arrive(authorised: bool, q: Request) returns (r: Reply)
      ensures r.Waiting? <==> authorised && (q.PostFault? || (q.PostEvent? && fault != Str("down")))
      ensures r.Unauthorized? <==> !authorised
      ensures r.Down? <==> authorised && fault == Str("down") && !q.PostFault? && !q.GetHealth?
      ensures r.Health? <==> authorised && q.GetHealth?
      ensures r.Health? ==> r == Health(fault != Str("down"), fault, |store|)
      ensures authorised && fault != Str("down") && q.OtherRequest? ==> r == Missing
      ensures authorised && fault != Str("down") && q.GetRecord? ==>
                var k := SlotOf(q.entityType, q.key);
                r == if k in store then Found(store[k]) else Missing
      ensures authorised && fault != Str("down") && q.GetRecords? ==> r == Listing(store)
    {
      if !authorised {
        return Unauthorized;
      }
      if q.PostFault? {
        return Waiting;
      }
      if q.GetHealth? {
        return Health(fault != Str("down"), fault, |store|);
      }
      if fault == Str("down") {
        return Down;
      }
      match q
      case PostEvent => return Waiting;
      case GetRecord(t, key) =>
        var k := SlotOf(t, key);
        return if k in store then Found(store[k]) else Missing;
      case GetRecords => return Listing(store);
      case _ => return Missing;
    }

    method SetFault(body: Json) returns (r: Reply)
      modifies this`fault
      ensures (Now(), r) == Step(w, old(Now()), FaultBody(body))
    {
      if body == Null {
        return Crashed;
      }
      fault := Str("none");
      if Truthy(Member(body, "mode")) {
        fault := Member(body, "mode");
      }
      r := FaultSet(fault);
    }

    method Upsert(ev: Json, newId: string, time: string) returns (r: Reply)
      modifies this`store
      ensures (Now(), r) == Step(w, old(Now()), EventBody(ev, newId, time))
    {
      hide Member, NewRecord, FieldTruthy, Slot, NumberOf;
      if ev == Null {
        return Crashed;
      }
      if !Truthy(Member(ev, "entity_type")) || !Truthy(Member(ev, "external_key")) {
        return Incomplete;
      }
      if Member(ev, "entity_version") in {Undefined, Null} {
        return Incomplete;
      }
      var k := Slot(w, ev);
      var id := V(Str(newId));
      if k in store {
        var cur := store[k];
        if Above(NumberOf(w, FieldAt(cur, "entity_version")), Version(w, ev)) {
          return OlderVersion(FieldAt(cur, "entity_version"));
        }
        if FieldTruthy(FieldAt(cur, "id")) {
          id := FieldAt(cur, "id");
        }
      }
      var rec := NewRecord(w, ev, id, time);
      store := store[k := rec];
      if fault == Str("timeout-after-write") {
        return Silence;
      }
      return Accepted(FieldAt(rec, "id"), FieldAt(rec, "external_key"), FieldAt(rec, "entity_version"));
    }
  }

  // ----- Runs ------------------------------------------------------------------------------------

  /** The state after the first `n` calls. */
  function After(w: Conversions, s: State, run: seq<Call>, n: nat): State
    requires n <= |run|
  {
    if n == 0 then s else Step(w, After(w, s, run, n - 1), run[n - 1]).0
  }

  /** Call `i` brings a complete event for slot `k`. */
  predicate Delivered(w: Conversions, run: seq<Call>, i: nat, k: string) {
    i < |run| && Addresses(w, run[i], k)
  }

  predicate Addresses(w: Conversions, c: Call, k: string) {
    c.EventBody? && Complete(c.event) && Slot(w, c.event) == k
  }

  /** The version is a number, and the event's record redefines neither the version nor the id. */
  predicate Regular(w: Conversions, c: Call) {
    c.EventBody? && Version(w, c.event) != NaN && c.newId != ""
    && "id" !in Extra(c.event) && "entity_version" !in Extra(c.event)
  }

  ghost predicate AllRegular(w: Conversions, run: seq<Call>, k: string) {
    forall i: nat :: Delivered(w, run, i, k) ==> Regular(w, run[i])
  }

  /** A slot as regular deliveries leave it, or as a state file restores it: empty, or holding an id
      and a version that is a number. */
  predicate InOrder(w: Conversions, s: State, k: string) {
    Floor(w, s, k) != NaN && (k in s.store ==> FieldTruthy(FieldAt(s.store[k], "id")))
  }

  /** Delivery `i` is the last one of the highest version among the first `n` calls, and not older
      than what the slot held at the start. */
  ghost predicate LastHighest(w: Conversions, s: State, run: seq<Call>, n: nat, k: string, i: nat) {
    i < n && Delivered(w, run, i, k) && !Above(Floor(w, s, k), Version(w, run[i].event))
    && forall j: nat :: j < n && Delivered(w, run, j, k) ==>
         !Above(Version(w, run[j].event), Version(w, run[i].event))
         && (j > i ==> Above(Version(w, run[i].event), Version(w, run[j].event)))
  }

  /** All deliveries among the first `n` calls are older than what the slot held at the start. */
  ghost predicate Untouched(w: Conversions, s: State, run: seq<Call>, n: nat, k: string) {
    forall j: nat :: j < n && Delivered(w, run, j, k) ==> Above(Floor(w, s, k), Version(w, run[j].event))
  }

  /** The record tells what `ev` says. */
  predicate Reflects(w: Conversions, r: Record, ev: Json) {
    FieldTruthy(FieldAt(r, "id")) && FieldAt(r, "entity_version") == N(Version(w, ev)) && Plain(r) == Content(w, ev)
  }

  lemma PlainForgets(said: Record, id: Field, time: string)
    ensures Plain(map["id" := id] + said + map["updated_at" := V(Str(time))]) == Plain(said)
  {
  }

  lemma RegularReflects(w: Conversions, c: Call, id: Field, time: string)
    requires Regular(w, c) && FieldTruthy(id)
    ensures Reflects(w, NewRecord(w, c.event, id, time), c.event)
    ensures FieldAt(NewRecord(w, c.event, id, time), "id") == id
  {
    hide Member, Spread, FieldTruthy, Version;
    PlainForgets(Said(w, c.event), id, time);
  }

  lemma NullIncomplete()
    ensures !Complete(Null)
  {
  }

  /** One regular delivery: it is older and nothing happens, or the slot reflects it. An id stays. */
  lemma DeliveryStep(w: Conversions, s: State, c: Call, k: string)
    requires Regular(w, c) && Addresses(w, c, k) && InOrder(w, s, k)
    ensures var (t, r) := Step(w, s, c);
            && (r.OlderVersion? <==> Above(Floor(w, s, k), Version(w, c.event)))
            && (r.OlderVersion? ==> t == s)
            && (!r.OlderVersion? ==> k in t.store && Reflects(w, t.store[k], c.event))
            && (k in s.store ==> k in t.store && FieldAt(t.store[k], "id") == FieldAt(s.store[k], "id"))
            && InOrder(w, t, k)
  {
    hide Complete, Slot, Member, NewRecord, Content, Plain, FieldTruthy;
    NullIncomplete();
    assert FieldTruthy(V(Str(c.newId))) by {
      NewIdTruthy(c.newId);
    }
    RegularReflects(w, c, KeptId(s, k, c.newId), c.time);
  }

  lemma NewIdTruthy(newId: string)
    requires newId != ""
    ensures FieldTruthy(V(Str(newId)))
  {
  }

  lemma OtherStep(w: Conversions, s: State, c: Call, k: string)
    requires !Addresses(w, c, k)
    ensures var t := Step(w, s, c).0;
            (k in t.store <==> k in s.store) && (k in s.store ==> t.store[k] == s.store[k])
  {
    hide Complete, Slot, NewRecord, IsOlder, Member;
    NullIncomplete();
  }

  /** The slot at a later state is as it was. */
  predicate SameSlot(s: State, t: State, k: string) {
    (k in t.store <==> k in s.store) && (k in s.store ==> t.store[k] == s.store[k])
  }

  /** After any deliveries, duplicated and out of order, under any faults, a slot reflects the last
      delivery of the highest version; it is untouched exactly when all of them are older than what
      it held. */
  lemma {:induction false} ReflectsLastHighest(w: Conversions, s: State, run: seq<Call>, n: nat, k: string)
    returns (i: Option<nat>)
    requires AllRegular(w, run, k) && n <= |run| && InOrder(w, s, k)
    ensures i.None? ==> Untouched(w, s, run, n, k) && SameSlot(s, After(w, s, run, n), k)
    ensures i.Some? ==> LastHighest(w, s, run, n, k, i.value)
    ensures i.Some? ==> var t := After(w, s, run, n); k in t.store && Reflects(w, t.store[k], run[i.value].event)
    ensures InOrder(w, After(w, s, run, n), k)
  {
    hide Step, Regular, Content, FieldTruthy, Complete, Slot, Version, Plain;
    if n == 0 {
      i := None;
    } else {
      i := ReflectsLastHighest(w, s, run, n - 1, k);
      if Delivered(w, run, n - 1, k) {
        DeliveryStep(w, After(w, s, run, n - 1), run[n - 1], k);
        if !Above(Floor(w, After(w, s, run, n - 1), k), Version(w, run[n - 1].event)) {
          i := Some(n - 1);
        }
      } else {
        OtherStep(w, After(w, s, run, n - 1), run[n - 1], k);
      }
    }
  }

  /** From any point on, a filled slot keeps its id, and its version never decreases. */
  lemma {:induction false} IdAndVersionKept(w: Conversions, s: State, run: seq<Call>, m: nat, n: nat, k: string)
    requires AllRegular(w, run, k) && m <= n <= |run| && InOrder(w, s, k)
    requires k in After(w, s, run, m).store
    ensures var early, late := After(w, s, run, m), After(w, s, run, n);
            && k in late.store
            && FieldAt(late.store[k], "id") == FieldAt(early.store[k], "id")
            && Floor(w, late, k) != NaN && !Above(Floor(w, early, k), Floor(w, late, k))
  {
    hide Step, Regular, Content, FieldTruthy, Complete, Slot, Version, Plain;
    var i := ReflectsLastHighest(w, s, run, n, k);
    if n > m {
      IdAndVersionKept(w, s, run, m, n - 1, k);
      var j := ReflectsLastHighest(w, s, run, n - 1, k);
      if Delivered(w, run, n - 1, k) {
        DeliveryStep(w, After(w, s, run, n - 1), run[n - 1], k);
      } else {
        OtherStep(w, After(w, s, run, n - 1), run[n - 1], k);
      }
    }
  }

  // ----- Convergence ---------------------------------------------------------------------------------

  /** The event is delivered to the slot. */
  ghost predicate Brings(w: Conversions, run: seq<Call>, k: string, ev: Json) {
    exists i :: 0 <= i < |run| && Delivered(w, run, i, k) && run[i].event == ev
  }

  /** Whatever the order and the repetitions, the same events are delivered to the slot. */
  ghost predicate SameEvents(w: Conversions, run: seq<Call>, other: seq<Call>, k: string) {
    AllRegular(w, other, k) && forall ev :: Brings(w, run, k, ev) <==> Brings(w, other, k, ev)
  }

  lemma DeliveryBrings(w: Conversions, run: seq<Call>, i: nat, k: string)
    requires Delivered(w, run, i, k)
    ensures Brings(w, run, k, run[i].event)
  {
    hide Complete, Slot;
  }

  lemma WhoBrings(w: Conversions, run: seq<Call>, k: string, ev: Json) returns (i: nat)
    requires Brings(w, run, k, ev)
    ensures Delivered(w, run, i, k) && run[i].event == ev
  {
    hide Complete, Slot;
    i :| 0 <= i < |run| && Delivered(w, run, i, k) && run[i].event == ev;
  }

  /** What the slot says at the end of a run, without its id and time. */
  function Final(w: Conversions, s: State, run: seq<Call>, k: string): Option<Record> {
    Says(After(w, s, run, |run|), k)
  }

  function Says(s: State, k: string): Option<Record> {
    if k in s.store then Some(Plain(s.store[k])) else None
  }

  /** Delivery `i` is of the highest version, and not older than what the slot held at the start. */
  ghost predicate Highest(w: Conversions, s: State, run: seq<Call>, k: string, i: nat) {
    Delivered(w, run, i, k) && !Above(Floor(w, s, k), Version(w, run[i].event))
    && forall j: nat :: Delivered(w, run, j, k) ==> !Above(Version(w, run[j].event), Version(w, run[i].event))
  }

  /** All such deliveries say the same. */
  ghost predicate Settled(w: Conversions, s: State, run: seq<Call>, k: string) {
    forall i: nat, j: nat :: Highest(w, s, run, k, i) && Highest(w, s, run, k, j) ==>
      Content(w, run[i].event) == Content(w, run[j].event)
  }

  /** The slot holds the same version and content in both states. */
  predicate SameStart(w: Conversions, s: State, t: State, k: string) {
    Floor(w, s, k) == Floor(w, t, k) && Says(s, k) == Says(t, k)
  }

  /** Runs with the same deliveries have the same highest content. */
  lemma SameTop(w: Conversions, s: State, run: seq<Call>, t: State, other: seq<Call>, k: string, i: nat, j: nat)
    requires SameEvents(w, run, other, k) && Settled(w, s, run, k) && SameStart(w, s, t, k)
    requires AllRegular(w, run, k)
    requires Highest(w, s, run, k, i) && Highest(w, t, other, k, j)
    ensures Content(w, run[i].event) == Content(w, other[j].event)
  {
    hide Version, Content, Complete, Slot, Brings, Extra;
    DeliveryBrings(w, run, i, k);
    DeliveryBrings(w, other, j, k);
    var i' := WhoBrings(w, run, k, other[j].event);
    var j' := WhoBrings(w, other, k, run[i].event);
    assert !Above(Version(w, other[j'].event), Version(w, other[j].event));
    assert Highest(w, s, run, k, i');
  }

  lemma LastIsHighest(w: Conversions, s: State, run: seq<Call>, k: string, i: nat)
    requires LastHighest(w, s, run, |run|, k, i)
    ensures Highest(w, s, run, k, i) && i < |run|
  {
    hide Version, Complete, Slot;
  }

  /** One run cannot leave the slot untouched while another with the same deliveries does not. */
  lemma TouchedAlike(w: Conversions, s: State, run: seq<Call>, t: State, other: seq<Call>, k: string, j: nat)
    requires SameEvents(w, run, other, k) && SameStart(w, s, t, k) && Highest(w, t, other, k, j)
    ensures !Untouched(w, s, run, |run|, k)
  {
    hide Version, Complete, Slot, Brings, AllRegular;
    DeliveryBrings(w, other, j, k);
    var i := WhoBrings(w, run, k, other[j].event);
  }

  /** Two runs with the same deliveries to a slot end with the same content in it. */
  lemma Converges(w: Conversions, s: State, run: seq<Call>, t: State, other: seq<Call>, k: string)
    requires AllRegular(w, run, k) && InOrder(w, s, k) && InOrder(w, t, k) && SameStart(w, s, t, k)
    requires SameEvents(w, run, other, k) && Settled(w, s, run, k)
    ensures Final(w, s, run, k) == Final(w, t, other, k)
  {
    hide After, Content, Settled, Highest, Brings, LastHighest, Delivered, Version, Untouched, FieldTruthy, Regular,
         Plain, Floor;
    var i := ReflectsLastHighest(w, s, run, |run|, k);
    var j := ReflectsLastHighest(w, t, other, |other|, k);
    if i.Some? {
      LastIsHighest(w, s, run, k, i.value);
    }
    if j.Some? {
      LastIsHighest(w, t, other, k, j.value);
      TouchedAlike(w, s, run, t, other, k, j.value);
    }
    if i.Some? {
      SameEventsBack(w, run, other, k);
      TouchedAlike(w, t, other, s, run, k, i.value);
    }
    if i.Some? && j.Some? {
      SameTop(w, s, run, t, other, k, i.value, j.value);
    }
  }

  lemma SameEventsBack(w: Conversions, run: seq<Call>, other: seq<Call>, k: string)
    requires AllRegular(w, run, k) && SameEvents(w, run, other, k)
    ensures SameEvents(w, other, run, k)
  {
    hide Brings, Regular, Delivered;
  }

  /** A repeated delivery is one of the run's own. */
  lemma RepeatedFrom(w: Conversions, run: seq<Call>, k: string, i: nat, j: nat)
    requires Delivered(w, run, i, k) && Delivered(w, run + [run[i]], j, k)
    ensures var j0 := if j < |run| then j else i;
            Delivered(w, run, j0, k) && run[j0] == (run + [run[i]])[j]
  {
    hide Complete, Slot;
  }

  lemma StillDelivered(w: Conversions, run: seq<Call>, c: Call, j: nat, k: string)
    requires Delivered(w, run, j, k)
    ensures Delivered(w, run + [c], j, k) && (run + [c])[j] == run[j]
  {
    hide Complete, Slot;
  }

  /** Repeating a delivery changes nothing about which events were delivered. */
  lemma RepeatIsSame(w: Conversions, run: seq<Call>, k: string, i: nat)
    requires AllRegular(w, run, k) && Delivered(w, run, i, k)
    ensures SameEvents(w, run, run + [run[i]], k)
  {
    hide Regular, Complete, Slot, Brings;
    var more := run + [run[i]];
    forall j: nat | Delivered(w, more, j, k)
      ensures Regular(w, more[j])
    {
      RepeatedFrom(w, run, k, i, j);
    }
    forall ev | Brings(w, more, k, ev)
      ensures Brings(w, run, k, ev)
    {
      var j := WhoBrings(w, more, k, ev);
      RepeatedFrom(w, run, k, i, j);
      DeliveryBrings(w, run, if j < |run| then j else i, k);
    }
    forall ev | Brings(w, run, k, ev)
      ensures Brings(w, more, k, ev)
    {
      var j := WhoBrings(w, run, k, ev);
      StillDelivered(w, run, run[i], j, k);
      DeliveryBrings(w, more, j, k);
    }
  }

  lemma RepeatIsLast(w: Conversions, s: State, run: seq<Call>, k: string, i: nat, last: Option<nat>)
    requires Highest(w, s, run, k, i)
    requires last.None? ==> Untouched(w, s, run + [run[i]], |run| + 1, k)
    requires last.Some? ==> LastHighest(w, s, run + [run[i]], |run| + 1, k, last.value)
    ensures last == Some(|run|)
  {
    hide Version, Complete, Slot;
    var more := run + [run[i]];
    assert Delivered(w, more, |run|, k) && more[|run|] == run[i];
    if last.Some? {
      RepeatedFrom(w, run, k, i, last.value);
    }
  }

  /** Delivering one of the highest events once more leaves the slot saying what it says. */
  lemma Redelivered(w: Conversions, s: State, run: seq<Call>, k: string, i: nat)
    requires AllRegular(w, run, k) && InOrder(w, s, k) && Highest(w, s, run, k, i)
    ensures SameEvents(w, run, run + [run[i]], k)
    ensures Final(w, s, run + [run[i]], k) == Some(Content(w, run[i].event))
  {
    hide Version, Regular, Content, After, Brings, LastHighest, Complete, Slot, FieldTruthy, Plain, Floor, Untouched;
    var more := run + [run[i]];
    RepeatIsSame(w, run, k, i);
    var last := ReflectsLastHighest(w, s, more, |more|, k);
    RepeatIsLast(w, s, run, k, i, last);
  }

  /** The content a slot ends with depends only on which events were delivered to it exactly when
      all deliveries of the highest version carry the same content. */
  lemma ConvergesIffSettled(w: Conversions, s: State, run: seq<Call>, k: string)
    requires AllRegular(w, run, k) && InOrder(w, s, k)
    ensures Settled(w, s, run, k)
       <==> forall other :: SameEvents(w, run, other, k) ==> Final(w, s, other, k) == Final(w, s, run, k)
  {
    hide Final, Version, Regular, Content, Brings, SameEvents, Complete, Slot, FieldTruthy, Floor;
    if Settled(w, s, run, k) {
      forall other | SameEvents(w, run, other, k)
        ensures Final(w, s, other, k) == Final(w, s, run, k)
      {
        Converges(w, s, run, s, other, k);
      }
    } else {
      var i: nat, j: nat :| Highest(w, s, run, k, i) && Highest(w, s, run, k, j)
                            && Content(w, run[i].event) != Content(w, run[j].event);
      Redelivered(w, s, run, k, i);
      Redelivered(w, s, run, k, j);
    }
  }

  // ----- Where the guarantees end -----------------------------------------------------------------------

  /** The version that storing an event leaves in its slot. */
  function StoredVersion(w: Conversions, ev: Json): Numeric {
    if "entity_version" in Extra(ev) then NumberOf(w, Extra(ev)["entity_version"]) else Version(w, ev)
  }

  /** What a complete event does to its slot, whatever it carries. */
  lemma StoredStep(w: Conversions, s: State, c: Call, k: string)
    requires Addresses(w, c, k)
    ensures var t := Step(w, s, c).0;
            if Above(Floor(w, s, k), Version(w, c.event)) then t == s
            else k in t.store && t.store[k] == NewRecord(w, c.event, KeptId(s, k, c.newId), c.time)
                 && Floor(w, t, k) == StoredVersion(w, c.event)
  {
    hide Complete, Slot, Member, Spread, FieldTruthy;
    NullIncomplete();
  }

  /** A delivery leaves its slot without a number for a version exactly when it is stored and
      neither its record nor, where that has none, the event itself gives a version that is one. */
  lemma NumberLostIff(w: Conversions, s: State, c: Call, k: string)
    requires Addresses(w, c, k)
    ensures Floor(w, Step(w, s, c).0, k) == NaN
       <==> !Above(Floor(w, s, k), Version(w, c.event))
            && if "entity_version" in Extra(c.event) then NumberOf(w, Extra(c.event)["entity_version"]) == NaN
               else Version(w, c.event) == NaN
  {
    hide Addresses, Spread, Member, Step;
    StoredStep(w, s, c, k);
  }

  /** A slot without a number for a version takes every complete event. */
  lemma NaNTakesEverything(w: Conversions, s: State, c: Call, k: string)
    requires Addresses(w, c, k) && Floor(w, s, k) == NaN
    ensures var (t, r) := Step(w, s, c);
            && !r.OlderVersion?
            && k in t.store && t.store[k] == NewRecord(w, c.event, KeptId(s, k, c.newId), c.time)
  {
    hide Complete, Slot, Member, Spread, FieldTruthy;
    NullIncomplete();
  }

  /** A delivery lowers a version that is a number exactly when it is stored and its record
      redefines the version below that number. */
  lemma VersionDropsIff(w: Conversions, s: State, c: Call, k: string)
    requires Addresses(w, c, k)
    ensures Above(Floor(w, s, k), Floor(w, Step(w, s, c).0, k))
       <==> !Above(Floor(w, s, k), Version(w, c.event))
            && "entity_version" in Extra(c.event)
            && Above(Floor(w, s, k), NumberOf(w, Extra(c.event)["entity_version"]))
  {
    hide Addresses, Spread, Member, Step;
    StoredStep(w, s, c, k);
  }

  /** A delivery changes a slot's id exactly when it is stored and its record carries another id, or
      carries none while the stored id counts as false. */
  lemma IdChangesIff(w: Conversions, s: State, c: Call, k: string)
    requires Addresses(w, c, k) && k in s.store && c.newId != ""
    ensures var t := Step(w, s, c).0;
            k in t.store
            && (FieldAt(t.store[k], "id") != FieldAt(s.store[k], "id")
                <==> !Above(Floor(w, s, k), Version(w, c.event))
                     && if "id" in Extra(c.event) then Extra(c.event)["id"] != FieldAt(s.store[k], "id")
                        else !FieldTruthy(FieldAt(s.store[k], "id")))
  {
    hide Addresses, Spread, Member, Step;
    StoredStep(w, s, c, k);
  }

  /** In any run, a slot whose version is no longer the number it was, nor a higher one, has taken a
      delivery that put a lower number there or none at all. */
  lemma {:induction false} WentBackBecause(w: Conversions, s: State, run: seq<Call>, m: nat, n: nat, k: string)
    returns (j: nat)
    requires m <= n <= |run| && Floor(w, After(w, s, run, m), k) != NaN
    requires var now := Floor(w, After(w, s, run, n), k);
             now == NaN || Above(Floor(w, After(w, s, run, m), k), now)
    ensures m <= j < n && Delivered(w, run, j, k)
    ensures var before := Floor(w, After(w, s, run, j), k);
            && !Above(before, Version(w, run[j].event))
            && (StoredVersion(w, run[j].event) == NaN || Above(before, StoredVersion(w, run[j].event)))
  {
    hide Step, Addresses, StoredVersion, NewRecord, Version;
    var was, now := Floor(w, After(w, s, run, n - 1), k), Floor(w, After(w, s, run, n), k);
    if was == NaN || Above(Floor(w, After(w, s, run, m), k), was) {
      j := WentBackBecause(w, s, run, m, n - 1, k);
    } else {
      j := n - 1;
      if Delivered(w, run, j, k) {
        StoredStep(w, After(w, s, run, j), run[j], k);
      } else {
        OtherStep(w, After(w, s, run, j), run[j], k);
      }
    }
  }

  function Sample(version: Json): Json {
    Obj([Entry("entity_type", Str("contact")), Entry("external_key", Str("1")), Entry("entity_version", version)])
  }

  /** Deliveries of 5, "abc" and 3 to an empty slot: the second is stored without a number, and so
      the third is stored over the first. */
  lemma OlderAfterNaN(w: Conversions, fault: Json, newId: string, time: string)
    requires Proper(w) && w.number(Str("abc")) == NaN
    ensures var run := [EventBody(Sample(Num(5)), newId, time), EventBody(Sample(Str("abc")), newId, time),
                        EventBody(Sample(Num(3)), newId, time)];
            var s := State(map[], fault);
            && Floor(w, After(w, s, run, 1), "contact:1") == Finite(5.0)
            && Floor(w, After(w, s, run, 3), "contact:1") == Finite(3.0)
  {
    var a := EventBody(Sample(Num(5)), newId, time);
    var b := EventBody(Sample(Str("abc")), newId, time);
    var c := EventBody(Sample(Num(3)), newId, time);
    var run, s, k := [a, b, c], State(map[], fault), "contact:1";
    SampleStored(w, Num(5), newId, time);
    SampleStored(w, Str("abc"), newId, time);
    SampleStored(w, Num(3), newId, time);
    hide Step, Addresses, StoredVersion, Version, Sample;
    assert After(w, s, run, 0) == s;
    assert After(w, s, run, 1) == Step(w, After(w, s, run, 0), a).0;
    assert After(w, s, run, 2) == Step(w, After(w, s, run, 1), b).0;
    assert After(w, s, run, 3) == Step(w, After(w, s, run, 2), c).0;
    StoredStep(w, After(w, s, run, 0), a, k);
    StoredStep(w, After(w, s, run, 1), b, k);
    StoredStep(w, After(w, s, run, 2), c, k);
  }

  lemma SampleStored(w: Conversions, version: Json, newId: string, time: string)
    requires Proper(w) && version !in {Undefined, Null}
    ensures Addresses(w, EventBody(Sample(version), newId, time), "contact:1")
    ensures Version(w, Sample(version)) == StoredVersion(w, Sample(version)) == w.number(version)
  {
    var fields := Sample(version).fields;
    assert Get(fields[1..], "external_key") == Str("1");
    assert Get(fields[1..][1..], "entity_version") == version;
    assert Get(fields[1..][1..][1..], "record") == Undefined;
    assert Get(fields, "external_key") == Str("1");
    assert Get(fields[1..], "entity_version") == version && Get(fields, "entity_version") == version;
    assert Get(fields[1..][1..], "record") == Undefined && Get(fields[1..], "record") == Undefined;
  }

  function SampleWith(version: Json, record: seq<Entry<Json>>): Json {
    Obj([Entry("entity_type", Str("contact")), Entry("external_key", Str("1")), Entry("entity_version", version),
         Entry("record", Obj(record))])
  }

  lemma SampleWithStored(w: Conversions, version: Json, record: seq<Entry<Json>>, newId: string, time: string)
    requires Proper(w) && version !in {Undefined, Null}
    ensures Addresses(w, EventBody(SampleWith(version, record), newId, time), "contact:1")
    ensures Version(w, SampleWith(version, record)) == w.number(version)
    ensures Extra(SampleWith(version, record)) == SpreadFields(record)
  {
    var fields := SampleWith(version, record).fields;
    assert Get(fields[1..], "external_key") == Str("1");
    assert Get(fields[1..][1..], "entity_version") == version;
    assert Get(fields[1..][1..][1..], "record") == Obj(record);
    assert Get(fields, "external_key") == Str("1");
    assert Get(fields[1..], "entity_version") == version && Get(fields, "entity_version") == version;
    assert Get(fields[1..][1..], "record") == Obj(record) && Get(fields[1..], "record") == Obj(record);
  }

  lemma StoredId(w: Conversions, ev: Json, id: Field, time: string)
    ensures FieldAt(NewRecord(w, ev, id, time), "id") == if "id" in Extra(ev) then Extra(ev)["id"] else id
  {
    hide Extra, Version, Member;
  }

  /** Two deliveries of version 5, the second with a record that redefines the version as 1 and the id:
      both are stored. */
  lemma RedefinedRecord(w: Conversions, fault: Json, newId: string, time: string)
    requires Proper(w) && newId != ""
    ensures var record := [Entry("entity_version", Num(1)), Entry("id", Str("x"))];
            var run := [EventBody(Sample(Num(5)), newId, time), EventBody(SampleWith(Num(5), record), newId, time)];
            var s, k := State(map[], fault), "contact:1";
            var t, u := After(w, s, run, 1), After(w, s, run, 2);
            && Floor(w, t, k) == Finite(5.0) && Floor(w, u, k) == Finite(1.0)
            && k in t.store && FieldAt(t.store[k], "id") == V(Str(newId))
            && k in u.store && FieldAt(u.store[k], "id") == V(Str("x"))
  {
    var record := [Entry("entity_version", Num(1)), Entry("id", Str("x"))];
    var a, b := EventBody(Sample(Num(5)), newId, time), EventBody(SampleWith(Num(5), record), newId, time);
    var run, s, k := [a, b], State(map[], fault), "contact:1";
    SampleStored(w, Num(5), newId, time);
    SampleWithStored(w, Num(5), record, newId, time);
    SampleSpread(record);
    NothingExtra(Num(5));
    hide Step, Addresses, Version, Sample, SampleWith, Spread, SpreadFields, Extra, NewRecord;
    assert After(w, s, run, 0) == s;
    assert After(w, s, run, 1) == Step(w, After(w, s, run, 0), a).0;
    assert After(w, s, run, 2) == Step(w, After(w, s, run, 1), b).0;
    StoredStep(w, s, a, k);
    StoredId(w, a.event, KeptId(s, k, newId), time);
    StoredStep(w, After(w, s, run, 1), b, k);
    StoredId(w, b.event, KeptId(After(w, s, run, 1), k, newId), time);
  }

  lemma SampleSpread(record: seq<Entry<Json>>)
    requires record == [Entry("entity_version", Num(1)), Entry("id", Str("x"))]
    ensures SpreadFields(record) == map["entity_version" := V(Num(1)), "id" := V(Str("x"))]
  {
    var last := record[1..];
    assert last == [Entry("id", Str("x"))] && last[1..] == [];
    assert SpreadFields(last[1..]) == map[];
    assert SpreadFields(last) == map["id" := V(Str("x"))];
    assert SpreadFields(record) == SpreadFields(last)["entity_version" := V(Num(1))];
  }

  lemma NothingExtra(version: Json)
    ensures Extra(Sample(version)) == map[]
  {
    var fields := Sample(version).fields;
    assert Get(fields[1..][1..][1..], "record") == Undefined;
    assert Get(fields[1..][1..], "record") == Undefined && Get(fields[1..], "record") == Undefined;
  }

  /** One field that the events of a slot may tell differently. */
  function Named(name: string): Json {
    SampleWith(Num(5), [Entry("name", Str(name))])
  }

  lemma NamedStored(w: Conversions, name: string, newId: string, time: string)
    requires Proper(w) && newId != ""
    ensures var c := EventBody(Named(name), newId, time);
            Addresses(w, c, "contact:1") && Regular(w, c) && Version(w, c.event) == Finite(5.0)
    ensures "name" in Content(w, Named(name)) && Content(w, Named(name))["name"] == V(Str(name))
  {
    var record := [Entry("name", Str(name))];
    SampleWithStored(w, Num(5), record, newId, time);
    assert record[1..] == [];
    assert SpreadFields(record) == map["name" := V(Str(name))];
    hide SampleWith, Spread, SpreadFields, Member;
  }

  /** Two deliveries of version 5 that give different names: the slot ends with the one that comes last,
      so the order matters. */
  lemma EqualVersionsDiffer(w: Conversions, fault: Json, newId: string, time: string)
    requires Proper(w) && newId != ""
    ensures var a, b := EventBody(Named("a"), newId, time), EventBody(Named("b"), newId, time);
            var s, k := State(map[], fault), "contact:1";
            && AllRegular(w, [a, b], k) && SameEvents(w, [a, b], [b, a], k)
            && Final(w, s, [a, b], k) == Some(Content(w, Named("b")))
            && Final(w, s, [b, a], k) == Some(Content(w, Named("a")))
            && Content(w, Named("a")) != Content(w, Named("b"))
  {
    var a, b := EventBody(Named("a"), newId, time), EventBody(Named("b"), newId, time);
    var s, k := State(map[], fault), "contact:1";
    NamedStored(w, "a", newId, time);
    NamedStored(w, "b", newId, time);
    hide Named, Addresses, Regular, Version, Content, Final, Brings;
    SecondWins(w, s, a, b, k);
    SecondWins(w, s, b, a, k);
    forall ev ensures Brings(w, [a, b], k, ev) <==> Brings(w, [b, a], k, ev) {
      PairBrings(w, a, b, k, ev);
      PairBrings(w, b, a, k, ev);
    }
  }

  lemma PairBrings(w: Conversions, c: Call, d: Call, k: string, ev: Json)
    requires Addresses(w, c, k) && Addresses(w, d, k)
    ensures Brings(w, [c, d], k, ev) <==> ev == c.event || ev == d.event
  {
    hide Complete, Slot;
    var run := [c, d];
    assert Delivered(w, run, 0, k) && Delivered(w, run, 1, k);
  }

  lemma SecondWins(w: Conversions, s: State, c: Call, d: Call, k: string)
    requires Addresses(w, c, k) && Addresses(w, d, k) && Regular(w, c) && Regular(w, d) && k !in s.store
    requires Version(w, c.event) == Version(w, d.event)
    ensures AllRegular(w, [c, d], k) && Final(w, s, [c, d], k) == Some(Content(w, d.event))
  {
    hide Complete, Slot, Regular, Version, Content, After, Plain, FieldTruthy;
    var run := [c, d];
    assert Delivered(w, run, 1, k);
    assert AllRegular(w, run, k);
    RegularVersion(w, d);
    var i := ReflectsLastHighest(w, s, run, 2, k);
    assert i == Some(1);
  }

  lemma RegularVersion(w: Conversions, c: Call)
    requires Regular(w, c)
    ensures Version(w, c.event) != NaN
  {
  }

  predicate StartsWith(s: string, p: string) {
    |p| <= |s| && s[..|p|] == p
  }

  /** Two entity types share no slot exactly when neither begins with the other and a colon. */
  lemma SlotsApartIff(t: string, u: string)
    requires t != u
    ensures (forall a, b :: a != "" && b != "" ==> SlotOf(t, a) != SlotOf(u, b))
       <==> !StartsWith(t, u + ":") && !StartsWith(u, t + ":")
  {
    forall a, b | SlotOf(t, a) == SlotOf(u, b)
      ensures StartsWith(t, u + ":") || StartsWith(u, t + ":")
    {
      SharedSlot(t, a, u, b);
    }
    if StartsWith(t, u + ":") {
      ShareSlot(t, u);
    }
    if StartsWith(u, t + ":") {
      ShareSlot(u, t);
    }
  }

  lemma ShareSlot(t: string, u: string)
    requires StartsWith(t, u + ":")
    ensures exists a, b :: a != "" && b != "" && SlotOf(t, a) == SlotOf(u, b)
  {
    var rest := t[|u| + 1..];
    assert t == u + ":" + rest;
    var b := rest + (":" + "x");
    assert SlotOf(t, "x") == SlotOf(u, b);
  }

  lemma SharedSlot(t: string, a: string, u: string, b: string)
    requires t != u && SlotOf(t, a) == SlotOf(u, b)
    ensures StartsWith(t, u + ":") || StartsWith(u, t + ":")
  {
    var s, r := SlotOf(t, a), SlotOf(u, b);
    assert s[..|t|] == t && r[..|u|] == u && s[|t|] == ':' && r[|u|] == ':';
    assert |t| == |u| ==> t == u;
    if |t| < |u| {
      assert u[..|t|] == t && u[|t|] == ':';
      assert u[..|t| + 1] == t + ":";
    } else {
      assert t[..|u|] == u && t[|u|] == ':';
      assert t[..|u| + 1] == u + ":";
    }
  }
}
