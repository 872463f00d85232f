/** The requirement-editing rules of components/PlanForm.tsx. Every handler builds a new
    record from the current one; the record itself lives in the caller. */
module PlanForm {
  import opened Wrappers
  import opened Types

  /** The bedroom counter's bounds, kept by the − and + buttons. */
  const MinRooms: int := 1
  const MaxRooms: int := 10

  predicate RoomsInRange(req: UserRequirements) {
    MinRooms <= req.rooms <= MaxRooms
  }

  /** The keys of the requirements record. */
  datatype Field = Rooms | HasHall | HasKitchen | HasBalcony | TotalArea | Country | AdditionalNotes

  /** A field's value, tagged with its kind. */
  datatype FieldValue = Number(n: int) | Flag(b: bool) | Text(s: string)

  /** `requirements[field]`. */
  function Get(req: UserRequirements, f: Field): FieldValue {
    match f
    case Rooms => Number(req.rooms)
    case HasHall => Flag(req.hasHall)
    case HasKitchen => Flag(req.hasKitchen)
    case HasBalcony => Flag(req.hasBalcony)
    case TotalArea => Number(req.totalArea)
    case Country => Text(req.country)
    case AdditionalNotes => Text(req.additionalNotes)
  }

  /** The value has the kind the field holds (every call site passes one). */
  predicate Fits(f: Field, v: FieldValue) {
    match f
    case Rooms | TotalArea => v.Number?
    case HasHall | HasKitchen | HasBalcony => v.Flag?
    case Country | AdditionalNotes => v.Text?
  }

  /** Two records that agree on every field are the same record. */
  lemma FieldsDetermineRecord(a: UserRequirements, b: UserRequirements)
    requires forall f :: Get(a, f) == Get(b, f)
    ensures a == b
  {
    assert Get(a, Rooms) == Get(b, Rooms);
    assert Get(a, HasHall) == Get(b, HasHall);
    assert Get(a, HasKitchen) == Get(b, HasKitchen);
    assert Get(a, HasBalcony) == Get(b, HasBalcony);
    assert Get(a, TotalArea) == Get(b, TotalArea);
    assert Get(a, Country) == Get(b, Country);
    assert Get(a, AdditionalNotes) == Get(b, AdditionalNotes);
  }

  /** `handleChange(field, value)`: `{...requirements, [field]: value}`. The named field takes
      the value and every other field keeps its own. */
  function HandleChange(req: UserRequirements, f: Field, v: FieldValue): (r: UserRequirements)
    requires Fits(f, v)
    ensures Get(r, f) == v
    ensures forall g :: g != f ==> Get(r, g) == Get(req, g)
  {
    match f
    case Rooms => req.(rooms := v.n)
    case HasHall => req.(hasHall := v.b)
    case HasKitchen => req.(hasKitchen := v.b)
    case HasBalcony => req.(hasBalcony := v.b)
    case TotalArea => req.(totalArea := v.n)
    case Country => req.(country := v.s)
    case AdditionalNotes => req.(additionalNotes := v.s)
  }

  function Max(a: int, b: int): int { if a < b then b else a }
  function Min(a: int, b: int): int { if a < b then a else b }

  /** The − button: one bedroom fewer, but never below one. */
  function DecrementRooms(req: UserRequirements): (r: UserRequirements)
    ensures r.rooms >= MinRooms
    ensures req.rooms > MinRooms ==> r.rooms == req.rooms - 1
    ensures req.rooms <= MinRooms ==> r.rooms == MinRooms
    ensures forall g :: g != Rooms ==> Get(r, g) == Get(req, g)
  {
    HandleChange(req, Rooms, Number(Max(MinRooms, req.rooms - 1)))
  }

  /** The + button: one bedroom more, but never above ten. */
  function IncrementRooms(req: UserRequirements): (r: UserRequirements)
    ensures r.rooms <= MaxRooms
    ensures req.rooms < MaxRooms ==> r.rooms == req.rooms + 1
    ensures req.rooms >= MaxRooms ==> r.rooms == MaxRooms
    ensures forall g :: g != Rooms ==> Get(r, g) == Get(req, g)
  {
    HandleChange(req, Rooms, Number(Min(MaxRooms, req.rooms + 1)))
  }

  /** The three feature tiles. */
  datatype Feature = Hall | Kitchen | Balcony

  function FeatureField(t: Feature): Field {
    match t
    case Hall => HasHall
    case Kitchen => HasKitchen
    case Balcony => HasBalcony
  }

  /** Clicking a tile negates its flag and leaves every other field alone. */
  function Toggle(req: UserRequirements, t: Feature): (r: UserRequirements)
    ensures Get(r, FeatureField(t)) == Flag(!Get(req, FeatureField(t)).b)
    ensures forall g :: g != FeatureField(t) ==> Get(r, g) == Get(req, g)
  {
    HandleChange(req, FeatureField(t), Flag(!Get(req, FeatureField(t)).b))
  }

  /** Clicking a tile twice restores the record. */
  lemma ToggleTwice(req: UserRequirements, t: Feature)
    ensures Toggle(Toggle(req, t), t) == req
  {
    var r := Toggle(Toggle(req, t), t);
    forall g ensures Get(r, g) == Get(req, g) {
    }
    FieldsDetermineRecord(r, req);
  }

  /** The area input: `parseInt(value) || 0`, the parse given as its outcome (None for NaN). */
  function EditArea(req: UserRequirements, parsed: Option<int>): (r: UserRequirements)
    ensures parsed.Some? ==> r.totalArea == parsed.value
    ensures parsed.None? ==> r.totalArea == 0
    ensures forall g :: g != TotalArea ==> Get(r, g) == Get(req, g)
  {
    var n := if parsed.Some? && parsed.value != 0 then parsed.value else 0;
    HandleChange(req, TotalArea, Number(n))
  }

  /** Everything the form lets the user do to the record. */
  datatype FormEvent =
    | ClickDecrement
    | ClickIncrement
    | ClickFeature(feature: Feature)
    | TypeArea(parsed: Option<int>)
    | SelectCountry(country: string)
    | TypeNotes(notes: string)

  /** The record after one event. Only the two counter buttons touch the bedroom count. */
  function ApplyEvent(req: UserRequirements, e: FormEvent): (r: UserRequirements)
    ensures !e.ClickDecrement? && !e.ClickIncrement? ==> r.rooms == req.rooms
  {
    match e
    case ClickDecrement => DecrementRooms(req)
    case ClickIncrement => IncrementRooms(req)
    case ClickFeature(t) => Toggle(req, t)
    case TypeArea(parsed) => EditArea(req, parsed)
    case SelectCountry(c) => HandleChange(req, Country, Text(c))
    case TypeNotes(s) => HandleChange(req, AdditionalNotes, Text(s))
  }

  /** The record after a sequence of events, in order. */
  function ApplyEvents(req: UserRequirements, events: seq<FormEvent>): UserRequirements
    decreases |events|
  {
    if events == [] then req else ApplyEvents(ApplyEvent(req, events[0]), events[1..])
  }

  /** One event keeps the bedroom count in [1, 10]. */
  lemma EventKeepsRoomsInRange(req: UserRequirements, e: FormEvent)
    requires RoomsInRange(req)
    ensures RoomsInRange(ApplyEvent(req, e))
  {
  }

  /** Any sequence of events keeps the bedroom count in [1, 10]. */
  lemma {:induction false} EventsKeepRoomsInRange(req: UserRequirements, events: seq<FormEvent>)
    requires RoomsInRange(req)
    ensures RoomsInRange(ApplyEvents(req, events))
    decreases |events|
  {
    if events != [] {
      EventKeepsRoomsInRange(req, events[0]);
      EventsKeepRoomsInRange(ApplyEvent(req, events[0]), events[1..]);
    }
  }
}
