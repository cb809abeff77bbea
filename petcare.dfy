/** Pets and walks: the pet routes (routes/pets.js), the walk routes
    (routes/walks.js) and the walk schema's rules (models/Walks.js), over
    one in-memory store of both collections. Walk creation reads the pet
    collection, so the two live together.

    `new Date(v)` is a parameter `parse` that maps a request value to a
    time stamp, or to `None` when the date is invalid; times are integers. */
module PetCare {
  import opened Base
  import opened Sorting

  // ---------------------------------------------------------------------
  // Records

  /** A stored pet (models/Pet.js); `kind` is the `type` field. */
  datatype Pet = Pet(id: Id, owner: Id, name: string, kind: string, age: Option<int>, bio: string, createdAt: int)

  /** A stored walk (models/Walks.js). Route points are kept as sent. */
  datatype Walk = Walk(
    id: Id,
    owner: Id,
    pet: Id,
    distanceKm: int,
    durationMin: int,
    startedAt: int,
    endedAt: Option<int>,
    notes: string,
    route: seq<JsValue>)

  /** The body of `POST /api/pets`; `kind` is its `type`. */
  datatype PetForm = PetForm(name: JsValue, kind: JsValue, species: JsValue, age: JsValue, bio: JsValue)

  /** The body of `POST /api/walks`. */
  datatype WalkForm = WalkForm(
    petId: JsValue,
    distanceKm: JsValue,
    durationMin: JsValue,
    startedAt: JsValue,
    endedAt: JsValue,
    notes: JsValue,
    route: JsValue)

  /** The filter `GET /api/walks` builds: the owner always, the pet and
      each end of the `startedAt` range only when given. */
  datatype WalkQuery = WalkQuery(owner: Id, pet: Option<Id>, from: Option<int>, to: Option<int>)

  const PetFieldsRequired := "name, type 필수 (type=dog|cat 등)"
  const CreatePetFailed := "Failed to create pet"
  const BadId := "잘못된 id 형식입니다."
  const PetNotFound := "대상을 찾을 수 없거나 권한이 없습니다."
  const BadOwnerFormat := "잘못된 owner 형식입니다."
  const BadFrom := "from 날짜 형식이 올바르지 않습니다."
  const BadTo := "to 날짜 형식이 올바르지 않습니다."
  const LoadWalksFailed := "Failed to load walks"
  const BadPetId := "잘못된 petId 형식입니다."
  const NoSuchPet := "존재하지 않는 반려동물입니다."
  const BadStartedAt := "startedAt 날짜 형식이 올바르지 않습니다."
  const BadEndedAt := "endedAt 날짜 형식이 올바르지 않습니다."
  const EndBeforeStart := "endedAt은 startedAt 이후여야 합니다."
  const CreateWalkFailed := "Failed to create walk"
  const WalkNotFound := "기록을 찾을 수 없거나 권한이 없습니다."
  const DeleteWalkFailed := "Failed to delete walk"

  // ---------------------------------------------------------------------
  // Schema rules

  /** No upper-case ASCII letter. */
  predicate LowerCase(s: string)
  {
    forall i :: 0 <= i < |s| ==> !('A' <= s[i] <= 'Z')
  }

  /** The pet schema: `name` and `type` are required, trimmed, and `type`
      is lower-cased. */
  predicate PetValid(p: Pet)
  {
    && p.name != [] && Trimmed(p.name)
    && p.kind != [] && Trimmed(p.kind) && LowerCase(p.kind)
    && IsObjectId(p.owner)
  }

  /** The `endedAt` validator: an end, when there is one, is not before
      the start. */
  predicate EndedAtValid(w: Walk)
  {
    w.endedAt.None? || w.endedAt.value >= w.startedAt
  }

  /** The walk schema: the validator, the minimum 0 of distance and
      duration, and the required owner and pet references. */
  predicate WalkValid(w: Walk)
  {
    EndedAtValid(w) && w.distanceKm >= 0 && w.durationMin >= 0 && IsObjectId(w.owner) && IsObjectId(w.pet)
  }

  predicate PetIdsUnique(ps: seq<Pet>)
  {
    forall i, j :: 0 <= i < j < |ps| ==> ps[i].id != ps[j].id
  }

  predicate WalkIdsUnique(ws: seq<Walk>)
  {
    forall i, j :: 0 <= i < j < |ws| ==> ws[i].id != ws[j].id
  }

  // ---------------------------------------------------------------------
  // Pets

  /** `if (!type && species) type = species` */
  function PetKind(form: PetForm): (r: JsValue)
    ensures Truthy(form.kind) ==> r == form.kind
    ensures !Truthy(form.kind) ==> r == (if Truthy(form.species) then form.species else form.kind)
    ensures Truthy(r) <==> Truthy(form.kind) || Truthy(form.species)
  {
    if !Truthy(form.kind) && Truthy(form.species) then form.species else form.kind
  }

  /** The stored age: absent for `undefined`, `null` and `""`, else
      `Number(age)`. The outer `None` is a NaN, which the schema's number
      cast refuses. */
  function PetAge(age: JsValue): (r: Option<Option<int>>)
    ensures age.Undefined? || age.Null? || age == Str("") ==> r == Some(None)
    ensures !(age.Undefined? || age.Null? || age == Str("")) ==>
              (r.Some? <==> ToNumber(age).Some?) && (r.Some? ==> r.value == ToNumber(age))
  {
    if age.Undefined? || age.Null? || age == Str("") then Some(None)
    else match ToNumber(age)
      case Some(n) => Some(Some(n))
      case None => None
  }

  /** Lower-casing keeps a trimmed string trimmed, and leaves no upper-case
      letter. */
  lemma LowerKeepsTrimmed(t: string)
    requires Trimmed(t)
    ensures Trimmed(ToLower(t)) && LowerCase(ToLower(t))
  {
    LowerTrimmed(t);
  }

  /** `POST /api/pets` up to `Pet.create`: 400 without a name or a type
      (after the `species` fallback); the schema refuses (500) an owner
      that is not an ObjectId, a name or type that trims to nothing, and an
      age that is NaN. The stored pet has a trimmed name, a trimmed
      lower-case type and a trimmed bio or "". */
  function NewPet(owner: Id, form: PetForm, freshId: Id, now: int): (r: Reply<Pet>)
    ensures r.Fail? && r.status == 400 <==> !Truthy(form.name) || !Truthy(PetKind(form))
    ensures r.Fail? ==> r.status == 400 || r == Fail(500, CreatePetFailed)
    ensures r.Fail? && r.status != 400 <==>
              Truthy(form.name) && Truthy(PetKind(form))
              && (!IsObjectId(owner) || Trim(JsString(form.name)) == [] || Trim(JsString(PetKind(form))) == []
                  || PetAge(form.age).None?)
    ensures r.Ok? ==> PetValid(r.value)
    ensures r.Ok? ==> && r.value.id == freshId && r.value.owner == owner && r.value.createdAt == now
                      && r.value.name == Trim(JsString(form.name))
                      && r.value.kind == ToLower(Trim(JsString(PetKind(form))))
                      && Some(r.value.age) == PetAge(form.age)
                      && r.value.bio == (if Truthy(form.bio) then Trim(JsString(form.bio)) else "")
  {
    var kind := PetKind(form);
    if !Truthy(form.name) || !Truthy(kind) then Fail(400, PetFieldsRequired)
    else
      var name := Trim(JsString(form.name));
      var trimmedKind := Trim(JsString(kind));
      var age := PetAge(form.age);
      if !IsObjectId(owner) || name == [] || trimmedKind == [] || age.None? then Fail(500, CreatePetFailed)
      else
        LowerKeepsTrimmed(trimmedKind);
        var bio := if Truthy(form.bio) then Trim(JsString(form.bio)) else "";
        Ok(Pet(freshId, owner, name, ToLower(trimmedKind), age.value, bio, now))
  }

  /** A pet with a fresh id that passes the schema keeps the collection's
      rules. */
  lemma AppendPetKeepsStore(ps: seq<Pet>, p: Pet)
    requires PetIdsUnique(ps) && forall i :: 0 <= i < |ps| ==> PetValid(ps[i])
    requires PetValid(p) && forall i :: 0 <= i < |ps| ==> ps[i].id != p.id
    ensures PetIdsUnique(ps + [p]) && forall i :: 0 <= i < |ps + [p]| ==> PetValid((ps + [p])[i])
  {
  }

  function PetCreatedAt(p: Pet): int { p.createdAt }

  /** The pets of one owner, in store order. */
  function PetsOf(ps: seq<Pet>, owner: Id): seq<Pet>
  {
    Filter(ps, (p: Pet) => p.owner == owner)
  }

  /** The index of the pet with this id. */
  function PetIndex(ps: seq<Pet>, id: Id): Option<nat>
  {
    IndexWhere(ps, (p: Pet) => p.id == id)
  }

  // ---------------------------------------------------------------------
  // Walks

  /** `parseDate(v)`: no date for a falsy value, else the date `v` denotes,
      or none when it is invalid. */
  function ParseDate(v: JsValue, parse: JsValue -> Option<int>): (r: Option<int>)
    ensures !Truthy(v) ==> r.None?
    ensures Truthy(v) ==> r == parse(v)
  {
    if Truthy(v) then parse(v) else None
  }

  /** The filter of `GET /api/walks`: 400 for a given `petId` that is not
      an ObjectId, and for a given `from` or `to` that is not a date. */
  function ListQuery(owner: Id, from: JsValue, to: JsValue, petId: JsValue, parse: JsValue -> Option<int>): (r: Reply<WalkQuery>)
    ensures Truthy(petId) && !IsObjectIdValue(petId) ==> r == Fail(400, BadOwnerFormat)
    ensures r.Fail? ==> r.status == 400
    ensures r.Fail? <==> (Truthy(petId) && !IsObjectIdValue(petId))
                         || (Truthy(from) && parse(from).None?) || (Truthy(to) && parse(to).None?)
    ensures r.Ok? ==> && r.value.owner == owner
                      && (r.value.pet.Some? <==> Truthy(petId))
                      && (r.value.pet.Some? ==> petId == Str(r.value.pet.value))
                      && (r.value.from.Some? <==> Truthy(from)) && (r.value.from.Some? ==> parse(from) == r.value.from)
                      && (r.value.to.Some? <==> Truthy(to)) && (r.value.to.Some? ==> parse(to) == r.value.to)
  {
    if Truthy(petId) && !IsObjectIdValue(petId) then Fail(400, BadOwnerFormat)
    else
      var fromDate := ParseDate(from, parse);
      var toDate := ParseDate(to, parse);
      if Truthy(from) && fromDate.None? then Fail(400, BadFrom)
      else if Truthy(to) && toDate.None? then Fail(400, BadTo)
      else Ok(WalkQuery(owner, if Truthy(petId) then Some(petId.s) else None, fromDate, toDate))
  }

  /** Whether a walk satisfies the filter: the owner, the pet when given,
      and the inclusive range `[from, to]` on `startedAt`. */
  predicate SelectedBy(w: Walk, q: WalkQuery)
  {
    && w.owner == q.owner
    && (q.pet.Some? ==> w.pet == q.pet.value)
    && (q.from.Some? ==> q.from.value <= w.startedAt)
    && (q.to.Some? ==> w.startedAt <= q.to.value)
  }

  function FilterWalks(ws: seq<Walk>, q: WalkQuery): (r: seq<Walk>)
    ensures forall w :: w in r <==> w in ws && SelectedBy(w, q)
  {
    if ws == [] then []
    else
      assert forall w :: w in ws <==> w == ws[0] || w in ws[1..];
      if SelectedBy(ws[0], q) then [ws[0]] + FilterWalks(ws[1..], q) else FilterWalks(ws[1..], q)
  }

  function StartedAt(w: Walk): int { w.startedAt }

  /** `Walk.find(q).sort({ startedAt: -1 })` */
  function WalkList(ws: seq<Walk>, q: WalkQuery): (r: seq<Walk>)
    ensures SortedDesc(r, StartedAt)
    ensures forall w :: w in r <==> w in ws && SelectedBy(w, q)
    ensures forall w :: w in r ==> w.owner == q.owner
  {
    var f := FilterWalks(ws, q);
    forall w ensures w in SortDesc(f, StartedAt) <==> w in f {
      SortDescMembers(f, StartedAt, w);
    }
    SortDesc(f, StartedAt)
  }

  /** `Math.max(0, Number(v) || 0)`: a positive number is kept, everything
      else is 0. */
  function Amount(v: JsValue): (r: int)
    ensures r >= 0
    ensures r != 0 <==> ToNumber(v).Some? && ToNumber(v).value > 0
    ensures r != 0 ==> r == ToNumber(v).value
  {
    Max(0, NumberOr(v, 0))
  }

  predicate HasPet(ps: seq<Pet>, id: Id)
  {
    exists i :: 0 <= i < |ps| && ps[i].id == id
  }

  /** `POST /api/walks` up to `Walk.create`, checks in the handler's order:
      the pet id's form and the pet's existence (400), the start, which
      defaults to now (400 when invalid), the end when given (400 when
      invalid or before the start); the schema then refuses (500) an owner
      that is not an ObjectId. */
  function NewWalk(ps: seq<Pet>, owner: Id, form: WalkForm, freshId: Id, now: int, parse: JsValue -> Option<int>): (r: Reply<Walk>)
    ensures !IsObjectIdValue(form.petId) ==> r == Fail(400, BadPetId)
    ensures IsObjectIdValue(form.petId) && !HasPet(ps, form.petId.s) ==> r == Fail(400, NoSuchPet)
    ensures r.Fail? ==> r.status == 400 || (r == Fail(500, CreateWalkFailed) && !IsObjectId(owner))
    ensures IsObjectIdValue(form.petId) && HasPet(ps, form.petId.s) && Truthy(form.startedAt) && parse(form.startedAt).None? ==>
              r == Fail(400, BadStartedAt)
    ensures r.Ok? <==> && IsObjectIdValue(form.petId) && HasPet(ps, form.petId.s) && IsObjectId(owner)
                       && (Truthy(form.startedAt) ==> parse(form.startedAt).Some?)
                       && (Truthy(form.endedAt) ==>
                             parse(form.endedAt).Some?
                             && parse(form.endedAt).value >= (if Truthy(form.startedAt) then parse(form.startedAt).value else now))
    ensures r.Ok? ==> WalkValid(r.value)
    ensures r.Ok? ==> && r.value.id == freshId && r.value.owner == owner && Str(r.value.pet) == form.petId
                      && r.value.startedAt == (if Truthy(form.startedAt) then parse(form.startedAt).value else now)
                      && (r.value.endedAt.Some? <==> Truthy(form.endedAt))
                      && (r.value.endedAt.Some? ==> parse(form.endedAt) == r.value.endedAt)
                      && r.value.distanceKm == Amount(form.distanceKm)
                      && r.value.durationMin == Amount(form.durationMin)
                      && r.value.notes == (if form.notes.Str? then form.notes.s else "")
                      && r.value.route == (if form.route.Arr? then form.route.items else [])
  {
    if !IsObjectIdValue(form.petId) then Fail(400, BadPetId)
    else if !HasPet(ps, form.petId.s) then Fail(400, NoSuchPet)
    else
      var sAt := if Truthy(form.startedAt) then ParseDate(form.startedAt, parse) else Some(now);
      if sAt.None? then Fail(400, BadStartedAt)
      else if Truthy(form.endedAt) && parse(form.endedAt).None? then Fail(400, BadEndedAt)
      else if Truthy(form.endedAt) && parse(form.endedAt).value < sAt.value then Fail(400, EndBeforeStart)
      else if !IsObjectId(owner) then Fail(500, CreateWalkFailed)
      else
        var eAt := if Truthy(form.endedAt) then parse(form.endedAt) else None;
        Ok(Walk(freshId, owner, form.petId.s, Amount(form.distanceKm), Amount(form.durationMin), sAt.value, eAt,
                if form.notes.Str? then form.notes.s else "",
                if form.route.Arr? then form.route.items else []))
  }

  /** The index of the walk with this id and this owner. */
  function OwnedWalkIndex(ws: seq<Walk>, id: Id, owner: Id): Option<nat>
  {
    IndexWhere(ws, (w: Walk) => w.id == id && w.owner == owner)
  }

  // ---------------------------------------------------------------------
  // The store

  class Store {
    var pets: seq<Pet>
    var walks: seq<Walk>

    /** Unique ids, and every document passes its schema. */
    ghost predicate Valid()
      reads this
    {
      && PetIdsUnique(pets) && WalkIdsUnique(walks)
      && (forall i :: 0 <= i < |pets| ==> PetValid(pets[i]))
      && (forall i :: 0 <= i < |walks| ==> WalkValid(walks[i]))
    }

    constructor()
      ensures Valid() && pets == [] && walks == []
    {
      pets := [];
      walks := [];
    }

    /** `POST /api/pets` */
    method CreatePet(owner: Id, form: PetForm, freshId: Id, now: int) returns (r: Reply<Pet>)
      requires Valid()
      requires forall i :: 0 <= i < |pets| ==> pets[i].id != freshId
      modifies this`pets
      ensures Valid()
      ensures r == NewPet(owner, form, freshId, now)
      ensures r.Ok? ==> pets == old(pets) + [r.value]
      ensures r.Fail? ==> pets == old(pets)
    {
      r := NewPet(owner, form, freshId, now);
      if r.Ok? {
        AppendPetKeepsStore(pets, r.value);
        pets := pets + [r.value];
      }
    }

    /** `GET /api/pets`: the caller's pets, newest first; an owner that is
        not an ObjectId fails the query's cast. */
    function ListPets(owner: Id): (r: Reply<seq<Pet>>)
      reads this
      ensures r.Fail? <==> !IsObjectId(owner)
      ensures r.Ok? ==> SortedDesc(r.value, PetCreatedAt)
      ensures r.Ok? ==> forall p :: p in r.value <==> p in pets && p.owner == owner
    {
      if !IsObjectId(owner) then Fail(500, CastFailure)
      else
        var mine := PetsOf(pets, owner);
        forall p ensures p in SortDesc(mine, PetCreatedAt) <==> p in mine {
          SortDescMembers(mine, PetCreatedAt, p);
        }
        Ok(SortDesc(mine, PetCreatedAt))
    }

    /** `DELETE /api/pets/:id`: 400 for an id that is not an ObjectId, 404
        when no pet has it, else that pet is removed, whoever owns it. */
    method DeletePet(id: string) returns (r: Reply<Pet>)
      requires Valid()
      modifies this`pets
      ensures Valid()
      ensures !IsObjectId(id) ==> r == Fail(400, BadId) && pets == old(pets)
      ensures IsObjectId(id) && PetIndex(old(pets), id).None? ==> r == Fail(404, PetNotFound) && pets == old(pets)
      ensures IsObjectId(id) && PetIndex(old(pets), id).Some? ==>
                && r == Ok(old(pets)[PetIndex(old(pets), id).value])
                && pets == RemoveAt(old(pets), PetIndex(old(pets), id).value)
      ensures forall p :: p in old(pets) && p.id != id ==> p in pets
    {
      if !IsObjectId(id) {
        return Fail(400, BadId);
      }
      var k := PetIndex(pets, id);
      if k.None? {
        return Fail(404, PetNotFound);
      }
      r := Ok(pets[k.value]);
      RemovePetAt(k.value);
    }

    method RemovePetAt(k: nat)
      requires Valid() && k < |pets|
      modifies this`pets
      ensures Valid()
      ensures pets == RemoveAt(old(pets), k)
      ensures forall p :: p in pets <==> p in old(pets) && p.id != old(pets)[k].id
    {
      var before := pets;
      pets := RemoveAt(pets, k);
      forall p | p in before && p.id != before[k].id ensures p in pets {
        var i :| 0 <= i < |before| && before[i] == p;
        if i < k { assert pets[i] == p; } else { assert pets[i - 1] == p; }
      }
    }

    /** `POST /api/walks` */
    method CreateWalk(owner: Id, form: WalkForm, freshId: Id, now: int, parse: JsValue -> Option<int>) returns (r: Reply<Walk>)
      requires Valid()
      requires forall i :: 0 <= i < |walks| ==> walks[i].id != freshId
      modifies this`walks
      ensures Valid()
      ensures r == NewWalk(pets, owner, form, freshId, now, parse)
      ensures r.Ok? ==> walks == old(walks) + [r.value]
      ensures r.Fail? ==> walks == old(walks)
    {
      r := NewWalk(pets, owner, form, freshId, now, parse);
      if r.Ok? {
        walks := walks + [r.value];
      }
    }

    /** `GET /api/walks`: the query's checks, then the caller's walks that
        pass the filter, latest start first. */
    function ListWalks(owner: Id, from: JsValue, to: JsValue, petId: JsValue, parse: JsValue -> Option<int>): (r: Reply<seq<Walk>>)
      reads this
      ensures ListQuery(owner, from, to, petId, parse).Fail? ==>
                r == Fail(ListQuery(owner, from, to, petId, parse).status, ListQuery(owner, from, to, petId, parse).message)
      ensures ListQuery(owner, from, to, petId, parse).Ok? ==>
                if IsObjectId(owner) then r == Ok(WalkList(walks, ListQuery(owner, from, to, petId, parse).value))
                else r == Fail(500, LoadWalksFailed)
    {
      match ListQuery(owner, from, to, petId, parse)
      case Fail(status, message) => Fail(status, message)
      case Ok(q) => if IsObjectId(owner) then Ok(WalkList(walks, q)) else Fail(500, LoadWalksFailed)
    }

    /** `DELETE /api/walks/:id`: 400 for an id that is not an ObjectId; only
        a walk of the caller with that id is removed, else 404. */
    method DeleteWalk(owner: Id, id: string) returns (r: Reply<Walk>)
      requires Valid()
      modifies this`walks
      ensures Valid()
      ensures !IsObjectId(id) ==> r == Fail(400, BadId) && walks == old(walks)
      ensures IsObjectId(id) && !IsObjectId(owner) ==> r == Fail(500, DeleteWalkFailed) && walks == old(walks)
      ensures IsObjectId(id) && IsObjectId(owner) ==>
                match OwnedWalkIndex(old(walks), id, owner)
                case None => r == Fail(404, WalkNotFound) && walks == old(walks)
                case Some(k) => r == Ok(old(walks)[k]) && walks == RemoveAt(old(walks), k)
      ensures forall w :: w in old(walks) && w.owner != owner ==> w in walks
    {
      if !IsObjectId(id) {
        return Fail(400, BadId);
      }
      if !IsObjectId(owner) {
        return Fail(500, DeleteWalkFailed);
      }
      var k := OwnedWalkIndex(walks, id, owner);
      if k.None? {
        return Fail(404, WalkNotFound);
      }
      r := Ok(walks[k.value]);
      RemoveWalkAt(k.value);
    }

    method RemoveWalkAt(k: nat)
      requires Valid() && k < |walks|
      modifies this`walks
      ensures Valid()
      ensures walks == RemoveAt(old(walks), k)
      ensures forall w :: w in walks <==> w in old(walks) && w.id != old(walks)[k].id
    {
      var before := walks;
      walks := RemoveAt(walks, k);
      forall w | w in before && w.id != before[k].id ensures w in walks {
        var i :| 0 <= i < |before| && before[i] == w;
        if i < k { assert walks[i] == w; } else { assert walks[i - 1] == w; }
      }
    }
  }

  // ---------------------------------------------------------------------
  // Properties across calls

  /** A walk is listed for its owner exactly when it satisfies every given
      part of the filter; both ends of the date range are inclusive. */
  lemma ListedWalks(ws: seq<Walk>, q: WalkQuery, w: Walk)
    requires w in ws && w.owner == q.owner
    requires q.from.Some? && q.to.Some? && w.startedAt == q.from.value && q.from.value <= q.to.value
    requires q.pet.None? || q.pet.value == w.pet
    ensures w in WalkList(ws, q)
  {
  }

  /** Walk creation checks only that the pet exists, not that the caller
      owns it. */
  lemma WalkForAnotherOwnersPet(ps: seq<Pet>, owner: Id, form: WalkForm, freshId: Id, now: int, parse: JsValue -> Option<int>, k: nat)
    requires k < |ps| && ps[k].owner != owner && IsObjectId(owner)
    requires form.petId == Str(ps[k].id) && IsObjectId(ps[k].id)
    requires !Truthy(form.startedAt) && !Truthy(form.endedAt)
    ensures NewWalk(ps, owner, form, freshId, now, parse).Ok?
  {
    assert HasPet(ps, ps[k].id);
  }
}
