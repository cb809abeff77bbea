/** User accounts: registration and login (routes/auth.js) and the
    profile routes (routes/users.js) over one in-memory user collection
    (models/User.js).

    Password hashing is a parameter: `hash` stands for `bcrypt.hash` and
    `compare(password, hash)` for `bcrypt.compare`. The profile fields a
    client may edit are kept as the request values they were set to, keyed
    by field name; the schema's casts of those values are not modelled. */
module Accounts {
  import opened Base
  import opened Auth

  // ---------------------------------------------------------------------
  // Records

  /** The `type` enum of a photo. */
  datatype PhotoKind = OwnerFace | PetPhoto | OtherPhoto

  function KindName(k: PhotoKind): string
  {
    match k
    case OwnerFace => "owner_face"
    case PetPhoto => "pet"
    case OtherPhoto => "other"
  }

  /** The enum value a string names, if any. */
  function KindOf(s: string): (r: Option<PhotoKind>)
    ensures r.Some? <==> s in {"owner_face", "pet", "other"}
    ensures r.Some? ==> KindName(r.value) == s
  {
    if s == "owner_face" then Some(OwnerFace)
    else if s == "pet" then Some(PetPhoto)
    else if s == "other" then Some(OtherPhoto)
    else None
  }

  /** An entry of `user.photos`. */
  datatype ProfilePhoto = ProfilePhoto(url: string, publicId: Option<string>, kind: PhotoKind)

  /** The profile fields a client may set. */
  datatype ProfileField = Name | Phone | About | BirthYear | Goal | Interests

  /** The body key of each profile field. */
  function Key(f: ProfileField): string
  {
    match f
    case Name => "name"
    case Phone => "phone"
    case About => "about"
    case BirthYear => "birthYear"
    case Goal => "goal"
    case Interests => "interests"
  }

  datatype User = User(id: Id, email: string, passwordHash: string, profile: map<ProfileField, JsValue>, photos: seq<ProfilePhoto>)

  /** A field of a request body; an absent key is `undefined`. */
  function Field(body: map<string, JsValue>, key: string): JsValue
  {
    if key in body then body[key] else Undefined
  }

  /** A stored profile field; an unset one is `undefined`. */
  function Get(profile: map<ProfileField, JsValue>, f: ProfileField): JsValue
  {
    if f in profile then profile[f] else Undefined
  }

  /** What a login or a registration answers: the claims of the issued
      token and the user's id, email and name. */
  datatype Session = Session(claims: Claims, userId: Id, email: string, name: JsValue)

  /** The answer of `PATCH /update`. */
  datatype ProfileView = ProfileView(
    id: Id,
    email: string,
    name: JsValue,
    phone: JsValue,
    birthYear: JsValue,
    about: JsValue,
    goal: JsValue,
    interests: JsValue)

  const FieldsRequired := "email, password, name are required"
  const EmailInUse := "email already in use"
  const CredentialsRequired := "email & password required"
  const InvalidCredentials := "invalid credentials"
  const SecretMissing := "JWT_SECRET is not set"
  const HashArguments := "data and salt arguments required"
  const UserNotFound := "User not found"
  const NoSuchUser := "사용자 없음"
  const PasswordsRequired := "currentPassword & newPassword required"
  const WrongPassword := "현재 비밀번호가 올바르지 않습니다."
  const NoFile := "파일 없음"
  const PhotoTypeInvalid := "Validation failed: photos.type"

  predicate UserIdsUnique(us: seq<User>)
  {
    forall i, j :: 0 <= i < j < |us| ==> us[i].id != us[j].id
  }

  predicate EmailsUnique(us: seq<User>)
  {
    forall i, j :: 0 <= i < j < |us| ==> us[i].email != us[j].email
  }

  /** The position of the user with this id. */
  function UserIndex(us: seq<User>, id: Id): Option<nat>
  {
    IndexWhere(us, (u: User) => u.id == id)
  }

  /** The position of the user with this email. */
  function EmailIndex(us: seq<User>, email: string): Option<nat>
  {
    IndexWhere(us, (u: User) => u.email == email)
  }

  // ---------------------------------------------------------------------
  // Who is calling

  /** The part of `req.user` that `getUserId` reads; `mongoId` is `_id`. */
  datatype RequestUser = RequestUser(sub: JsValue, id: JsValue, mongoId: JsValue)

  /** `getUserId(req)` of the profile routes: the first truthy of
      `user.sub`, `user.id`, `user._id` and `req.userId`, else null. */
  function GetUserId(user: RequestUser, userId: JsValue): (r: JsValue)
    ensures Truthy(user.sub) ==> r == user.sub
    ensures !Truthy(user.sub) && Truthy(user.id) ==> r == user.id
    ensures !Truthy(user.sub) && !Truthy(user.id) && Truthy(user.mongoId) ==> r == user.mongoId
    ensures !Truthy(user.sub) && !Truthy(user.id) && !Truthy(user.mongoId) ==> r == Or(userId, Null)
  {
    Or(user.sub, Or(user.id, Or(user.mongoId, Or(userId, Null))))
  }

  /** Behind the HTTP guard `req.user` is `{ _id: uid }` and `req.userId`
      is `uid`, so every profile route acts for the guard's user. */
  lemma GuardedUserId(authorization: Option<string>, verify: string -> Option<Claims>)
    requires RequireAuth(authorization, verify).Ok?
    ensures var uid := RequireAuth(authorization, verify).value;
      GetUserId(RequestUser(Undefined, Undefined, uid), uid) == uid
  {
  }

  // ---------------------------------------------------------------------
  // Registration and login

  /** The email as stored and looked up: trimmed and lower-cased; a value
      that is not a string is "". */
  function NormalEmail(v: JsValue): (r: string)
    ensures !v.Str? ==> r == []
    ensures v.Str? ==> r == ToLower(Trim(v.s))
  {
    if v.Str? then ToLower(Trim(v.s)) else []
  }

  /** A stored email is trimmed and has no upper-case letter, so
      normalising it again changes nothing: it is found again by the
      address it was registered with. */
  lemma NormalEmailIdempotent(v: JsValue)
    ensures Trimmed(NormalEmail(v))
    ensures forall i :: 0 <= i < |NormalEmail(v)| ==> !('A' <= NormalEmail(v)[i] <= 'Z')
    ensures NormalEmail(Str(NormalEmail(v))) == NormalEmail(v)
  {
    if v.Str? {
      var t := Trim(v.s);
      var e := ToLower(t);
      assert NormalEmail(v) == e;
      LowerTrimmed(t);
      NormalFixed(e);
    } else {
      NormalFixed([]);
    }
  }

  lemma NormalFixed(e: string)
    requires Trimmed(e)
    requires forall i :: 0 <= i < |e| ==> !('A' <= e[i] <= 'Z')
    ensures NormalEmail(Str(e)) == e
  {
    TrimmedIsFixedPoint(e);
    LowerFixed(e);
  }

  lemma LowerFixed(e: string)
    requires forall i :: 0 <= i < |e| ==> !('A' <= e[i] <= 'Z')
    ensures ToLower(e) == e
  {
    assert forall i :: 0 <= i < |e| ==> ToLower(e)[i] == e[i];
  }

  /** The name as stored: trimmed; a value that is not a string is "". */
  function NormalName(v: JsValue): (r: string)
    ensures !v.Str? ==> r == []
    ensures v.Str? ==> r == Trim(v.s)
  {
    if v.Str? then Trim(v.s) else []
  }

  /** `POST /login`: one answer, 400 "invalid credentials", both for an
      unknown email and for a wrong password. A password that is not a
      string makes `bcrypt.compare` throw (500); so does a missing secret
      when the token is signed. */
  function Login(us: seq<User>, email: JsValue, password: JsValue, compare: (string, string) -> bool, secret: Option<string>): (r: Reply<Session>)
    ensures NormalEmail(email) == [] || !Truthy(password) ==> r == Fail(400, CredentialsRequired)
    ensures NormalEmail(email) != [] && Truthy(password) && EmailIndex(us, NormalEmail(email)).None? ==>
              r == Fail(400, InvalidCredentials)
    ensures r.Ok? ==> EmailIndex(us, NormalEmail(email)).Some? && password.Str?
    ensures r.Ok? ==> var u := us[EmailIndex(us, NormalEmail(email)).value];
              compare(password.s, u.passwordHash) && r.value.userId == u.id && r.value.email == u.email
    ensures r.Ok? ==> Some(r.value.claims) == IssuedClaims(r.value.userId, secret)
    ensures r.Fail? ==> r.status == 400 || r.status == 500
  {
    var e := NormalEmail(email);
    if e == [] || !Truthy(password) then Fail(400, CredentialsRequired)
    else match EmailIndex(us, e)
      case None => Fail(400, InvalidCredentials)
      case Some(k) =>
        var u := us[k];
        if !password.Str? then Fail(500, HashArguments)
        else if !compare(password.s, u.passwordHash) then Fail(400, InvalidCredentials)
        else match IssuedClaims(u.id, secret)
          case None => Fail(500, SecretMissing)
          case Some(claims) => Ok(Session(claims, u.id, u.email, Or(Get(u.profile, Name), Str(""))))
  }

  /** A caller cannot tell an unknown email from a wrong password. */
  lemma LoginHidesUnknownEmail(us: seq<User>, email: JsValue, known: JsValue, password: string,
                               compare: (string, string) -> bool, secret: Option<string>)
    requires password != []
    requires NormalEmail(email) != [] && EmailIndex(us, NormalEmail(email)).None?
    requires EmailIndex(us, NormalEmail(known)).Some? && NormalEmail(known) != []
    requires !compare(password, us[EmailIndex(us, NormalEmail(known)).value].passwordHash)
    ensures Login(us, email, Str(password), compare, secret) == Login(us, known, Str(password), compare, secret)
  {
  }

  /** The user `POST /register` stores: 400 unless the normalised email
      and name and the password are all present, 409 for an email in use,
      500 when bcrypt refuses a password that is not a string. */
  function Registration(us: seq<User>, email: JsValue, password: JsValue, name: JsValue, freshId: Id,
                        hash: string -> string): (r: Reply<User>)
    ensures NormalEmail(email) == [] || !Truthy(password) || NormalName(name) == [] ==> r == Fail(400, FieldsRequired)
    ensures NormalEmail(email) != [] && Truthy(password) && NormalName(name) != [] && EmailIndex(us, NormalEmail(email)).Some? ==>
              r == Fail(409, EmailInUse)
    ensures r.Ok? <==> && NormalEmail(email) != [] && password.Str? && password.s != [] && NormalName(name) != []
                       && EmailIndex(us, NormalEmail(email)).None?
    ensures r.Ok? ==> && r.value == User(freshId, NormalEmail(email), hash(password.s), map[Name := Str(NormalName(name))], [])
                      && forall i :: 0 <= i < |us| ==> us[i].email != r.value.email
  {
    var e := NormalEmail(email);
    var n := NormalName(name);
    if e == [] || !Truthy(password) || n == [] then Fail(400, FieldsRequired)
    else if EmailIndex(us, e).Some? then Fail(409, EmailInUse)
    else if !password.Str? then Fail(500, HashArguments)
    else Ok(User(freshId, e, hash(password.s), map[Name := Str(n)], []))
  }

  /** A user with a fresh id and an unused email keeps both indexes
      unique. */
  lemma AppendUserKeepsStore(us: seq<User>, u: User)
    requires UserIdsUnique(us) && EmailsUnique(us)
    requires forall i :: 0 <= i < |us| ==> us[i].id != u.id && us[i].email != u.email
    ensures UserIdsUnique(us + [u]) && EmailsUnique(us + [u])
  {
  }

  // ---------------------------------------------------------------------
  // The profile edits

  /** The fields `PATCH /update` copies from the body, in its order. */
  const Editable: seq<ProfileField> := [Name, Phone, About, BirthYear, Goal, Interests]

  /** Where a field stands in `Editable`. */
  function Position(f: ProfileField): (n: nat)
    ensures n < |Editable| && Editable[n] == f
  {
    match f
    case Name => 0
    case Phone => 1
    case About => 2
    case BirthYear => 3
    case Goal => 4
    case Interests => 5
  }

  lemma PositionOfEditable(i: nat)
    requires i < |Editable|
    ensures Position(Editable[i]) == i
  {
    if i == 0 {} else if i == 1 {} else if i == 2 {} else if i == 3 {} else if i == 4 {} else {}
  }

  /** The name as `PATCH /update` sets it: a string is trimmed, anything
      else is kept. */
  function PatchedName(v: JsValue): (r: JsValue)
    ensures v.Str? ==> r == Str(Trim(v.s))
    ensures !v.Str? ==> r == v
  {
    if v.Str? then Str(Trim(v.s)) else v
  }

  /** An array keeps its first five items. */
  function FirstFive(v: JsValue): (r: JsValue)
    ensures v.Arr? ==> r.Arr? && r.items == v.items[..Min(5, |v.items|)]
    ensures !v.Arr? ==> r == v
  {
    if v.Arr? && |v.items| > 5 then Arr(v.items[..5]) else v
  }

  /** The `updateFields` of `PATCH /update`: exactly the fields the body
      defines; a string name trimmed, an array of interests cut to five,
      every other value as sent. */
  method PatchFields(body: map<string, JsValue>) returns (fields: map<ProfileField, JsValue>)
    ensures forall f :: f in fields <==> Field(body, Key(f)) != Undefined
    ensures Name in fields ==> fields[Name] == PatchedName(Field(body, "name"))
    ensures Interests in fields ==> fields[Interests] == FirstFive(Field(body, "interests"))
    ensures forall f :: f in fields && f != Name && f != Interests ==> fields[f] == Field(body, Key(f))
    ensures forall f :: f in fields ==> fields[f] == PatchValue(f, Field(body, Key(f)))
  {
    fields := map[];
    for i := 0 to |Editable|
      invariant forall f :: f in fields <==> Position(f) < i && Field(body, Key(f)) != Undefined
      invariant forall f :: f in fields && f != Name ==> fields[f] == Field(body, Key(f))
      invariant Name in fields ==> fields[Name] == PatchedName(Field(body, "name"))
    {
      var f := Editable[i];
      PositionOfEditable(i);
      var v := Field(body, Key(f));
      if v != Undefined {
        fields := fields[f := if f == Name then PatchedName(v) else v];
      }
    }
    if Interests in fields && fields[Interests].Arr? {
      fields := fields[Interests := FirstFive(fields[Interests])];
    }
  }

  /** One field of the `$set` of `PUT /me`: set only when its guard
      passes — a string name or phone, trimmed; a string about or goal; an
      array of interests, cut to five; any defined birth year. */
  function PutValue(body: map<string, JsValue>, f: ProfileField): (r: Option<JsValue>)
  {
    var v := Field(body, Key(f));
    match f
    case Name => if v.Str? then Some(Str(Trim(v.s))) else None
    case Phone => if v.Str? then Some(Str(Trim(v.s))) else None
    case About => if v.Str? then Some(v) else None
    case Goal => if v.Str? then Some(v) else None
    case Interests => if v.Arr? then Some(FirstFive(v)) else None
    case BirthYear => if v != Undefined then Some(v) else None
  }

  /** The value `PATCH /update` stores for a field the body defines. */
  function PatchValue(f: ProfileField, v: JsValue): JsValue
  {
    if f == Name then PatchedName(v) else if f == Interests then FirstFive(v) else v
  }

  /** `after` is `before` with every whitelisted field the body defines
      set to its patched value, and nothing else changed. */
  ghost predicate PatchedProfile(before: map<ProfileField, JsValue>, after: map<ProfileField, JsValue>, body: map<string, JsValue>)
  {
    && (forall f :: f in after <==> f in before || Field(body, Key(f)) != Undefined)
    && (forall f :: f in before && Field(body, Key(f)) == Undefined ==> f in after && after[f] == before[f])
    && (forall f :: Field(body, Key(f)) != Undefined ==> f in after && after[f] == PatchValue(f, Field(body, Key(f))))
  }

  /** Merging the fields `PatchFields` yields into a profile patches it. */
  lemma MergedPatch(before: map<ProfileField, JsValue>, fields: map<ProfileField, JsValue>, body: map<string, JsValue>)
    requires forall f :: f in fields <==> Field(body, Key(f)) != Undefined
    requires forall f :: f in fields ==> fields[f] == PatchValue(f, Field(body, Key(f)))
    ensures PatchedProfile(before, before + fields, body)
  {
  }

  /** The `$set` of `PUT /me`. Unlike `PATCH /update`, a value of the wrong
      type is dropped: name, phone, about and goal are set only to strings,
      the name and phone trimmed, and interests only to an array of at
      most five. */
  function PutFields(body: map<string, JsValue>): (r: map<ProfileField, JsValue>)
    ensures forall f :: f in r <==> PutValue(body, f).Some?
    ensures forall f :: f in r ==> r[f] == PutValue(body, f).value
    ensures forall f :: f in r ==> PutTyped(f, r[f])
  {
    var m := map f | f in Editable && PutValue(body, f).Some? :: PutValue(body, f).value;
    forall f ensures f in m <==> PutValue(body, f).Some? {
      assert Editable[Position(f)] == f;
    }
    forall f | f in m ensures PutTyped(f, m[f]) {
      PutValueTyped(body, f);
    }
    m
  }

  /** The type each field of `PUT /me` is guarded to. */
  predicate PutTyped(f: ProfileField, v: JsValue)
  {
    match f
    case Name => v.Str? && Trimmed(v.s)
    case Phone => v.Str? && Trimmed(v.s)
    case About => v.Str?
    case Goal => v.Str?
    case Interests => v.Arr? && |v.items| <= 5
    case BirthYear => v != Undefined
  }

  lemma PutValueTyped(body: map<string, JsValue>, f: ProfileField)
    requires PutValue(body, f).Some?
    ensures PutTyped(f, PutValue(body, f).value)
  {
  }

  /** The answer of `PATCH /update`: "" for a missing string field, null
      for a missing birth year, [] for missing interests. */
  function PatchView(u: User): (v: ProfileView)
    ensures v.id == u.id && v.email == u.email
    ensures Truthy(Get(u.profile, Name)) ==> v.name == u.profile[Name]
    ensures !Truthy(Get(u.profile, Name)) ==> v.name == Str("")
    ensures Nullish(Get(u.profile, BirthYear)) <==> v.birthYear == Null
    ensures !Nullish(Get(u.profile, BirthYear)) ==> v.birthYear == u.profile[BirthYear]
    ensures !Truthy(Get(u.profile, Interests)) ==> v.interests == Arr([])
    ensures Truthy(v.name) || v.name == Str("")
    ensures Truthy(v.interests)
  {
    ProfileView(
      u.id,
      u.email,
      Or(Get(u.profile, Name), Str("")),
      Or(Get(u.profile, Phone), Str("")),
      if Nullish(Get(u.profile, BirthYear)) then Null else u.profile[BirthYear],
      Or(Get(u.profile, About), Str("")),
      Or(Get(u.profile, Goal), Str("")),
      Or(Get(u.profile, Interests), Arr([])))
  }

  /** MongoDB's `$pull: { photos: { publicId } }`. */
  function PullPhoto(photos: seq<ProfilePhoto>, publicId: Option<string>): (r: seq<ProfilePhoto>)
    ensures forall p :: p in r <==> p in photos && p.publicId != publicId
    ensures |r| <= |photos|
  {
    Filter(photos, (p: ProfilePhoto) => p.publicId != publicId)
  }

  // ---------------------------------------------------------------------
  // The user collection

  class Directory {
    var users: seq<User>

    /** The unique ids and the unique email index. */
    ghost predicate Valid()
      reads this
    {
      UserIdsUnique(users) && EmailsUnique(users)
    }

    constructor()
      ensures Valid() && users == []
    {
      users := [];
    }

    /** `POST /register`: the checks of `Registration`; the user it
        describes is stored, and the token is signed afterwards, so a
        missing secret answers 500 with the user already stored. */
    method Register(email: JsValue, password: JsValue, name: JsValue, freshId: Id,
                    hash: string -> string, secret: Option<string>) returns (r: Reply<Session>)
      requires Valid()
      requires forall i :: 0 <= i < |users| ==> users[i].id != freshId
      modifies this`users
      ensures Valid()
      ensures var g := Registration(old(users), email, password, name, freshId, hash);
        g.Fail? ==> r == Fail(g.status, g.message) && users == old(users)
      ensures var g := Registration(old(users), email, password, name, freshId, hash);
        g.Ok? ==> users == old(users) + [g.value]
      ensures var g := Registration(old(users), email, password, name, freshId, hash);
        g.Ok? && IssuedClaims(freshId, secret).None? ==> r == Fail(500, SecretMissing)
      ensures var g := Registration(old(users), email, password, name, freshId, hash);
        g.Ok? && IssuedClaims(freshId, secret).Some? ==>
          r == Ok(Session(IssuedClaims(freshId, secret).value, freshId, g.value.email, Str(NormalName(name))))
    {
      var g := Registration(users, email, password, name, freshId, hash);
      if g.Fail? {
        return Fail(g.status, g.message);
      }
      var u := g.value;
      AppendUserKeepsStore(users, u);
      users := users + [u];
      match IssuedClaims(freshId, secret)
      case None =>
        r := Fail(500, SecretMissing);
      case Some(claims) =>
        r := Ok(Session(claims, freshId, u.email, Str(NormalName(name))));
    }

    /** `GET /me` */
    function Me(me: Id): (r: Reply<User>)
      reads this
      ensures !IsObjectId(me) ==> r == Fail(500, CastFailure)
      ensures IsObjectId(me) ==> (r.Ok? <==> UserIndex(users, me).Some?)
      ensures r.Ok? ==> r.value in users && r.value.id == me
      ensures IsObjectId(me) && r.Fail? ==> r == Fail(404, UserNotFound)
    {
      if !IsObjectId(me) then Fail(500, CastFailure)
      else match UserIndex(users, me)
        case None => Fail(404, UserNotFound)
        case Some(k) => Ok(users[k])
    }

    /** Replaces the profile of the user at `k` by `profile` merged with
        `fields`; nothing else changes. */
    method SetProfile(k: nat, fields: map<ProfileField, JsValue>)
      requires Valid() && k < |users|
      modifies this`users
      ensures Valid()
      ensures users == old(users)[k := old(users)[k].(profile := old(users)[k].profile + fields)]
    {
      users := users[k := users[k].(profile := users[k].profile + fields)];
    }

    /** `PATCH /update`: the editable fields the body defines replace the
        stored ones; 404 when the user is missing. */
    method Patch(me: Id, body: map<string, JsValue>) returns (r: Reply<ProfileView>)
      requires Valid()
      modifies this`users
      ensures Valid()
      ensures !IsObjectId(me) ==> r == Fail(500, CastFailure) && users == old(users)
      ensures IsObjectId(me) && UserIndex(old(users), me).None? ==> r == Fail(404, NoSuchUser) && users == old(users)
      ensures IsObjectId(me) && UserIndex(old(users), me).Some? ==>
                var k := UserIndex(old(users), me).value;
                && |users| == |old(users)|
                && users == old(users)[k := old(users)[k].(profile := users[k].profile)]
                && PatchedProfile(old(users)[k].profile, users[k].profile, body)
                && r == Ok(PatchView(users[k]))
    {
      var fields := PatchFields(body);
      if !IsObjectId(me) {
        return Fail(500, CastFailure);
      }
      var k := UserIndex(users, me);
      if k.None? {
        return Fail(404, NoSuchUser);
      }
      MergedPatch(users[k.value].profile, fields, body);
      SetProfile(k.value, fields);
      r := Ok(PatchView(users[k.value]));
    }

    /** `PUT /me`: `$set` of the guarded fields; 404 when the user is
        missing. */
    method Put(me: Id, body: map<string, JsValue>) returns (r: Reply<User>)
      requires Valid()
      modifies this`users
      ensures Valid()
      ensures !IsObjectId(me) ==> r == Fail(500, CastFailure) && users == old(users)
      ensures IsObjectId(me) && UserIndex(old(users), me).None? ==> r == Fail(404, UserNotFound) && users == old(users)
      ensures IsObjectId(me) && UserIndex(old(users), me).Some? ==>
                var k := UserIndex(old(users), me).value;
                && users == old(users)[k := old(users)[k].(profile := old(users)[k].profile + PutFields(body))]
                && r == Ok(users[k])
    {
      if !IsObjectId(me) {
        return Fail(500, CastFailure);
      }
      var k := UserIndex(users, me);
      if k.None? {
        return Fail(404, UserNotFound);
      }
      SetProfile(k.value, PutFields(body));
      r := Ok(users[k.value]);
    }

    /** `POST /change-password`: 400 without both passwords, 404 without
        the user, 401 when the current password does not match; otherwise
        only the password hash changes. A password that is not a string
        makes bcrypt throw (500). */
    method ChangePassword(me: Id, current: JsValue, next: JsValue,
                          compare: (string, string) -> bool, hash: string -> string) returns (r: Reply<bool>)
      requires Valid()
      modifies this`users
      ensures Valid()
      ensures !Truthy(current) || !Truthy(next) ==> r == Fail(400, PasswordsRequired)
      ensures r.Fail? ==> users == old(users)
      ensures Truthy(current) && Truthy(next) && IsObjectId(me) && UserIndex(old(users), me).None? ==>
                r == Fail(404, NoSuchUser)
      ensures r.Ok? <==> && Truthy(current) && Truthy(next) && IsObjectId(me) && UserIndex(old(users), me).Some?
                         && current.Str? && next.Str?
                         && compare(current.s, old(users)[UserIndex(old(users), me).value].passwordHash)
      ensures r.Ok? ==> var k := UserIndex(old(users), me).value;
                users == old(users)[k := old(users)[k].(passwordHash := hash(next.s))]
      ensures Truthy(current) && Truthy(next) && IsObjectId(me) && UserIndex(old(users), me).Some? && current.Str?
              && !compare(current.s, old(users)[UserIndex(old(users), me).value].passwordHash) ==>
                r == Fail(401, WrongPassword)
    {
      if !Truthy(current) || !Truthy(next) {
        return Fail(400, PasswordsRequired);
      }
      if !IsObjectId(me) {
        return Fail(500, CastFailure);
      }
      var k := UserIndex(users, me);
      if k.None? {
        return Fail(404, NoSuchUser);
      }
      if !current.Str? {
        return Fail(500, HashArguments);
      }
      if !compare(current.s, users[k.value].passwordHash) {
        return Fail(401, WrongPassword);
      }
      if !next.Str? {
        return Fail(500, HashArguments);
      }
      users := users[k.value := users[k.value].(passwordHash := hash(next.s))];
      r := Ok(true);
    }

    /** `POST /me/photo` after the upload: 400 without a file; the type
        defaults to "pet" and must be one of the enum's values, or saving
        fails (500); 404 without the user; otherwise exactly one entry is
        appended to the user's photos. */
    method AddProfilePhoto(me: Id, hasFile: bool, typeField: Option<string>, url: string, publicId: string)
      returns (r: Reply<ProfilePhoto>)
      requires Valid()
      modifies this`users
      ensures Valid()
      ensures !hasFile ==> r == Fail(400, NoFile)
      ensures hasFile && !IsObjectId(me) ==> r == Fail(500, CastFailure)
      ensures hasFile && IsObjectId(me) && UserIndex(old(users), me).None? ==> r == Fail(404, UserNotFound)
      ensures var kind := KindOf(if typeField.Some? then typeField.value else "pet");
        hasFile && IsObjectId(me) && UserIndex(old(users), me).Some? && kind.None? ==> r == Fail(500, PhotoTypeInvalid)
      ensures r.Fail? ==> users == old(users)
      ensures r.Ok? <==> hasFile && IsObjectId(me) && UserIndex(old(users), me).Some?
                         && KindOf(if typeField.Some? then typeField.value else "pet").Some?
      ensures r.Ok? ==> && r.value == ProfilePhoto(url, Some(publicId), KindOf(if typeField.Some? then typeField.value else "pet").value)
                        && var k := UserIndex(old(users), me).value;
                           users == old(users)[k := old(users)[k].(photos := old(users)[k].photos + [r.value])]
      ensures typeField.None? && r.Ok? ==> r.value.kind == PetPhoto
    {
      if !hasFile {
        return Fail(400, NoFile);
      }
      var kindName := if typeField.Some? then typeField.value else "pet";
      if !IsObjectId(me) {
        return Fail(500, CastFailure);
      }
      var k := UserIndex(users, me);
      if k.None? {
        return Fail(404, UserNotFound);
      }
      var kind := KindOf(kindName);
      if kind.None? {
        return Fail(500, PhotoTypeInvalid);
      }
      var entry := ProfilePhoto(url, Some(publicId), kind.value);
      users := users[k.value := users[k.value].(photos := users[k.value].photos + [entry])];
      r := Ok(entry);
    }

    /** Pulls every photo entry with this public id from the user's
        photos (`$pull`); nothing else changes, and a missing user is no
        error. */
    method PullProfilePhotos(me: Id, publicId: Option<string>) returns (r: Reply<()>)
      requires Valid()
      modifies this`users
      ensures Valid()
      ensures r.Fail? <==> !IsObjectId(me)
      ensures r.Fail? || UserIndex(old(users), me).None? ==> users == old(users)
      ensures r.Ok? && UserIndex(old(users), me).Some? ==>
                var k := UserIndex(old(users), me).value;
                users == old(users)[k := old(users)[k].(photos := PullPhoto(old(users)[k].photos, publicId))]
    {
      if !IsObjectId(me) {
        return Fail(500, CastFailure);
      }
      var k := UserIndex(users, me);
      if k.Some? {
        users := users[k.value := users[k.value].(photos := PullPhoto(users[k.value].photos, publicId))];
      }
      r := Ok(());
    }

    /** Appends `entry` to the user's photos (`$push`); nothing else
        changes, and a missing user is no error. */
    method PushProfilePhoto(me: Id, entry: ProfilePhoto) returns (r: Reply<()>)
      requires Valid()
      modifies this`users
      ensures Valid()
      ensures r.Fail? <==> !IsObjectId(me)
      ensures r.Fail? || UserIndex(old(users), me).None? ==> users == old(users)
      ensures r.Ok? && UserIndex(old(users), me).Some? ==>
                var k := UserIndex(old(users), me).value;
                users == old(users)[k := old(users)[k].(photos := old(users)[k].photos + [entry])]
    {
      if !IsObjectId(me) {
        return Fail(500, CastFailure);
      }
      var k := UserIndex(users, me);
      if k.Some? {
        users := users[k.value := users[k.value].(photos := users[k.value].photos + [entry])];
      }
      r := Ok(());
    }

    /** `DELETE /me/photo/:publicId`: 204 whether or not anything was
        pulled. */
    method RemoveProfilePhoto(me: Id, publicId: string) returns (r: Reply<()>)
      requires Valid()
      modifies this`users
      ensures Valid()
      ensures r.Fail? <==> !IsObjectId(me)
      ensures r.Fail? || UserIndex(old(users), me).None? ==> users == old(users)
      ensures r.Ok? && UserIndex(old(users), me).Some? ==>
                var k := UserIndex(old(users), me).value;
                users == old(users)[k := old(users)[k].(photos := PullPhoto(old(users)[k].photos, Some(publicId)))]
    {
      r := PullProfilePhotos(me, Some(publicId));
    }
  }

  // ---------------------------------------------------------------------
  // Properties across calls

  /** Someone who just registered logs in with the same email and
      password, as the same user. */
  lemma RegisteredUserCanLogIn(us: seq<User>, email: JsValue, password: string, name: JsValue, freshId: Id,
                               hash: string -> string, compare: (string, string) -> bool, secret: string)
    requires NormalEmail(email) != [] && EmailIndex(us, NormalEmail(email)).None?
    requires password != [] && secret != []
    requires compare(password, hash(password))
    ensures var u := User(freshId, NormalEmail(email), hash(password), map[Name := Str(NormalName(name))], []);
      var r := Login(us + [u], email, Str(password), compare, Some(secret));
      r.Ok? && r.value.userId == freshId
  {
    var u := User(freshId, NormalEmail(email), hash(password), map[Name := Str(NormalName(name))], []);
    var all := us + [u];
    EmailIndexAppend(us, u);
    assert all[|us|] == u;
    assert Truthy(Str(password));
    assert IssuedClaims(freshId, Some(secret)).Some?;
  }

  lemma EmailIndexAppend(us: seq<User>, u: User)
    requires EmailIndex(us, u.email).None?
    ensures EmailIndex(us + [u], u.email) == Some(|us|)
  {
    IndexWhereAppend(us, u, (v: User) => v.email == u.email);
  }
}
