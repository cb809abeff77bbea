/** The discovery feed (routes/discover.js): users other than the caller
    who have at least one face photo, as cards. */
module Discover {
  import opened Base
  import opened Accounts

  datatype CardPhoto = CardPhoto(url: string, kind: PhotoKind)

  /** A card. `age` and `breed` read the first entry of `user.pets`, which
      holds pet ids rather than pet documents, so they are always absent. */
  datatype Card = Card(id: Id, name: JsValue, photos: seq<CardPhoto>, age: JsValue, breed: JsValue)

  const NoName := "이름 없음"
  const DefaultLimit := 20
  const MaxLimit := 50

  /** `Math.min(Number(limit) || 20, 50)`: never 0 and never above 50, but
      a negative number is kept. */
  function CardLimit(limit: JsValue): (n: int)
    ensures n != 0 && n <= MaxLimit
    ensures ToNumber(limit).None? || ToNumber(limit).value == 0 ==> n == DefaultLimit
    ensures ToNumber(limit).Some? && ToNumber(limit).value != 0 ==> n == Min(ToNumber(limit).value, MaxLimit)
  {
    Min(NumberOr(limit, DefaultLimit), MaxLimit)
  }

  predicate HasFacePhoto(u: User)
  {
    exists i :: 0 <= i < |u.photos| && u.photos[i].kind == OwnerFace
  }

  /** The query `{ _id: { $ne: me }, "photos.type": "owner_face" }`, in
      store order. */
  function Candidates(us: seq<User>, me: Id): (r: seq<User>)
    ensures forall u :: u in r <==> u in us && u.id != me && HasFacePhoto(u)
    ensures |r| <= |us|
  {
    if us == [] then []
    else
      assert forall u :: u in us <==> u == us[0] || u in us[1..];
      var rest := Candidates(us[1..], me);
      if us[0].id != me && HasFacePhoto(us[0]) then [us[0]] + rest else rest
  }

  /** The face and pet photos, in order, as url and type. */
  function CardPhotos(ps: seq<ProfilePhoto>): (r: seq<CardPhoto>)
    ensures |r| <= |ps|
    ensures forall c :: c in r <==> exists p :: p in ps && p.kind != OtherPhoto && c == CardPhoto(p.url, p.kind)
  {
    if ps == [] then []
    else
      assert forall p :: p in ps <==> p == ps[0] || p in ps[1..];
      var rest := CardPhotos(ps[1..]);
      if ps[0].kind != OtherPhoto then [CardPhoto(ps[0].url, ps[0].kind)] + rest else rest
  }

  /** The card of one user: a missing or empty name reads "이름 없음". */
  function CardOf(u: User): (c: Card)
    ensures c.id == u.id
    ensures Truthy(Get(u.profile, Name)) ==> c.name == Get(u.profile, Name)
    ensures !Truthy(Get(u.profile, Name)) ==> c.name == Str(NoName)
    ensures forall p :: p in c.photos ==> p.kind == OwnerFace || p.kind == PetPhoto
    ensures HasFacePhoto(u) ==> exists p :: p in c.photos && p.kind == OwnerFace
    ensures c.age == Undefined && c.breed == Undefined
  {
    FaceKept(u);
    var photos := CardPhotos(u.photos);
    Card(u.id, Or(Get(u.profile, Name), Str(NoName)), photos, Undefined, Undefined)
  }

  lemma FaceKept(u: User)
    ensures HasFacePhoto(u) ==> exists p :: p in CardPhotos(u.photos) && p.kind == OwnerFace
  {
    if HasFacePhoto(u) {
      var i :| 0 <= i < |u.photos| && u.photos[i].kind == OwnerFace;
      assert CardPhoto(u.photos[i].url, OwnerFace) in CardPhotos(u.photos);
    }
  }

  function Cards(us: seq<User>): (r: seq<Card>)
    ensures |r| == |us|
    ensures forall i :: 0 <= i < |us| ==> r[i] == CardOf(us[i])
  {
    seq(|us|, i requires 0 <= i < |us| => CardOf(us[i]))
  }

  /** The card of some user other than `me` with a face photo. */
  ghost predicate CandidateCard(us: seq<User>, me: Id, c: Card)
  {
    exists u :: u in us && u.id != me && HasFacePhoto(u) && c == CardOf(u)
  }

  /** `GET /api/discover`: the cards of the first candidates, as many as
      the limit lets the cursor read; a caller id that is not an ObjectId
      fails the cast (500). */
  function Discover(us: seq<User>, me: Id, limit: JsValue): (r: Reply<seq<Card>>)
    ensures r.Fail? <==> !IsObjectId(me)
    ensures r.Fail? ==> r.status == 500
    ensures r.Ok? ==> |r.value| == Min(if CardLimit(limit) > 0 then CardLimit(limit) else -CardLimit(limit),
                                       |Candidates(us, me)|)
    ensures r.Ok? ==> forall i :: 0 <= i < |r.value| ==> CandidateCard(us, me, r.value[i])
    ensures r.Ok? ==> forall i :: 0 <= i < |r.value| ==> r.value[i] == CardOf(Candidates(us, me)[i])
  {
    if !IsObjectId(me) then Fail(500, CastFailure)
    else
      var found := TakeFirst(Candidates(us, me), MongoLimit(CardLimit(limit)));
      var cards := Cards(found);
      forall i | 0 <= i < |cards| ensures CandidateCard(us, me, cards[i]) {
        var u := found[i];
        assert u == Candidates(us, me)[i];
        assert u in us && u.id != me && HasFacePhoto(u) && cards[i] == CardOf(u);
      }
      Ok(cards)
  }

  /** A positive limit, or none at all, gives at most 50 cards, and the
      caller never sees their own card. */
  lemma DiscoverBounded(us: seq<User>, me: Id, limit: JsValue)
    requires IsObjectId(me)
    requires ToNumber(limit).None? || ToNumber(limit).value >= 0
    ensures |Discover(us, me, limit).value| <= MaxLimit
    ensures forall c :: c in Discover(us, me, limit).value ==> c.id != me
  {
  }

  /** A negative limit passes the cap: `limit=-80` reads up to 80 users. */
  lemma NegativeLimitPassesCap(us: seq<User>, me: Id)
    requires IsObjectId(me) && |Candidates(us, me)| >= 80
    ensures |Discover(us, me, Num(-80)).value| == 80
  {
    assert CardLimit(Num(-80)) == -80;
  }
}
