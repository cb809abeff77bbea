/** The photo library (routes/photos.js) over the photo collection
    (models/Photo.js), with the copy of each upload kept in the owner's
    `user.photos`.

    The photo schema declares no `publicId`, so the public id the upload
    route passes to `Photo.create` is dropped: stored photos have none, the
    entry pushed to `user.photos` has none, and deleting a photo pulls every
    entry without a public id from `user.photos`. The remote image store is
    a parameter: an upload is its result, and destroying a remote image is
    not modelled, since the route never reaches it. */
module Photos {
  import opened Base
  import opened Sorting
  import opened Accounts

  /** A stored photo. */
  datatype Photo = Photo(
    id: Id,
    owner: Id,
    originalName: string,
    fileName: string,
    mimeType: string,
    size: nat,
    url: string,
    kind: PhotoKind,
    createdAt: int)

  /** The file multer hands to the route. */
  datatype UploadedFile = UploadedFile(originalName: string, mimeType: string, size: nat)

  /** What the remote image store answers for an upload; an absent
      `original_filename` is "". */
  datatype CloudResult = CloudResult(secureUrl: string, publicId: string, originalFilename: string)

  /** The `photo` of the 201 answer. */
  datatype PhotoView = PhotoView(id: Id, url: string, publicId: Option<string>, kind: PhotoKind)

  const PhotoRequired := "photo 파일이 필요합니다."
  const UploadFailed := "업로드 실패"
  const PhotoNotFound := "대상을 찾을 수 없거나 권한이 없습니다."
  const DeleteFailed := "삭제 실패"

  // ---------------------------------------------------------------------
  // Upload rules

  /** The library's file filter, `^image/(png|jpe?g|gif|webp|bmp|svg\+xml)$`:
      the whole MIME type is one of seven. */
  predicate LibraryMime(m: string)
  {
    m in ["image/png", "image/jpg", "image/jpeg", "image/gif", "image/webp", "image/bmp", "image/svg+xml"]
  }

  /** `part` occurs in `s` at `i`. */
  predicate OccursAt(s: string, part: string, i: int)
  {
    0 <= i && i + |part| <= |s| && s[i..i + |part|] == part
  }

  predicate Contains(s: string, part: string)
  {
    exists i :: 0 <= i <= |s| && OccursAt(s, part, i)
  }

  /** The profile upload's file filter (routes/users.js),
      `image\/(png|jpe?g|webp)` without anchors: the MIME type need only
      contain one of four. */
  predicate ProfileMime(m: string)
  {
    Contains(m, "image/png") || Contains(m, "image/jpg") || Contains(m, "image/jpeg") || Contains(m, "image/webp")
  }

  /** The profile filter lets through types the library filter refuses. */
  lemma ProfileFilterUnanchored()
    ensures ProfileMime("application/x-image/png") && !LibraryMime("application/x-image/png")
  {
    var m := "application/x-image/png";
    assert OccursAt(m, "image/png", 14);
  }

  /** The library's type: the trimmed field when it names an enum value,
      else "other". */
  function NormalKind(typeField: Option<string>): (k: PhotoKind)
    ensures typeField.Some? && KindOf(Trim(typeField.value)).Some? ==> k == KindOf(Trim(typeField.value)).value
    ensures typeField.None? || KindOf(Trim(typeField.value)).None? ==> k == OtherPhoto
    ensures KindName(k) in {"owner_face", "pet", "other"}
  {
    var raw := Trim(if typeField.Some? then typeField.value else "");
    match KindOf(raw)
    case Some(k) => k
    case None => OtherPhoto
  }

  /** `pathname.split("/").pop()` */
  function LastSegment(path: string): (r: string)
    ensures '/' !in r
  {
    var parts := Split(path, '/');
    parts[|parts| - 1]
  }

  /** The `fileName` the route computes: the original name, else the
      store's `original_filename`, else the last segment of the URL's path;
      `None` when that URL does not parse (`new URL` throws). */
  function FileName(file: UploadedFile, cloud: CloudResult, urlPath: string -> Option<string>): (r: Option<string>)
    ensures file.originalName != [] ==> r == Some(file.originalName)
    ensures file.originalName == [] && cloud.originalFilename != [] ==> r == Some(cloud.originalFilename)
    ensures file.originalName == [] && cloud.originalFilename == [] ==>
              (r.Some? <==> urlPath(cloud.secureUrl).Some?) && (r.Some? ==> '/' !in r.value)
  {
    if file.originalName != [] then Some(file.originalName)
    else if cloud.originalFilename != [] then Some(cloud.originalFilename)
    else match urlPath(cloud.secureUrl)
      case None => None
      case Some(path) => Some(LastSegment(path))
  }

  /** `POST /api/photos` up to `Photo.create`: 400 without a file; the
      schema requires an owner, an original name, a MIME type and a URL
      (500 "업로드 실패" otherwise). Because the original name is required,
      a stored photo's file name is always its original name: the
      fallbacks are never stored. */
  function NewPhoto(me: Id, file: Option<UploadedFile>, typeField: Option<string>, cloud: CloudResult,
                    urlPath: string -> Option<string>, freshId: Id, now: int): (r: Reply<Photo>)
    ensures file.None? ==> r == Fail(400, PhotoRequired)
    ensures r.Fail? ==> r.status == 400 || r == Fail(500, UploadFailed)
    ensures r.Ok? <==> file.Some? && IsObjectId(me) && file.value.originalName != [] && file.value.mimeType != []
                       && cloud.secureUrl != []
    ensures r.Ok? ==> r.value == Photo(freshId, me, file.value.originalName, file.value.originalName, file.value.mimeType,
                                       file.value.size, cloud.secureUrl, NormalKind(typeField), now)
  {
    match file
    case None => Fail(400, PhotoRequired)
    case Some(f) =>
      match FileName(f, cloud, urlPath)
      case None => Fail(500, UploadFailed)
      case Some(fileName) =>
        if !IsObjectId(me) || f.originalName == [] || f.mimeType == [] || cloud.secureUrl == [] then Fail(500, UploadFailed)
        else Ok(Photo(freshId, me, f.originalName, fileName, f.mimeType, f.size, cloud.secureUrl, NormalKind(typeField), now))
  }

  function PhotoCreatedAt(p: Photo): int { p.createdAt }

  /** The photos of one owner, in store order. */
  function PhotosOf(ps: seq<Photo>, owner: Id): seq<Photo>
  {
    Filter(ps, (p: Photo) => p.owner == owner)
  }

  /** The index of the photo with this id and this owner. */
  function OwnedPhotoIndex(ps: seq<Photo>, id: Id, owner: Id): Option<nat>
  {
    IndexWhere(ps, (p: Photo) => p.id == id && p.owner == owner)
  }

  predicate PhotoIdsUnique(ps: seq<Photo>)
  {
    forall i, j :: 0 <= i < j < |ps| ==> ps[i].id != ps[j].id
  }

  /** What deleting a library photo does to `user.photos`: the pull by an
      absent public id removes every entry without one — the copies of all
      the user's library uploads, not only the deleted photo's. */
  lemma PullByMissingIdTakesAllUploads(entries: seq<ProfilePhoto>, i: nat, j: nat)
    requires i < j < |entries| && entries[i].publicId.None? && entries[j].publicId.None?
    ensures entries[i] !in PullPhoto(entries, None) && entries[j] !in PullPhoto(entries, None)
    ensures forall e :: e in PullPhoto(entries, None) ==> e.publicId.Some?
  {
  }

  // ---------------------------------------------------------------------
  // The library

  class Library {
    var photos: seq<Photo>

    ghost predicate Valid()
      reads this
    {
      PhotoIdsUnique(photos) && forall i :: 0 <= i < |photos| ==> photos[i].fileName == photos[i].originalName
    }

    constructor()
      ensures Valid() && photos == []
    {
      photos := [];
    }

    /** `POST /api/photos`: the photo is stored, then its copy without a
        public id is appended to the owner's `user.photos` (nothing
        happens there when the user is missing). The answer's `publicId`
        is absent. */
    method Upload(dir: Directory, me: Id, file: Option<UploadedFile>, typeField: Option<string>, cloud: CloudResult,
                  urlPath: string -> Option<string>, freshId: Id, now: int) returns (r: Reply<PhotoView>)
      requires Valid() && dir.Valid()
      requires forall i :: 0 <= i < |photos| ==> photos[i].id != freshId
      modifies this`photos, dir`users
      ensures Valid() && dir.Valid()
      ensures var g := NewPhoto(me, file, typeField, cloud, urlPath, freshId, now);
        g.Fail? ==> r == Fail(g.status, g.message) && photos == old(photos) && dir.users == old(dir.users)
      ensures var g := NewPhoto(me, file, typeField, cloud, urlPath, freshId, now);
        g.Ok? ==> photos == old(photos) + [g.value]
      ensures var g := NewPhoto(me, file, typeField, cloud, urlPath, freshId, now);
        g.Ok? ==> r == Ok(PhotoView(freshId, cloud.secureUrl, None, g.value.kind))
      ensures var g := NewPhoto(me, file, typeField, cloud, urlPath, freshId, now);
        g.Ok? && UserIndex(old(dir.users), me).None? ==> dir.users == old(dir.users)
      ensures var g := NewPhoto(me, file, typeField, cloud, urlPath, freshId, now);
        g.Ok? && UserIndex(old(dir.users), me).Some? ==>
          var k := UserIndex(old(dir.users), me).value;
          dir.users == old(dir.users)[k := old(dir.users)[k].(photos :=
                         old(dir.users)[k].photos + [ProfilePhoto(cloud.secureUrl, None, g.value.kind)])]
    {
      var g := NewPhoto(me, file, typeField, cloud, urlPath, freshId, now);
      if g.Fail? {
        return Fail(g.status, g.message);
      }
      var p := g.value;
      Store(p);
      var _ := dir.PushProfilePhoto(me, ProfilePhoto(cloud.secureUrl, None, p.kind));
      r := Ok(PhotoView(freshId, cloud.secureUrl, None, p.kind));
    }

    /** `Photo.create`: appends a photo with a new id whose file name is
        its original name. */
    method Store(p: Photo)
      requires Valid() && p.fileName == p.originalName
      requires forall i :: 0 <= i < |photos| ==> photos[i].id != p.id
      modifies this`photos
      ensures Valid()
      ensures photos == old(photos) + [p]
    {
      photos := photos + [p];
    }

    /** `GET /api/photos`: the caller's photos, newest first. */
    function List(me: Id): (r: Reply<seq<Photo>>)
      reads this
      ensures r.Fail? <==> !IsObjectId(me)
      ensures r.Ok? ==> SortedDesc(r.value, PhotoCreatedAt)
      ensures r.Ok? ==> forall p :: p in r.value <==> p in photos && p.owner == me
    {
      if !IsObjectId(me) then Fail(500, CastFailure)
      else
        var mine := PhotosOf(photos, me);
        forall p ensures p in SortDesc(mine, PhotoCreatedAt) <==> p in mine {
          SortDescMembers(mine, PhotoCreatedAt, p);
        }
        Ok(SortDesc(mine, PhotoCreatedAt))
    }

    /** `DELETE /api/photos/:id`: only a photo of the caller is found (404
        otherwise); the entries without a public id are pulled from the
        caller's `user.photos`, and the photo is removed. */
    method Delete(dir: Directory, me: Id, id: string) returns (r: Reply<()>)
      requires Valid() && dir.Valid()
      modifies this`photos, dir`users
      ensures Valid() && dir.Valid()
      ensures !IsObjectId(id) || !IsObjectId(me) ==> r == Fail(500, DeleteFailed)
      ensures r.Fail? ==> photos == old(photos) && dir.users == old(dir.users)
      ensures IsObjectId(id) && IsObjectId(me) && OwnedPhotoIndex(old(photos), id, me).None? ==> r == Fail(404, PhotoNotFound)
      ensures r.Ok? <==> IsObjectId(id) && IsObjectId(me) && OwnedPhotoIndex(old(photos), id, me).Some?
      ensures r.Ok? ==> photos == RemoveAt(old(photos), OwnedPhotoIndex(old(photos), id, me).value)
      ensures r.Ok? ==> match UserIndex(old(dir.users), me)
                        case None => dir.users == old(dir.users)
                        case Some(k) => dir.users == old(dir.users)[k := old(dir.users)[k].(photos :=
                                          PullPhoto(old(dir.users)[k].photos, None))]
      ensures forall p :: p in old(photos) && p.owner != me ==> p in photos
    {
      if !IsObjectId(id) || !IsObjectId(me) {
        return Fail(500, DeleteFailed);
      }
      var k := OwnedPhotoIndex(photos, id, me);
      if k.None? {
        return Fail(404, PhotoNotFound);
      }
      var _ := dir.PullProfilePhotos(me, None);
      RemovePhotoAt(k.value);
      r := Ok(());
    }

    method RemovePhotoAt(k: nat)
      requires Valid() && k < |photos|
      modifies this`photos
      ensures Valid()
      ensures photos == RemoveAt(old(photos), k)
      ensures forall p :: p in old(photos) && p != old(photos)[k] ==> p in photos
    {
      var before := photos;
      photos := RemoveAt(photos, k);
      forall p | p in before && p != before[k] ensures p in photos {
        var i :| 0 <= i < |before| && before[i] == p;
        if i < k { assert photos[i] == p; } else { assert photos[i - 1] == p; }
      }
    }
  }
}
