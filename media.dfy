/** Media ingress: the multer limits and filters, the staging file name and
    the object-storage key every upload handler builds. The storage service
    itself is an oracle from key to public location. */
module Media {
  import opened Common

  const MiB := 1024 * 1024
  /** `limits: { fileSize: 50 * 1024 * 1024 }` on the video uploads. */
  const VideoSizeLimit := 50 * MiB
  /** `limits: { fileSize: 10 * 1024 * 1024 }` on the injury image upload. */
  const ImageSizeLimit := 10 * MiB

  /** One multipart file as the client sent it. */
  datatype Part = Part(mimetype: string, size: nat, originalName: string)

  /** The object store's answer to `s3.upload` for a key: the public
      `Location`, or `None` when the upload throws. */
  type StorageOracle = string -> Option<string>

  /** The files of a multipart request by field name, in arrival order. */
  type Form = map<string, seq<Part>>

  /** multer's `.fields([{ name, maxCount: 1 }, …])` with `limits.fileSize`:
      a file in an undeclared field, a second file in a field, or a file
      over the size limit fails the whole upload; a field without files is
      no file at all. */
  predicate FieldsAccepted(form: Form, fields: set<string>, limit: nat) {
    forall f :: f in form ==> (form[f] != [] ==> f in fields) && |form[f]| <= 1 && forall p :: p in form[f] ==> p.size <= limit
  }

  /** `req.files[field]` is present. */
  predicate HasFile(form: Form, field: string) {
    field in form && |form[field]| > 0
  }

  /** What multer and the handler's presence guard make of a two-video form. */
  datatype Intake = UploadFailed | BothRequired | Accepted(first: Part, second: Part)

  function PairIntake(form: Form, first: string, second: string, limit: nat): (r: Intake)
    ensures r.UploadFailed? <==> !FieldsAccepted(form, {first, second}, limit)
    ensures r.BothRequired? <==> FieldsAccepted(form, {first, second}, limit) && !(HasFile(form, first) && HasFile(form, second))
    ensures r.Accepted? ==> HasFile(form, first) && HasFile(form, second) && r.first == form[first][0] && r.second == form[second][0]
    ensures r.Accepted? ==> r.first.size <= limit && r.second.size <= limit
  {
    if !FieldsAccepted(form, {first, second}, limit) then UploadFailed
    else if !(HasFile(form, first) && HasFile(form, second)) then BothRequired
    else
      assert form[first][0] in form[first] && form[second][0] in form[second];
      Accepted(form[first][0], form[second][0])
  }

  /** The reply of a two-video upload handler. */
  datatype UploadReply = FileUploadFailed | BothVideosRequired | Uploaded(id: RecordId) | UploadError {
    function Status(): int {
      match this
      case FileUploadFailed => 400
      case BothVideosRequired => 400
      case Uploaded(_) => 201
      case UploadError => 500
    }
  }

  /** `file.mimetype.startsWith("image/")`. */
  predicate IsImage(mimetype: string) {
    |mimetype| >= 6 && mimetype[..6] == "image/"
  }

  function Digit(d: nat): char
    requires d < 10
  {
    "0123456789"[d]
  }

  /** The decimal text of a number, as a template literal prints it. */
  function Decimal(n: nat): (r: string)
    ensures |r| >= 1
    ensures forall i :: 0 <= i < |r| ==> '0' <= r[i] <= '9'
    decreases n
  {
    if n < 10 then [Digit(n)] else Decimal(n / 10) + [Digit(n % 10)]
  }

  /** multer's disk path: `uploads/${Date.now()}-${file.originalname}`. */
  function StagedPath(now: Time, originalName: string): string {
    "uploads/" + Decimal(now) + "-" + originalName
  }

  /** The upload of `key` succeeds with a non-empty location. */
  predicate StoredAt(storage: StorageOracle, key: string) {
    storage(key).Some? && storage(key).value != ""
  }

  /** `path.basename`: what follows the last `/`. */
  function Basename(path: string): (r: string)
    ensures '/' !in r
    ensures |r| <= |path|
    ensures r == path[|path| - |r|..]
    decreases |path|
  {
    if path == [] then []
    else if path[|path| - 1] == '/' then []
    else Basename(path[..|path| - 1]) + [path[|path| - 1]]
  }

  lemma BasenameOfStagedPath(now: Time, originalName: string)
    requires '/' !in originalName
    ensures Basename(StagedPath(now, originalName)) == Decimal(now) + "-" + originalName
  {
    var name := Decimal(now) + "-" + originalName;
    assert '/' !in name by {
      forall i | 0 <= i < |name|
        ensures name[i] != '/'
      {
        if i < |Decimal(now)| {
          assert name[i] == Decimal(now)[i];
        } else if i > |Decimal(now)| {
          assert name[i] == originalName[i - |Decimal(now)| - 1];
        }
      }
    }
    assert StagedPath(now, originalName) == "uploads/" + name;
    BasenameOfSlashFree("uploads/", name);
  }

  lemma {:induction false} BasenameOfSlashFree(dir: string, name: string)
    requires '/' !in name && dir != [] && dir[|dir| - 1] == '/'
    ensures Basename(dir + name) == name
    decreases |name|
  {
    if name == [] {
      assert dir + name == dir;
    } else {
      var init := name[..|name| - 1];
      assert (dir + name)[..|dir + name| - 1] == dir + init;
      BasenameOfSlashFree(dir, init);
      assert name == init + [name[|name| - 1]];
    }
  }

  /** `${folder}/${userId}/${Date.now()}-${basename}`. */
  function StorageKey(folder: string, userId: UserId, now: Time, basename: string): string {
    folder + "/" + userId + "/" + Decimal(now) + "-" + basename
  }

  /** The key `uploadToS3` stores a staged part under. */
  function UploadKey(folder: string, userId: UserId, now: Time, p: Part): string {
    StorageKey(folder, userId, now, Basename(StagedPath(now, p.originalName)))
  }

  /** Keys are namespaced by owner: two users whose ids contain no `/`
      never write to the same key, whatever the times and file names. */
  lemma KeysOfDistinctUsersDiffer(folder: string, u1: UserId, u2: UserId, t1: Time, t2: Time, b1: string, b2: string)
    requires u1 != u2 && '/' !in u1 && '/' !in u2
    ensures StorageKey(folder, u1, t1, b1) != StorageKey(folder, u2, t2, b2)
  {
    var k1 := StorageKey(folder, u1, t1, b1);
    var k2 := StorageKey(folder, u2, t2, b2);
    var p := |folder| + 1;
    assert k1 == folder + "/" + u1 + "/" + (Decimal(t1) + "-" + b1);
    assert k2 == folder + "/" + u2 + "/" + (Decimal(t2) + "-" + b2);
    assert forall i :: 0 <= i < |u1| ==> k1[p + i] == u1[i];
    assert forall i :: 0 <= i < |u2| ==> k2[p + i] == u2[i];
    assert k1[p + |u1|] == '/' && k2[p + |u2|] == '/';
    if |u1| == |u2| {
      var i :| 0 <= i < |u1| && u1[i] != u2[i];
      assert k1[p + i] != k2[p + i];
    } else if |u1| < |u2| {
      assert u2[|u1|] != '/';
      assert k1[p + |u1|] != k2[p + |u1|];
    } else {
      assert u1[|u2|] != '/';
      assert k1[p + |u2|] != k2[p + |u2|];
    }
  }
}
