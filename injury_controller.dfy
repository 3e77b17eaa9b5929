/** The injury-detection handlers: upload a photo, have it classified and
    stored, list, read and delete the caller's own documents. */
module InjuryController {
  import opened Common
  import opened Collection
  import opened Media
  import opened Ranking
  import opened Queries
  import opened InjuryModel

  const ImageField := "injury_image"
  const ImageFolder := "injury_images"
  /** The messages multer's errors carry, which the handler sends back. */
  const NotAnImage := "Only image files are allowed!"
  const TooLarge := "File too large"
  const UnexpectedField := "Unexpected field"

  /** The collection invariant: ids below the counter, every document valid. */
  ghost predicate Consistent(db: Store<InjuryDetection>)
    reads db
  {
    db.Valid() && forall id :: id in db.records ==> WellFormed(db.records[id])
  }

  /** `.single("injury_image")` with the `image/` filter and the 10 MiB
      limit: only that field, one file, an image, small enough. */
  predicate ImageAccepted(form: Form) {
    && FieldsAccepted(form, {ImageField}, ImageSizeLimit)
    && forall f, p :: f in form && p in form[f] ==> IsImage(p.mimetype)
  }

  /** What multer and the `!req.file` guard make of the form. */
  datatype ImageIntake = Rejected(message: string) | NoFile | Image(part: Part)

  /** multer's checks on the `k`-th file of `field`, in the order it makes
      them: the field and file count first, then the handler's
      `fileFilter`, and the size limit last, while the file streams. */
  function PartFault(field: string, k: nat, p: Part): Option<string> {
    if field != ImageField || k >= 1 then Some(UnexpectedField)
    else if !IsImage(p.mimetype) then Some(NotAnImage)
    else if p.size > ImageSizeLimit then Some(TooLarge)
    else None
  }

  /** A form with a file outside the image field. */
  predicate HasForeignFile(form: Form) {
    exists f :: f in form && f != ImageField && form[f] != []
  }

  /** The first fault multer meets ends the upload. The files of the image
      field arrive in order, so its first file is checked before a second
      one is seen. */
  function SingleImage(form: Form): (r: ImageIntake)
    ensures r.Rejected? <==> !ImageAccepted(form)
    ensures r.Rejected? ==> r.message in {NotAnImage, TooLarge, UnexpectedField}
    ensures r.NoFile? <==> ImageAccepted(form) && !HasFile(form, ImageField)
    ensures r.Image? ==> form[ImageField] == [r.part] && IsImage(r.part.mimetype) && r.part.size <= ImageSizeLimit
    ensures !HasForeignFile(form) && HasFile(form, ImageField) && PartFault(ImageField, 0, form[ImageField][0]).Some? ==>
      r == Rejected(PartFault(ImageField, 0, form[ImageField][0]).value)
  {
    if HasForeignFile(form) then Rejected(UnexpectedField)
    else if HasFile(form, ImageField) && PartFault(ImageField, 0, form[ImageField][0]).Some? then
      Rejected(PartFault(ImageField, 0, form[ImageField][0]).value)
    else if ImageField in form && |form[ImageField]| > 1 then Rejected(UnexpectedField)
    else if !HasFile(form, ImageField) then NoFile
    else
      assert form[ImageField][0] in form[ImageField];
      Image(form[ImageField][0])
  }

  /** A form of one file gets that file's fault: a file under any other
      field name is an unexpected field whatever its type and size, an
      image-field file that is not an image fails the filter before its
      size is known, and only an image within the limit is accepted. */
  lemma OneFileIntake(field: string, p: Part)
    ensures var r := SingleImage(map[field := [p]]);
      && (field != ImageField ==> r == Rejected(UnexpectedField))
      && (field == ImageField && !IsImage(p.mimetype) ==> r == Rejected(NotAnImage))
      && (field == ImageField && IsImage(p.mimetype) && p.size > ImageSizeLimit ==> r == Rejected(TooLarge))
      && (field == ImageField && IsImage(p.mimetype) && p.size <= ImageSizeLimit ==> r == Image(p))
  {
    var form := map[field := [p]];
    if field != ImageField {
      assert form[field] != [];
      assert HasForeignFile(form);
    } else {
      assert !HasForeignFile(form);
    }
  }

  /** How far an upload gets. */
  datatype UploadOutcome =
    | IntakeRejected(message: string)
    | NoFileUploaded
    /** storage, the classifier or validation failed */
    | Failed
    | Stored(record: InjuryDetection)

  /** The handler's steps in order: intake, storage, classification, then
      the new document; classification is part of creation. */
  function Outcome(user: UserId, form: Form, now: Time, storage: StorageOracle, classifier: string -> Classification): (o: UploadOutcome)
    ensures o.IntakeRejected? <==> SingleImage(form).Rejected?
    ensures o.NoFileUploaded? <==> SingleImage(form).NoFile?
    ensures o.Stored? ==>
      && SingleImage(form).Image?
      && storage(UploadKey(ImageFolder, user, now, SingleImage(form).part)) == Some(o.record.s3Link)
      && classifier(o.record.s3Link).Classified?
      && o.record.owner == user && WellFormed(o.record) && o.record.uploadedAt == now
      && o.record.injuryClass == classifier(o.record.s3Link).injuryClass.GetOr(NotDetected)
      && o.record.probability == classifier(o.record.s3Link).probability.GetOr(0.0)
    ensures SingleImage(form).Image? && storage(UploadKey(ImageFolder, user, now, SingleImage(form).part)).None? ==> o.Failed?
    ensures (SingleImage(form).Image? && storage(UploadKey(ImageFolder, user, now, SingleImage(form).part)).Some? &&
      classifier(storage(UploadKey(ImageFolder, user, now, SingleImage(form).part)).value).ClassifierError?) ==> o.Failed?
    ensures (&& SingleImage(form).Image? && user != ""
      && StoredAt(storage, UploadKey(ImageFolder, user, now, SingleImage(form).part))
      && classifier(storage(UploadKey(ImageFolder, user, now, SingleImage(form).part)).value).Classified?) ==> o.Stored?
  {
    match SingleImage(form)
    case Rejected(message) => IntakeRejected(message)
    case NoFile => NoFileUploaded
    case Image(part) =>
      var link := storage(UploadKey(ImageFolder, user, now, part));
      if link.None? then Failed
      else
        match classifier(link.value)
        case ClassifierError => Failed
        case Classified(injuryClass, probability) =>
          var doc := Create(user, link.value, injuryClass, probability, now);
          if doc.None? then Failed else Stored(doc.value)
  }

  /** The stored photo lies in the caller's own key space: no other user
      (ids contain no `/`) can write to its key. */
  lemma StoredUnderCallersKey(user: UserId, other: UserId, form: Form, now: Time, later: Time, name: Part, storage: StorageOracle, classifier: string -> Classification)
    requires Outcome(user, form, now, storage, classifier).Stored?
    requires other != user && '/' !in user && '/' !in other
    ensures UploadKey(ImageFolder, user, now, SingleImage(form).part) != UploadKey(ImageFolder, other, later, name)
  {
    KeysOfDistinctUsersDiffer(ImageFolder, user, other, now, later,
      Basename(StagedPath(now, SingleImage(form).part.originalName)), Basename(StagedPath(later, name.originalName)));
  }

  /** The reply to an upload; `NoReply` means no response is ever sent. */
  datatype InjuryReply =
    | BadUpload(message: string)
    | MissingFile
    | Created(id: RecordId, record: InjuryDetection)
    | InternalError
    | NoReply

  /** `uploadInjuryImage` as written: everything after the intake runs in
      the multer callback, whose rejected promise nobody awaits, while the
      outer `try`/`catch` has already returned; a failure there is an
      unhandled rejection and the request is never answered. */
  function ReplyAsWritten(o: UploadOutcome, id: RecordId): (r: InjuryReply)
    ensures o.Failed? <==> r.NoReply?
    ensures o.Stored? ==> r == Created(id, o.record)
  {
    match o
    case IntakeRejected(message) => BadUpload(message)
    case NoFileUploaded => MissingFile
    case Failed => NoReply
    case Stored(record) => Created(id, record)
  }

  /** A storage outage leaves an image upload unanswered as written. */
  lemma StorageFailureUnanswered(user: UserId, part: Part, now: Time, id: RecordId)
    requires IsImage(part.mimetype) && part.size <= ImageSizeLimit
    ensures
      var form := map[ImageField := [part]];
      ReplyAsWritten(Outcome(user, form, now, (key: string) => None, (link: string) => ClassifierError), id) == NoReply
  {
    var form := map[ImageField := [part]];
    assert ImageAccepted(form);
    assert SingleImage(form) == Image(part);
  }

  /** The reply the handler evidently intends: a failure after the intake
      is answered with 500 like the other handlers' failures. */
  function Reply(o: UploadOutcome, id: RecordId): (r: InjuryReply)
    ensures !r.NoReply?
    ensures o.Failed? <==> r == InternalError
    ensures o.Stored? ==> r == Created(id, o.record)
    ensures !o.Failed? ==> r == ReplyAsWritten(o, id)
  {
    if o.Failed? then InternalError else ReplyAsWritten(o, id)
  }

  function Status(r: InjuryReply): (s: Option<int>)
    ensures s.None? <==> r.NoReply?
  {
    match r
    case BadUpload(_) => Some(400)
    case MissingFile => Some(400)
    case Created(_, _) => Some(201)
    case InternalError => Some(500)
    case NoReply => None
  }

  /** `uploadInjuryImage` with every failure answered: one new document,
      owned by the caller, exactly when the outcome is `Stored`. */
  method Upload(db: Store<InjuryDetection>, user: UserId, form: Form, now: Time, storage: StorageOracle, classifier: string -> Classification)
    returns (reply: InjuryReply)
    requires Consistent(db)
    modifies db
    ensures Consistent(db)
    ensures Status(reply).Some?
    ensures var o := Outcome(user, form, now, storage, classifier);
      && (o.Stored? ==> reply.Created? && reply.id !in old(db.records) && db.records == old(db.records)[reply.id := o.record])
      && (!o.Stored? ==> db.records == old(db.records))
      && reply == Reply(o, if reply.Created? then reply.id else 0)
  {
    var o := Outcome(user, form, now, storage, classifier);
    if o.Stored? {
      var id := db.Insert(o.record);
      reply := Created(id, o.record);
    } else {
      reply := Reply(o, 0);
    }
  }

  /** The documents with the given ids, in that order. */
  function DocsAt(records: map<RecordId, InjuryDetection>, order: seq<RecordId>): (body: seq<Doc<InjuryDetection>>)
    requires forall i :: 0 <= i < |order| ==> order[i] in records
    ensures DocIds(body) == order
    ensures forall i :: 0 <= i < |body| ==> body[i].fields == records[order[i]]
  {
    var body := seq(|order|, i requires 0 <= i < |order| => Doc(order[i], records[order[i]]));
    assert DocIds(body) == order;
    body
  }

  lemma NewestUploadFirst(records: map<RecordId, InjuryDetection>, order: seq<RecordId>)
    requires forall i :: 0 <= i < |order| ==> order[i] in records
    requires forall i, j :: 0 <= i < j < |order| ==> KeyLe(ByTime(UploadedAt)(records[order[j]]), ByTime(UploadedAt)(records[order[i]]))
    ensures var body := DocsAt(records, order);
      forall i, j :: 0 <= i < j < |body| ==> body[j].fields.uploadedAt <= body[i].fields.uploadedAt
  {
    forall i, j | 0 <= i < j < |order|
      ensures records[order[j]].uploadedAt <= records[order[i]].uploadedAt
    {
      ByTimeOrder(UploadedAt, records[order[j]], records[order[i]]);
    }
  }

  /** `getUserInjuryRecords`: always 200, the caller's documents, newest
      upload first. */
  function Records(records: map<RecordId, InjuryDetection>, user: UserId): (body: seq<Doc<InjuryDetection>>)
    ensures multiset(DocIds(body)) == multiset(SortedIds(OwnedIds(records, Owner, user)))
    ensures forall i :: 0 <= i < |body| ==> body[i].id in records && body[i].fields == records[body[i].id] && body[i].fields.owner == user
    ensures forall i, j :: 0 <= i < j < |body| ==> body[j].fields.uploadedAt <= body[i].fields.uploadedAt
  {
    var order := RankedIds(records, Owner, ByTime(UploadedAt), user);
    NewestUploadFirst(records, order);
    DocsAt(records, order)
  }

  /** `getSingleInjuryRecord`: the document only when both id and owner
      match, 404 otherwise. */
  function GetIfOwned(records: map<RecordId, InjuryDetection>, user: UserId, id: RecordId): (r: Reply<InjuryDetection>)
    ensures r.Ok? <==> id in records && records[id].owner == user
    ensures r.Ok? ==> r.body == records[id]
    ensures r.Err? ==> r.status == NotFound
  {
    if id in records && records[id].owner == user then Ok(records[id]) else Err(NotFound)
  }

  /** `deleteInjuryRecord`: one find-and-delete on (id, owner). */
  method Delete(db: Store<InjuryDetection>, user: UserId, id: RecordId) returns (status: int)
    requires Consistent(db)
    modifies db
    ensures Consistent(db)
    ensures status == 200 <==> id in old(db.records) && old(db.records)[id].owner == user
    ensures status != 200 ==> status == NotFound
    ensures db.records == if status == 200 then old(db.records) - {id} else old(db.records)
    ensures forall k :: k in old(db.records) && old(db.records)[k].owner != user ==> k in db.records && db.records[k] == old(db.records)[k]
  {
    var removed := db.RemoveOwned(Owner, user, id);
    status := if removed then 200 else NotFound;
  }
}
