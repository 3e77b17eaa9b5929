/** An injury-detection document: one stored photo and the classifier's
    verdict on it, with the schema's defaults for a missing verdict. */
module InjuryModel {
  import opened Common

  const NotDetected := "Not Detected"

  datatype InjuryDetection = InjuryDetection(
    owner: UserId,
    s3Link: string,
    injuryClass: string,
    probability: real,
    uploadedAt: Time,
    createdAt: Time,
    updatedAt: Time)

  /** What the classifier's HTTP call yields: a failure (the call throws or
      the body cannot be destructured), or its `class` and `probability`,
      each possibly absent. */
  datatype Classification =
    | ClassifierError
    | Classified(injuryClass: Option<string>, probability: Option<real>)

  /** The `required` paths: Mongoose rejects a missing or empty string. */
  predicate WellFormed(r: InjuryDetection) {
    r.owner != "" && r.s3Link != ""
  }

  /** `new InjuryDetection({ userId, s3_link, injury_class, probability })`
      and its validation: an absent class or probability takes its default. */
  function Create(user: UserId, link: string, injuryClass: Option<string>, probability: Option<real>, now: Time): (r: Option<InjuryDetection>)
    ensures r.Some? <==> user != "" && link != ""
    ensures r.Some? ==> WellFormed(r.value) && r.value.owner == user && r.value.s3Link == link
    ensures r.Some? ==> r.value.injuryClass == (if injuryClass.Some? then injuryClass.value else NotDetected)
    ensures r.Some? ==> r.value.probability == (if probability.Some? then probability.value else 0.0)
    ensures r.Some? ==> r.value.uploadedAt == now && r.value.createdAt == now && r.value.updatedAt == now
  {
    if user == "" || link == "" then None
    else Some(InjuryDetection(user, link, injuryClass.GetOr(NotDetected), probability.GetOr(0.0), now, now, now))
  }

  /** A classifier that answers without a verdict leaves the defaults. */
  lemma MissingVerdictDefaults(user: UserId, link: string, now: Time)
    requires user != "" && link != ""
    ensures Create(user, link, None, None, now).value.injuryClass == "Not Detected"
    ensures Create(user, link, None, None, now).value.probability == 0.0
  {
  }

  function Owner(r: InjuryDetection): UserId {
    r.owner
  }

  function UploadedAt(r: InjuryDetection): Time {
    r.uploadedAt
  }
}
