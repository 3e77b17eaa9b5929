# Netball analysis backend — verified model

This project models the Express/Mongoose backend of a netball training
app. Players upload pairs of videos (a correct and a wrong execution) for
three skills: ball handling, attack and defence. A scoring service then
compares the two videos. Players also upload injury photos, which a
classifier labels. Coaches see a leaderboard of their own players. Players
get a training video suggested from their scores.

The model covers, per skill domain:

- the Mongoose document and its schema defaults (`*_model.dfy`);
- the upload, analyse and delete handlers, as methods on a `Store` class
  that holds the collection as a map from id to document;
- the listing, history, suggestion and leaderboard handlers, as pure
  functions over that map.

Object storage, the scoring service and the injury classifier become
function-typed parameters (oracles). The leaderboard is MongoDB's
`$match → $sort → $group $first → $sort → $limit → $lookup` pipeline. Its
key is a `seq<real>` compared lexicographically with a missing value
lowest, which is how MongoDB orders a missing field, a number and an
embedded document. The ranking engine (`ranking.dfy`) is proved to return,
for at most `count` distinct players, a document with the player's maximal
key, in non-increasing key order, with no left-out player ranking higher.

Modules: `Common` (ids, replies, users), `Collection` (the store class),
`Ranking` (keys, sorting, best-per-owner, top-N), `Suggestion` (the
threshold cascade), `Media` (multer limits, staging names, storage keys),
`Queries` (handlers shared by the three video domains, generic over the
document type), and one model module and one controller module per domain.

## Model

| member | source | states |
|---|---|---|
| BallHandlingModel.Create | backend/models/ballhandling.model.js:4-36 | a document exists iff user, correct and wrong links are non-empty; it starts Pending (analysed link `""`), with no percentage, the placeholder graph URL and every time equal to now |
| BallHandlingModel.RecordAnalysis | backend/controllers/ballhandling.controller.js:183-189 | the analysed link and percentage become the scorer's values, owner and input links are kept, and the document counts as analysed iff the returned file URL is truthy |
| BallHandlingModel.SortKeyOrder | backend/controllers/ballhandling.controller.js:289 | the sort key orders documents exactly as the percentage does, a missing percentage below every number |
| BallHandlingModel.SortKeyOrdersTiers | backend/controllers/ballhandling.controller.js:336-370 | a document that sorts lower never earns a higher suggestion tier |
| BallHandlingController.UploadedDoc | backend/controllers/ballhandling.controller.js:57-93 | a document is created only when both parts pass multer and reach storage, and always when they do (for a caller id and two non-empty locations); it is owned by the caller, holds the two stored locations and is Pending |
| BallHandlingController.Upload | backend/controllers/ballhandling.controller.js:57-119 | 400 iff multer rejects the form or a part is missing; 201 with exactly one new document under a fresh id iff `UploadedDoc` succeeds, which it does for every accepted form whose two parts are stored; otherwise the collection is unchanged |
| BallHandlingController.Analyze | backend/controllers/ballhandling.controller.js:147-203 | unknown id gives 404; an analysed document gives 400 with its stored link and percentage, no scorer request and no change; otherwise exactly one request with the two links, then 500 and no save on a scorer failure, or 200 with the scorer's values and only that document replaced |
| BallHandlingController.Delete | backend/controllers/ballhandling.controller.js:233-263 | 200 and the document removed iff it exists and the caller owns it; otherwise 404 and nothing changes; another user's document is never removed or altered |
| BallHandlingController.AnalyzeTwice | backend/controllers/ballhandling.controller.js:158-166 | once the scorer returned a file URL, a second analysis answers 400 with that URL and the stored percentage, never calls the scorer, and the collection keeps exactly the first analysis |
| BallHandlingController.Suggestions | backend/controllers/ballhandling.controller.js:331-377 | 404 iff the caller has no documents; otherwise one entry per document, in percentage order, each the cascade's answer for its percentage, tiers never rising along the list |
| BallHandlingController.History | backend/controllers/ballhandling.controller.js:121-144 | 404 iff the caller has no documents; otherwise one entry per document of the caller (the ids `RankedIds` returns, each once), each its percentage and creation time, newest first |
| BallHandlingController.TopUsers | backend/controllers/ballhandling.controller.js:266-328 | 403 iff the caller is not a coach, 400 iff a coach sends an invalid count, otherwise at most `count` rows |
| BallHandlingController.TopUsersRows | backend/controllers/ballhandling.controller.js:284-319 | exactly min(count, number of players with documents) rows, distinct players of the coach, each row their name, e-mail and one of their percentages, in non-increasing percentage order |
| BallHandlingController.TopUsersBest | backend/controllers/ballhandling.controller.js:288-298 | each row's percentage is at least every other percentage of that player and of every player left off the board |
| AttackModel.Create | backend/models/attackanalysis.model.js:4-47 | a document exists iff user and both links are non-empty; it is Pending with all four sub-metrics 0, so `overall` is 0 |
| AttackModel.StoredScores | backend/controllers/attackanalysis.controller.js:159-165 | the stored object holds exactly shoulder, left_elbow, right_elbow and overall from the scorer, an absent member stored as 0 |
| AttackModel.ExtraMembersDropped | backend/controllers/attackanalysis.controller.js:159-165 | members the scorer adds beyond the four never reach the document |
| AttackModel.RecordAnalysis | backend/controllers/attackanalysis.controller.js:158-167 | the analysed link becomes the file URL and the scores the stored object; owner, links and times are kept; analysed iff the URL is truthy |
| AttackModel.Score | backend/controllers/attackanalysis.controller.js:356-371 | the value the cascade compares is always the embedded object, never a number |
| AttackModel.OverallKeyOrder | backend/controllers/attackanalysis.controller.js:296 | the leaderboard key orders documents exactly by `overall` |
| AttackController.UploadedDoc | backend/controllers/attackanalysis.controller.js:57-93 | a document exactly when both parts pass multer and are stored (for a caller id and non-empty locations), owned by the caller, Pending, scores zero |
| AttackController.Upload | backend/controllers/attackanalysis.controller.js:57-119 | 400 for a rejected or incomplete form, 201 with one new document iff `UploadedDoc` succeeds, which it does for every accepted form whose two parts are stored, otherwise no change |
| AttackController.Analyze | backend/controllers/attackanalysis.controller.js:122-181 | 404 for an unknown id; 400 with only the stored link and no scorer request for an analysed document; a scorer failure or a response without `similarity` gives 500 and no save; otherwise 200 echoing the raw similarity, with the four members stored |
| AttackController.Delete | backend/controllers/attackanalysis.controller.js:240-270 | removes the document iff it exists and the caller owns it, else 404 and no change; another user's document is never removed or altered |
| AttackController.Suggestions | backend/controllers/attackanalysis.controller.js:338-384 | 404 iff the caller has no documents; otherwise one entry per document, each showing its score object with the beginner attack video |
| AttackController.History | backend/controllers/attackanalysis.controller.js:211-237 | 404 iff the caller has no documents; otherwise one entry per document of the caller (the ids `RankedIds` returns, each once), each its score object and creation time, newest first |
| AttackController.TopUsers | backend/controllers/attackanalysis.controller.js:273-335 | 403 before 400 before a list of at most `count` rows |
| AttackController.TopUsersRows | backend/controllers/attackanalysis.controller.js:291-326 | distinct players of the coach, min(count, players) rows of name, e-mail and score object only, in non-increasing `overall` |
| AttackController.TopUsersBest | backend/controllers/attackanalysis.controller.js:294-306 | each row's `overall` is at least that of every other document of its player and of every player left off |
| DefenceModel.Create | backend/models/defenceanalysis.model.js:4-51 | a document exists iff user and both links are non-empty; it is Pending with all five sub-metrics 0 |
| DefenceModel.StoredScores | backend/controllers/defenceanalysis.controller.js:158-165 | the stored object holds exactly the five declared members, an absent one stored as 0 |
| DefenceModel.ExtraMembersDropped | backend/controllers/defenceanalysis.controller.js:158-165 | members beyond the five never reach the document |
| DefenceModel.RecordAnalysis | backend/controllers/defenceanalysis.controller.js:155-167 | the analysed link becomes the file URL and the scores the stored object; everything else is kept; analysed iff the URL is truthy |
| DefenceModel.Score | backend/controllers/defenceanalysis.controller.js:358-373 | the cascade always compares the embedded object |
| DefenceModel.DocumentKeyOrder | backend/models/defenceanalysis.model.js:23-44 | the embedded-document key orders documents lexicographically by left_knee, right_knee, hip_stance, stance_width, overall |
| DefenceModel.OverallDoesNotDecide | backend/controllers/defenceanalysis.controller.js:296 | a document with the higher `overall` can rank below one with a lower `overall` |
| DefenceController.UploadedDoc | backend/controllers/defenceanalysis.controller.js:57-93 | a document exactly when both parts pass multer and are stored (for a caller id and non-empty locations), owned by the caller, Pending, scores zero |
| DefenceController.Upload | backend/controllers/defenceanalysis.controller.js:57-119 | 400 for a rejected or incomplete form, 201 with one new document iff `UploadedDoc` succeeds, which it does for every accepted form whose two parts are stored, otherwise no change |
| DefenceController.Analyze | backend/controllers/defenceanalysis.controller.js:122-181 | 404, 400 without a scorer request, 500 without a save, or 200 with the five members stored |
| DefenceController.Delete | backend/controllers/defenceanalysis.controller.js:240-270 | removes the document iff it exists and the caller owns it, else 404 and no change; another user's document is never removed or altered |
| DefenceController.Suggestions | backend/controllers/defenceanalysis.controller.js:340-387 | 404 iff no documents; otherwise every entry shows its score object with the beginner attack video |
| DefenceController.History | backend/controllers/defenceanalysis.controller.js:211-237 | 404 iff the caller has no documents; otherwise one entry per document of the caller (the ids `RankedIds` returns, each once), each its score object and creation time, newest first |
| DefenceController.TopUsers | backend/controllers/defenceanalysis.controller.js:273-337 | 403 before 400 before a list of at most `count` rows |
| DefenceController.TopUsersRows | backend/controllers/defenceanalysis.controller.js:291-328 | distinct players of the coach, min(count, players) rows of name, e-mail, score object and upload time, in non-increasing lexicographic order of the score object |
| DefenceController.TopUsersBest | backend/controllers/defenceanalysis.controller.js:294-305 | each row's score object is lexicographically at least every other document of its player and of every player left off |
| InjuryModel.Create | backend/models/injurydetection.model.js:3-28 | a document exists iff user and link are non-empty; an absent class is "Not Detected", an absent probability 0; all times are now |
| InjuryModel.MissingVerdictDefaults | backend/models/injurydetection.model.js:14-21 | a verdict without class or probability stores "Not Detected" and 0 |
| InjuryController.SingleImage | backend/controllers/injurydetection.controller.js:17-37 | multer rejects a form iff it has a file outside `injury_image`, a second file, a non-`image/` type or a file over 10 MiB, with one of its three messages; the first file of the image field is judged by field, then type, then size; an accepted form without the file is the missing-file case |
| InjuryController.OneFileIntake | backend/controllers/injurydetection.controller.js:30-36 | a one-file form under another field name gets "Unexpected field" whatever its type and size; under `injury_image` a non-image gets the filter's message, an image over 10 MiB "File too large", and only an image within the limit is accepted |
| InjuryController.Outcome | backend/controllers/injurydetection.controller.js:60-90 | a document is stored only after storage and the classifier both answered; it is owned by the caller, holds the stored location and the classifier's class and probability (or the defaults); a storage or classifier failure stores nothing, and an image that is stored and classified is always stored as a document |
| InjuryController.StoredUnderCallersKey | backend/controllers/injurydetection.controller.js:44 | the photo's key lies under `injury_images/<caller>/`, so no other user's upload uses it |
| InjuryController.ReplyAsWritten | backend/controllers/injurydetection.controller.js:60-101 | as written, a failure after the intake gives no reply at all; every other outcome gets one |
| InjuryController.StorageFailureUnanswered | backend/controllers/injurydetection.controller.js:71-72 | an accepted image whose storage upload fails is never answered |
| InjuryController.Reply | backend/controllers/injurydetection.controller.js:97-100 | every outcome gets a reply, a late failure a 500 |
| InjuryController.Upload | backend/controllers/injurydetection.controller.js:60-101 | every request is answered; 201 with exactly one new document under a fresh id iff the outcome is stored (always the case once storage and the classifier answered), otherwise no change |
| InjuryController.Records | backend/controllers/injurydetection.controller.js:104-116 | always 200; exactly the caller's documents, each once, by upload time descending |
| InjuryController.GetIfOwned | backend/controllers/injurydetection.controller.js:119-135 | the document iff the id exists and the caller owns it, else 404 |
| InjuryController.Delete | backend/controllers/injurydetection.controller.js:138-159 | removes the document iff id and owner match, else 404 and no change; another user's document is never removed or altered |
| Queries.Videos | backend/controllers/ballhandling.controller.js:206-230 | 400 iff the user id is empty, 404 iff the user has no documents, otherwise exactly the user's documents in insertion order (same code in attackanalysis.controller.js:184-208 and defenceanalysis.controller.js:184-208) |
| Queries.History | backend/controllers/ballhandling.controller.js:121-144 | 404 iff no documents; otherwise each document's score and creation time, newest first (same code in attackanalysis.controller.js:211-237 and defenceanalysis.controller.js:211-237) |
| Queries.RankedIds | backend/controllers/ballhandling.controller.js:336-338 | the user's document ids, each exactly once, in non-increasing key order |
| Queries.PlayerDocs | backend/controllers/ballhandling.controller.js:284-288 | exactly the documents of players whose selected coach is the caller |
| Queries.TopUsersKeys | backend/controllers/ballhandling.controller.js:288-319 | the leaderboard over any key: distinct players, min(count, players) rows, non-increasing keys, each row its player's maximal key, no left-out player higher |
| Ranking.BestPerOwnerIsMaximal | backend/controllers/ballhandling.controller.js:289-296 | `$sort` then `$group $first` keeps one document per owner, with that owner's maximal key |
| Ranking.TopIsValid | backend/controllers/ballhandling.controller.js:289-298 | the sort/group/sort/limit pipeline meets its specification `ValidTop` |
| Ranking.SortDesc | backend/controllers/ballhandling.controller.js:297 | the result is a permutation of the input |
| Ranking.SortDescSorted | backend/controllers/ballhandling.controller.js:297 | the result is in non-increasing key order |
| Suggestion.Suggest | backend/controllers/ballhandling.controller.js:348-368 | missing gives the sentinel pair; a number above 80 gives high, 60 to 80 intermediate, below 60 beginner; an embedded object beginner |
| Suggestion.SuggestMonotone | backend/controllers/ballhandling.controller.js:348-368 | a higher percentage never earns a lower tier |
| Suggestion.SuggestExamples | backend/controllers/ballhandling.controller.js:348-368 | 85, 80, 60, 59.9 and missing land on the expected branches |
| Media.PairIntake | backend/controllers/ballhandling.controller.js:17-31 | the form fails iff a foreign field, a second file or an oversize file is present; both parts are required |
| Media.KeysOfDistinctUsersDiffer | backend/controllers/ballhandling.controller.js:41 | storage keys of different users never collide |
| Media.BasenameOfStagedPath | backend/controllers/ballhandling.controller.js:27 | the stored basename is the staging name `<now>-<original name>` |
| Collection.Store.Insert | backend/controllers/ballhandling.controller.js:93 | `save()` of a new document adds exactly it under a fresh id |
| Collection.Store.RemoveOwned | backend/controllers/ballhandling.controller.js:239-251 | removes the id iff it exists and the owner matches, nothing else |
| Collection.Store.Replace | backend/controllers/ballhandling.controller.js:189 | `save()` of a loaded, changed document replaces exactly that id, nothing else |
| Collection.Store.Remove | backend/controllers/ballhandling.controller.js:251 | `findByIdAndDelete` removes exactly that id, nothing else |

## Left out

- The Python services (pose extraction, similarity, video composition, the injury classifier) are oracles: a function from request to response.
- S3, multer's disk staging and axios are oracles too; staging files and their unlinking are not tracked.
- Concurrency: `analyze` reads then saves without atomicity; only single callers are modelled.
- Ties among equal keys: MongoDB does not fix the order of documents with equal sort keys; the model fixes one. `RankedIds` sorts the ids in ascending order with a stable insertion sort, so the position-naming contracts of `Queries.History`, `Queries.Suggestions` and the three controllers' `History` and `Suggestions` order ties by ascending id. `Ranking.Top` sorts the output of `BestPerOwner`, which keeps each player at the place of that player's first document, so `Queries.TopUsers` orders tied rows by each player's lowest document id, not by the row's own id. The contracts that hold for every tie order are `Queries.RankedIds` (its multiset and non-increasing-key ensures), the tier ensures of `BallHandlingController.Suggestions`, the newest-first ensures of every `History`, `Queries.TopUsersKeys`, the three `TopUsersRows` and `TopUsersBest` lemmas, and `InjuryController.Records`.
- Routing, JWT authentication and the unauthenticated listing routes: the caller is a plain parameter.
- The attack and defence upload replies read misspelt fields and echo undefined; the model replies with the new id.
- JavaScript numbers are `real`; rounding and NaN are not modelled beyond the threshold comparisons.
- AttackModel.StoredScores: an absent scorer member is stored as 0, the schema default; Mongoose's exact handling of `undefined` in a nested assignment is not modelled.
- DefenceModel.StoredScores: same as for attack.
- Queries.TopUsers: `count` is an optional integer; string counts and `parseInt` truncation are not modelled.
- Database and cast failures that give 500 (an ill-formed id, a lost connection) are not modelled.
- Queries.Videos: `find({ userId })` has no sort and MongoDB does not promise natural order; listing by ascending id (insertion order) is a model choice.
- One `now` stands for the several `Date.now()` calls of one request.
- InjuryController.SingleImage: the form is a map from field to files, so the arrival order between fields is lost; when a form has files in another field as well as faults in `injury_image`, the model reports "Unexpected field" whichever file multer meets first. Within `injury_image` and for a one-file form the order is modelled.
- The frontend, the chat controller and the user and coach handlers are not part of this model.

## Findings

| source | as written | input that shows it | evidently intended | confidence | as-written member | corrected member |
|---|---|---|---|---|---|---|
| backend/controllers/injurydetection.controller.js:60-101 | the work after multer runs in an async callback whose rejection nothing catches; the outer `try`/`catch` has already returned | an accepted image whose storage upload (or classifier call) throws | answer 500 as every other handler does | not executed | InjuryController.StorageFailureUnanswered | InjuryController.Upload |
