/** Types shared by every collection of the netball backend: identifiers,
    optional JSON values, HTTP replies, the external scorer's answer and the
    read-only user table that the leaderboards consult. */
module Common {

  /** `req.user.id` / `userId`: the string form of a user's ObjectId. */
  type UserId = string
  /** `_id` of a stored document; allocated from an increasing counter, so
      ascending ids are the collection's natural (insertion) order. */
  type RecordId = nat
  /** Milliseconds since the epoch, as `Date.now()` returns them. */
  type Time = nat

  /** A JSON value that may be `undefined`/`null`. */
  datatype Option<+T> = None | Some(value: T) {
    function GetOr(default: T): T {
      match this
      case Some(v) => v
      case None => default
    }
  }

  /** A query reply: a 200 body, or an error status with no payload. */
  datatype Reply<+T> = Ok(body: T) | Err(status: int)

  const BadRequest := 400
  const Forbidden := 403
  const NotFound := 404

  /** JavaScript truthiness of a string field that may be missing: only a
      present, non-empty string is truthy. */
  predicate Truthy(s: Option<string>) {
    s.Some? && s.value != ""
  }

  /** What the scoring service's HTTP call yields. `ScorerError` stands for
      every case in which `axios.post` throws or the `<domain>_result` member
      is missing (reading a field of `undefined` throws as well). */
  datatype ScorerResponse<S> =
    | ScorerError
    | ScorerOk(fileUrl: Option<string>, similarity: S)

  /** The payload posted to the scorer: the two stored input videos. */
  datatype ScorerRequest = ScorerRequest(correctLink: string, wrongLink: string)

  /** A user document as the leaderboards read it. */
  datatype User = User(fullName: string, email: string, profileType: string, selectedCoach: Option<UserId>)

  type Users = map<UserId, User>

  /** `coach && coach.profileType === "Coach"`. */
  predicate IsCoach(users: Users, id: UserId) {
    id in users && users[id].profileType == "Coach"
  }

  /** `User.find({ selectedCoach: coach })`: the players who chose `coach`. */
  function PlayersOf(users: Users, coach: UserId): set<UserId> {
    set u | u in users && users[u].selectedCoach == Some(coach)
  }

  /** `!count || count <= 0` rejects the request. */
  predicate ValidCount(count: Option<int>) {
    count.Some? && count.value > 0
  }

  function Min(a: nat, b: nat): nat {
    if a <= b then a else b
  }
}
