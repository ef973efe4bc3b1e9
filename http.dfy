/**
 * The parts of an Express exchange the middleware and handlers look at:
 * the parsed JSON body, the `Authorization` header, `req.user`, and the
 * status and JSON body of the response.
 */
module Http {
  import opened Common
  import opened Users
  import opened Tokens

  /**
   * A JSON value as `express.json()` parses it, as far as the schemas can
   * tell values apart: strings, numbers, and everything else (`true`,
   * `false`, `null`, arrays, objects).
   */
  datatype Json = JString(text: string) | JNumber(number: real) | JOther

  type Member = (string, Json)

  predicate DistinctKeys(members: seq<Member>) {
    forall i, j :: 0 <= i < j < |members| ==> members[i].0 != members[j].0
  }

  /** A JSON object: its members in document order, each key once. */
  type Body = members: seq<Member> | DistinctKeys(members) witness []

  /** `body[key]`, or `None` when the key is absent (`undefined`). */
  function Lookup(body: seq<Member>, key: string): (v: Option<Json>)
    ensures v.Some? <==> exists i :: 0 <= i < |body| && body[i].0 == key
    ensures v.Some? ==> exists i :: 0 <= i < |body| && body[i] == (key, v.value)
  {
    if body == [] then None
    else if body[0].0 == key then Some(body[0].1)
    else
      var v := Lookup(body[1..], key);
      assert forall i :: 0 <= i < |body[1..]| ==> body[1..][i] == body[i + 1];
      v
  }

  datatype Verb = Get | Post | Put | Delete | OtherVerb(name: string)

  /**
   * An incoming request. Only `user` changes while the request travels
   * through the middleware: `authenticateToken` sets it.
   */
  class Request {
    const verb: Verb
    const path: seq<string>
    const authorization: Option<string>
    const body: Body
    var user: Option<Profile>

    constructor (verb: Verb, path: seq<string>, authorization: Option<string>, body: Body)
      ensures this.verb == verb && this.path == path && this.authorization == authorization
      ensures this.body == body && user == None
    {
      this.verb := verb;
      this.path := path;
      this.authorization := authorization;
      this.body := body;
      user := None;
    }
  }

  /** The JSON bodies the API sends. */
  datatype Payload =
    | Message(message: string)
    | Invalid(message: string, errors: seq<string>)
    | WithUser(message: string, user: Profile)
    | LoggedIn(message: string, user: Profile, tokens: TokenPair)
    | Refreshed(message: string, tokens: TokenPair)
    | UserList(users: seq<Profile>)
    | Record(user: Profile)
    | NoContent
    | CannotRoute

  datatype Response = Response(status: int, payload: Payload)

  /**
   * What a middleware or handler ends with: `next()`, a response written
   * with `res.status(..).json(..)`, or `next(error)`.
   */
  datatype Step = Continue | Respond(response: Response) | Raise(fault: Fault)

  /**
   * What the process reads from outside per request: the signing secrets,
   * the token decoder of the JWT library (`None` for a string that is not a
   * token), the clock in seconds, Joi's email grammar, the year the process
   * started in (the vehicle schema reads the year once, when it is built)
   * and the salt bcrypt draws.
   */
  datatype Env = Env(secrets: Secrets, decode: string -> Option<Token>, now: int,
                     isEmail: string -> bool, startYear: int, salt: nat)
}
