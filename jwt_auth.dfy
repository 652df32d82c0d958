/**
 * The WebSocket authentication middleware: the token is read from the
 * connection's query string and decoded; the user id it carries selects the
 * user. Token decoding and the user lookup are inputs.
 */
module JwtAuth {
  import opened Wrappers
  import opened Text

  /** What `__call__` leaves in `scope['user']`, or the exception it lets out. */
  datatype Outcome = AuthenticatedUser(id: int) | AnonymousUser | RaisesValueError

  /** A non-empty segment as `qp.split('=')` cuts it. */
  function Pieces(segment: string): seq<string> {
    Split(segment, '=')
  }

  /** `dict(...)` accepts a segment only when it splits into exactly two pieces. */
  predicate WellFormed(segment: string) {
    |Pieces(segment)| == 2
  }

  /** A segment splits in two exactly when it holds one '='. */
  lemma WellFormedIff(segment: string)
    ensures WellFormed(segment) <==> multiset(segment)['='] == 1
  {
    SplitCount(segment, '=');
  }

  /** `dict(qp.split('=') for qp in segments if qp)`: later keys override
      earlier ones; a malformed segment raises ValueError. */
  function Dict(segments: seq<string>): (r: Result<map<string, string>, string>)
  {
    if segments == [] then Success(map[])
    else
      var init, last := segments[..|segments| - 1], segments[|segments| - 1];
      match Dict(init)
      case Failure(e) => Failure(e)
      case Success(m) =>
        if last == [] then Success(m)
        else if !WellFormed(last) then Failure("ValueError")
        else Success(m[Pieces(last)[0] := Pieces(last)[1]])
  }

  /** Parsing fails exactly when some non-empty segment is malformed. */
  lemma {:induction false} DictFailsIff(segments: seq<string>)
    ensures Dict(segments).Failure? <==>
      exists i :: 0 <= i < |segments| && segments[i] != [] && !WellFormed(segments[i])
  {
    if segments != [] {
      var init := segments[..|segments| - 1];
      DictFailsIff(init);
      assert forall i :: 0 <= i < |init| ==> init[i] == segments[i];
    }
  }

  /** A successful parse saw only well-formed segments; a key maps to the value
      of the last segment that names it, and only keys some segment names are
      present. */
  lemma {:induction false} DictLastWins(segments: seq<string>, key: string)
    requires Dict(segments).Success?
    ensures forall i :: 0 <= i < |segments| && segments[i] != [] ==> WellFormed(segments[i])
    ensures key in Dict(segments).value <==>
      exists i :: 0 <= i < |segments| && segments[i] != [] && Pieces(segments[i])[0] == key
    ensures forall i :: 0 <= i < |segments| && segments[i] != [] && WellFormed(segments[i])
              && Pieces(segments[i])[0] == key
              && (forall j :: i < j < |segments| && segments[j] != [] ==> Pieces(segments[j])[0] != key)
              ==> key in Dict(segments).value && Dict(segments).value[key] == Pieces(segments[i])[1]
  {
    DictFailsIff(segments);
    if segments != [] {
      var init := segments[..|segments| - 1];
      DictLastWins(init, key);
      assert forall i :: 0 <= i < |init| ==> init[i] == segments[i];
    }
  }

  function QueryParams(queryString: string): Result<map<string, string>, string> {
    Dict(Split(queryString, '&'))
  }

  /** `query_params.get('token', '')`. */
  function Token(params: map<string, string>): (t: string)
    ensures "token" !in params ==> t == ""
    ensures "token" in params ==> t == params["token"]
  {
    if "token" in params then params["token"] else ""
  }

  /** `__call__`. `decode` stands for `jwt_decode`: None for InvalidTokenError,
      otherwise the payload's `user_id` if it has one; `userExists` stands for
      the user query. */
  function Authenticate(queryString: string, decode: string -> Option<Option<int>>, userExists: int -> bool): (r: Outcome)
    ensures QueryParams(queryString).Failure? <==> r == RaisesValueError
  {
    match QueryParams(queryString)
    case Failure(_) => RaisesValueError
    case Success(params) =>
      var decoded := decode(Token(params));
      if decoded.None? then AnonymousUser
      else if decoded.value.None? || decoded.value.value == 0 then AnonymousUser
      else if userExists(decoded.value.value) then AuthenticatedUser(decoded.value.value)
      else AnonymousUser
  }

  /** A user is attached only for a well-formed query whose token decodes to the
      id of an existing user; a malformed segment is not caught. */
  lemma AuthenticateOutcomes(queryString: string, decode: string -> Option<Option<int>>, userExists: int -> bool)
    ensures Authenticate(queryString, decode, userExists).AuthenticatedUser? <==>
      QueryParams(queryString).Success?
      && decode(Token(QueryParams(queryString).value)).Some?
      && decode(Token(QueryParams(queryString).value)).value.Some?
      && decode(Token(QueryParams(queryString).value)).value.value != 0
      && userExists(decode(Token(QueryParams(queryString).value)).value.value)
    ensures Authenticate(queryString, decode, userExists).AuthenticatedUser? ==>
      Authenticate(queryString, decode, userExists).id == decode(Token(QueryParams(queryString).value)).value.value
    ensures QueryParams(queryString).Success? && decode(Token(QueryParams(queryString).value)).None? ==>
      Authenticate(queryString, decode, userExists) == AnonymousUser
  {
  }
}
