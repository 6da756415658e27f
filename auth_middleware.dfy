/**
 * `authenticateToken`: which token a request presents, and what the
 * middleware does with it. JWT verification is a parameter that yields the
 * decoded `userId`, or `None` where `jwt.verify` throws.
 */
module AuthMiddleware {
  import opened Wrappers
  import opened Text
  import Http

  type UserId = int

  const BearerPrefix: string := "Bearer "
  const MissingMessage: string := "Access token missing relogin again"
  const InvalidMessage: string := "Invalid token"

  /** A JSON response the middleware sends. */
  datatype Response = Response(status: int, message: string)

  // ---------------------------------------------------------------------------
  // Token selection

  /** The text of `s` before the first `sep`, or all of `s`. */
  function UpTo(s: string, sep: char): (r: string)
    ensures r <= s && sep !in r
    ensures |r| < |s| ==> s[|r|] == sep
    decreases |s|
  {
    if s == [] || s[0] == sep then [] else [s[0]] + UpTo(s[1..], sep)
  }

  /** `s.split(sep)`: the maximal pieces between separators, empty ones included. */
  function Split(s: string, sep: char): (parts: seq<string>)
    ensures |parts| >= 1
    ensures forall i :: 0 <= i < |parts| ==> sep !in parts[i]
    decreases |s|
  {
    var head := UpTo(s, sep);
    if |head| == |s| then [s] else [head] + Split(s[|head| + 1..], sep)
  }

  /** `parts.join(sep)`. */
  function Join(parts: seq<string>, sep: char): string
    requires |parts| >= 1
  {
    if |parts| == 1 then parts[0] else parts[0] + [sep] + Join(parts[1..], sep)
  }

  /** Joining the pieces of a split with the separator gives back the text. */
  lemma {:induction false} JoinSplit(s: string, sep: char)
    ensures Join(Split(s, sep), sep) == s
    decreases |s|
  {
    var head := UpTo(s, sep);
    if |head| < |s| {
      var rest := s[|head| + 1..];
      JoinSplit(rest, sep);
      assert Split(s, sep) == [head] + Split(rest, sep);
      assert s == head + [sep] + rest;
    }
  }

  /** A piece without the separator, then the separator, is the first piece. */
  lemma {:induction false} UpToBeforeSeparator(a: string, sep: char, b: string)
    requires sep !in a
    ensures UpTo(a + [sep] + b, sep) == a
    decreases |a|
  {
    if a != [] {
      assert (a + [sep] + b)[1..] == a[1..] + [sep] + b;
      UpToBeforeSeparator(a[1..], sep, b);
    }
  }

  /** After `"Bearer "`, the second piece of the split is the text up to the next space. */
  lemma SecondPieceAfterBearer(h: string)
    requires StartsWith(h, BearerPrefix)
    ensures |Split(h, ' ')| >= 2 && Split(h, ' ')[1] == UpTo(h[|BearerPrefix|..], ' ')
  {
    var rest := h[|BearerPrefix|..];
    assert h == "Bearer" + [' '] + rest;
    UpToBeforeSeparator("Bearer", ' ', rest);
    assert h[|"Bearer"| + 1..] == rest;
  }

  /** `authorization.split(' ')[1]` for a header that starts with `"Bearer "`. */
  function BearerToken(h: string): (t: string)
    requires StartsWith(h, BearerPrefix)
    ensures t == UpTo(h[|BearerPrefix|..], ' ')
  {
    SecondPieceAfterBearer(h);
    Split(h, ' ')[1]
  }

  /** `req.cookies.token || (authorization && authorization.startsWith('Bearer ') ? ... : null)`. */
  function SelectToken(cookie: Option<string>, authorization: Option<string>): (r: Option<string>)
    ensures r.None? <==> !Http.Given(cookie) && !(authorization.Some? && StartsWith(authorization.value, BearerPrefix))
    ensures r.Some? && !Http.Given(cookie) ==> (
      authorization.Some? && StartsWith(authorization.value, BearerPrefix)
      && r.value <= authorization.value[|BearerPrefix|..] && ' ' !in r.value)
  {
    if Http.Given(cookie) then cookie
    else if Http.Given(authorization) && StartsWith(authorization.value, BearerPrefix) then Some(BearerToken(authorization.value))
    else None
  }

  /** A non-empty cookie token wins over any header. */
  lemma CookieWins(cookie: Option<string>, authorization: Option<string>)
    ensures Http.Given(cookie) ==> SelectToken(cookie, authorization) == cookie
    ensures !Http.Given(cookie) ==> SelectToken(cookie, authorization) == SelectToken(None, authorization)
  {
  }

  /**
   * Without a cookie token, a header is used only when it starts with
   * `"Bearer "`, and the token is the word after it, which holds no space.
   */
  lemma HeaderNeedsBearer(authorization: Option<string>)
    ensures SelectToken(None, authorization).Some?
        <==> authorization.Some? && StartsWith(authorization.value, BearerPrefix)
    ensures SelectToken(None, authorization).Some? ==> (
      var t := SelectToken(None, authorization).value;
      t <= authorization.value[|BearerPrefix|..] && ' ' !in t
      && (|t| < |authorization.value| - |BearerPrefix| ==> authorization.value[|BearerPrefix| + |t|] == ' '))
  {
  }

  // ---------------------------------------------------------------------------
  // The middleware

  /** The user a request is let through as: a present token that verifies. */
  function Admitted(cookie: Option<string>, authorization: Option<string>, verify: string -> Option<UserId>): (r: Option<UserId>)
    ensures Http.Given(cookie) ==> r == verify(cookie.value)
    ensures !Http.Given(cookie) && !(authorization.Some? && StartsWith(authorization.value, BearerPrefix)) ==> r.None?
  {
    var token := SelectToken(cookie, authorization);
    if Http.Given(token) then verify(token.value) else None
  }

  /**
   * What the handler as written tries to send: a missing token is answered
   * with 401 but the handler does not return, so `jwt.verify` runs on it,
   * throws, and the catch block tries to answer 403 as well.
   */
  function Attempts(cookie: Option<string>, authorization: Option<string>, verify: string -> Option<UserId>): (r: seq<Response>)
    ensures r == [] <==> Admitted(cookie, authorization, verify).Some?
    ensures |r| <= 2 && (|r| == 2 ==> r[0].status == Http.Unauthorized && r[1].status == Http.Forbidden)
    ensures forall i :: 0 <= i < |r| ==> r[i].status == Http.Unauthorized || r[i].status == Http.Forbidden
  {
    var token := SelectToken(cookie, authorization);
    (if Http.Given(token) then [] else [Response(Http.Unauthorized, MissingMessage)])
    + (if Admitted(cookie, authorization, verify).Some? then [] else [Response(Http.Forbidden, InvalidMessage)])
  }

  /**
   * What becomes of a `res.status(..).json(..)` call: the first one is sent;
   * once the headers are out, the next one throws `ERR_HTTP_HEADERS_SENT`,
   * which leaves the handler for Express's error handler.
   */
  datatype Outcome = Sent(response: Response) | HeadersSentError(attempted: Response)

  /** Express's treatment of successive answers to one request. */
  function Deliver(attempts: seq<Response>): (r: seq<Outcome>)
    ensures |r| == if |attempts| < 2 then |attempts| else 2
    ensures r != [] ==> r[0] == Sent(attempts[0])
    ensures forall i :: 1 <= i < |r| ==> r[i] == HeadersSentError(attempts[i])
  {
    if attempts == [] then []
    else if |attempts| == 1 then [Sent(attempts[0])]
    else [Sent(attempts[0]), HeadersSentError(attempts[1])]
  }

  /** The responses that reach the client. */
  function Received(outcomes: seq<Outcome>): seq<Response> {
    if outcomes == [] then []
    else (if outcomes[0].Sent? then [outcomes[0].response] else []) + Received(outcomes[1..])
  }

  /** Whether the middleware ends by throwing. */
  predicate Throws(outcomes: seq<Outcome>) {
    exists i :: 0 <= i < |outcomes| && outcomes[i].HeadersSentError?
  }

  /** The outcomes of the handler as written. */
  function Outcomes(cookie: Option<string>, authorization: Option<string>, verify: string -> Option<UserId>): seq<Outcome> {
    Deliver(Attempts(cookie, authorization, verify))
  }

  /** The responses sent when the missing-token branch returns. */
  function ResponsesReturning(cookie: Option<string>, authorization: Option<string>, verify: string -> Option<UserId>): seq<Response> {
    var token := SelectToken(cookie, authorization);
    if !Http.Given(token) then [Response(Http.Unauthorized, MissingMessage)]
    else if verify(token.value).None? then [Response(Http.Forbidden, InvalidMessage)]
    else []
  }

  /**
   * A request without any token is answered 401; the handler then attempts a
   * 403 on the same response, which throws. With the return in place only the
   * 401 is attempted.
   */
  lemma MissingTokenAttemptsTwice(verify: string -> Option<UserId>)
    ensures Attempts(None, None, verify) == [Response(Http.Unauthorized, MissingMessage), Response(Http.Forbidden, InvalidMessage)]
    ensures Outcomes(None, None, verify)
         == [Sent(Response(Http.Unauthorized, MissingMessage)), HeadersSentError(Response(Http.Forbidden, InvalidMessage))]
    ensures Received(Outcomes(None, None, verify)) == [Response(Http.Unauthorized, MissingMessage)]
    ensures ResponsesReturning(None, None, verify) == [Response(Http.Unauthorized, MissingMessage)]
  {
    var o := Outcomes(None, None, verify);
    assert Received(o) == [o[0].response] + Received(o[1..]);
    assert Received(o[1..]) == [] + Received(o[2..]);
  }

  /**
   * With the return in place every request gets exactly one outcome: one
   * response, or being passed on; a request without a token gets 401, a
   * token that does not verify 403. The handler as written shows the client
   * the same responses, and differs in throwing exactly when no token is
   * presented.
   */
  lemma ReturningAnswersOnce(cookie: Option<string>, authorization: Option<string>, verify: string -> Option<UserId>)
    ensures |ResponsesReturning(cookie, authorization, verify)| == (if Admitted(cookie, authorization, verify).Some? then 0 else 1)
    ensures ResponsesReturning(cookie, authorization, verify) == [Response(Http.Unauthorized, MissingMessage)]
        <==> !Http.Given(SelectToken(cookie, authorization))
    ensures Received(Outcomes(cookie, authorization, verify)) == ResponsesReturning(cookie, authorization, verify)
    ensures Throws(Outcomes(cookie, authorization, verify)) <==> !Http.Given(SelectToken(cookie, authorization))
  {
    var o := Outcomes(cookie, authorization, verify);
    if o != [] {
      assert Received(o) == [o[0].response] + Received(o[1..]);
      if |o| == 2 {
        assert Received(o[1..]) == [] + Received(o[2..]);
        assert o[1].HeadersSentError?;
      } else {
        assert Received(o[1..]) == [];
      }
    }
  }

  /** The parts of an Express request the middleware reads and writes. */
  class Request {
    const cookieToken: Option<string>
    const authorization: Option<string>
    var userId: Option<UserId>

    constructor (cookieToken: Option<string>, authorization: Option<string>)
      ensures this.cookieToken == cookieToken && this.authorization == authorization && userId == None
    {
      this.cookieToken := cookieToken;
      this.authorization := authorization;
      userId := None;
    }

    /**
     * `authenticateToken` as written. A verified token sets `userId` and calls
     * `next`; every other request meets the outcomes `Outcomes` lists.
     */
    method AuthenticateToken(verify: string -> Option<UserId>) returns (sent: seq<Outcome>, nextCalled: bool)
      modifies this
      ensures sent == Outcomes(cookieToken, authorization, verify)
      ensures nextCalled <==> Admitted(cookieToken, authorization, verify).Some?
      ensures userId == if nextCalled then Admitted(cookieToken, authorization, verify) else old(userId)
    {
      var token := SelectToken(cookieToken, authorization);
      sent := [];
      nextCalled := false;
      var headersSent := false;
      if !Http.Given(token) {
        sent := sent + [Sent(Response(Http.Unauthorized, MissingMessage))];
        headersSent := true;
      }
      var decoded := if Http.Given(token) then verify(token.value) else None;
      if decoded.Some? {
        userId := decoded;
        nextCalled := true;
      } else {
        var reply := Response(Http.Forbidden, InvalidMessage);
        sent := sent + [if headersSent then HeadersSentError(reply) else Sent(reply)];
      }
    }

    /** `authenticateToken` with the missing-token branch returning. */
    method AuthenticateTokenReturning(verify: string -> Option<UserId>) returns (sent: seq<Response>, nextCalled: bool)
      modifies this
      ensures sent == ResponsesReturning(cookieToken, authorization, verify)
      ensures nextCalled <==> Admitted(cookieToken, authorization, verify).Some?
      ensures userId == if nextCalled then Admitted(cookieToken, authorization, verify) else old(userId)
    {
      var token := SelectToken(cookieToken, authorization);
      if !Http.Given(token) {
        return [Response(Http.Unauthorized, MissingMessage)], false;
      }
      var decoded := verify(token.value);
      if decoded.None? {
        return [Response(Http.Forbidden, InvalidMessage)], false;
      }
      userId := decoded;
      sent, nextCalled := [], true;
    }
  }
}
