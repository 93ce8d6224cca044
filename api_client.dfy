/** The browser side of the API: the axios instance with its request
    interceptor (the `Authorization: Bearer` header of section 2.1 of
    RFC 6750, from `localStorage`) and its response interceptor (one
    refresh and one replay after a 401), plus the error detail the pages
    store and the text they can render from it.

    The network is a parameter: each exchange is given as the `Reply` the
    server sends, and the refresh call as the access token it returns
    (None when it fails). A call the client puts on the wire is appended to
    `Client.calls`, in order. */
module ApiClient {
  import opened Wrappers

  const AccessTokenKey := "access_token"
  const RefreshTokenKey := "refresh_token"
  const LoginPath := "/login"

  /** `localStorage.getItem(k)` taken as a JavaScript condition: present
      and not the empty string. */
  function Stored(storage: map<string, string>, k: string): (r: Option<string>)
    ensures r.Some? <==> k in storage && storage[k] != ""
    ensures r.Some? ==> r.value == storage[k]
  {
    if k in storage && storage[k] != "" then Some(storage[k]) else None
  }

  /** The credentials of a bearer header (section 2.1 of RFC 6750). */
  function BearerHeader(token: string): (h: string)
    ensures |h| == 7 + |token| && h[..7] == "Bearer " && h[7..] == token
  {
    "Bearer " + token
  }

  /** What came back for one request: an HTTP status, or no response at
      all (a network error). */
  datatype Reply = Response(status: nat) | NoResponse {
    /** axios resolves 2xx answers and rejects everything else. */
    predicate Succeeded() {
      Response? && 200 <= status < 300
    }
  }

  /** A request on the wire: an API call with its `Authorization` header,
      or a refresh POST made with bare `axios` (no interceptors). */
  datatype Call = ApiCall(path: string, authorization: Option<string>) | RefreshCall(refreshToken: string)

  /** How the response interceptor ends: the request is replayed through
      the instance, or its promise is rejected with `reply`. */
  datatype Verdict = Replay | Reject(reply: Reply)

  /** What the caller of the instance finally sees. */
  datatype Outcome = Resolved(reply: Reply) | Rejected(reply: Reply)

  /** An axios request config: its one modelled header and `_retry`. */
  class RequestConfig {
    var path: string
    var authorization: Option<string>
    var retry: bool

    constructor (path: string)
      ensures this.path == path && authorization.None? && !retry
    {
      this.path := path;
      authorization := None;
      retry := false;
    }
  }

  /** The page's `localStorage`, its location and the calls it made. */
  class Client {
    var storage: map<string, string>
    var location: string
    var calls: seq<Call>

    constructor (storage: map<string, string>, location: string)
      ensures this.storage == storage && this.location == location && calls == []
    {
      this.storage := storage;
      this.location := location;
      calls := [];
    }

    /** The request interceptor: sets the bearer header exactly when an
        access token is stored, and otherwise leaves the header alone. */
    method AttachToken(config: RequestConfig)
      modifies config
      ensures config.path == old(config.path) && config.retry == old(config.retry)
      ensures Stored(storage, AccessTokenKey).Some? ==>
                config.authorization == Some(BearerHeader(Stored(storage, AccessTokenKey).value))
      ensures Stored(storage, AccessTokenKey).None? ==> config.authorization == old(config.authorization)
    {
      var token := Stored(storage, AccessTokenKey);
      if token.Some? {
        config.authorization := Some(BearerHeader(token.value));
      }
    }

    /** The error half of the response interceptor. The first 401 of a
        request marks it `_retry` before anything else; with a refresh
        token stored it posts one refresh: on success only the access token
        is replaced (the refresh token is kept) and the request is replayed,
        on failure both tokens go and the page is sent to the login path.
        Every other failure is handed back as it came. */
    method OnError(config: RequestConfig, reply: Reply, refreshed: Option<string>) returns (v: Verdict)
      requires !reply.Succeeded()
      modifies this, config
      ensures config.path == old(config.path)
      ensures var rt := Stored(old(storage), RefreshTokenKey);
        && (!(reply == Response(401) && !old(config.retry)) ==>
              v == Reject(reply) && storage == old(storage) && location == old(location) && calls == old(calls)
              && config.retry == old(config.retry) && config.authorization == old(config.authorization))
        && (reply == Response(401) && !old(config.retry) ==> config.retry)
        && (reply == Response(401) && !old(config.retry) && rt.None? ==>
              v == Reject(reply) && storage == old(storage) && location == old(location) && calls == old(calls)
              && config.authorization == old(config.authorization))
        && (reply == Response(401) && !old(config.retry) && rt.Some? ==>
              calls == old(calls) + [RefreshCall(rt.value)])
        && (reply == Response(401) && !old(config.retry) && rt.Some? && refreshed.Some? ==>
              v == Replay && storage == old(storage)[AccessTokenKey := refreshed.value] && location == old(location)
              && config.authorization == Some(BearerHeader(refreshed.value)))
        && (reply == Response(401) && !old(config.retry) && rt.Some? && refreshed.None? ==>
              v == Reject(reply) && storage == old(storage) - {AccessTokenKey, RefreshTokenKey} && location == LoginPath
              && config.authorization == old(config.authorization))
    {
      if reply == Response(401) && !config.retry {
        config.retry := true;
        var rt := Stored(storage, RefreshTokenKey);
        if rt.Some? {
          calls := calls + [RefreshCall(rt.value)];
          if refreshed.Some? {
            storage := storage[AccessTokenKey := refreshed.value];
            config.authorization := Some(BearerHeader(refreshed.value));
            return Replay;
          }
          storage := storage - {AccessTokenKey, RefreshTokenKey};
          location := LoginPath;
        }
      }
      v := Reject(reply);
    }

    /** One request through the instance: the request interceptor, the
        first answer `first`; after a refresh, the replay (through the
        request interceptor again) and its answer `second`. A request is
        sent at most twice and causes at most one refresh. */
    method Request(path: string, first: Reply, refreshed: Option<string>, second: Reply) returns (o: Outcome)
      modifies this
      ensures var at := Stored(old(storage), AccessTokenKey);
              var rt := Stored(old(storage), RefreshTokenKey);
              var firstCall := ApiCall(path, if at.Some? then Some(BearerHeader(at.value)) else None);
        && (first.Succeeded() ==>
              o == Resolved(first) && calls == old(calls) + [firstCall]
              && storage == old(storage) && location == old(location))
        && (!first.Succeeded() && (first != Response(401) || rt.None?) ==>
              o == Rejected(first) && calls == old(calls) + [firstCall]
              && storage == old(storage) && location == old(location))
        && (first == Response(401) && rt.Some? && refreshed.None? ==>
              o == Rejected(first) && calls == old(calls) + [firstCall, RefreshCall(rt.value)]
              && storage == old(storage) - {AccessTokenKey, RefreshTokenKey} && location == LoginPath)
        && (first == Response(401) && rt.Some? && refreshed.Some? ==>
              && o == (if second.Succeeded() then Resolved(second) else Rejected(second))
              && calls == old(calls) + [firstCall, RefreshCall(rt.value), ApiCall(path, Some(BearerHeader(refreshed.value)))]
              && storage == old(storage)[AccessTokenKey := refreshed.value] && location == old(location))
    {
      var config := new RequestConfig(path);
      AttachToken(config);
      calls := calls + [ApiCall(path, config.authorization)];
      if first.Succeeded() {
        return Resolved(first);
      }
      var v := OnError(config, first, refreshed);
      if v.Reject? {
        return Rejected(v.reply);
      }
      AttachToken(config);
      calls := calls + [ApiCall(path, config.authorization)];
      if second.Succeeded() {
        return Resolved(second);
      }
      v := OnError(config, second, refreshed);
      assert v == Reject(second);
      o := Rejected(second);
    }
  }

  /** `err.response?.data?.detail`: a message, or the list of problems of
      a rejected request body or query (FastAPI's 422 objects, each
      represented by its text). */
  datatype Detail = Message(text: string) | Problems(items: seq<string>)

  /** Whether React can render the stored detail as `{error}`: a string
      is a valid child; a list of FastAPI's error objects is not, and the
      render throws (no error boundary catches it, so the page goes
      blank). */
  predicate Renderable(d: Detail) {
    d.Message?
  }

  /** `err.response?.data?.detail || fallback`: the server's detail when
      there is one that JavaScript takes as true (a non-empty message, or
      any list), else the page's own text. An uncaught exception's 500 has
      no JSON body and no CORS headers, so it has no detail either. */
  function ErrorShown(error: Option<HttpError>, fallback: string): (d: Detail)
    ensures error.None? ==> d == Message(fallback)
    ensures error == Some(Crash) ==> d == Message(fallback)
    ensures error.Some? && error.value.ValidationError? ==> d == Problems(error.value.errors)
    ensures error.Some? && error.value.HttpError? && error.value.detail != "" ==> d == Message(error.value.detail)
    ensures fallback != "" ==> d != Message("")
  {
    match error
    case None => Message(fallback)
    case Some(ValidationError(errors)) => Problems(errors)
    case Some(HttpError(_, detail)) => if detail != "" then Message(detail) else Message(fallback)
    case Some(Uncaught) => Message(fallback)
  }

  /** Any 422 stores a detail that cannot be rendered. */
  lemma ValidationErrorUnrenderable(errors: seq<string>, fallback: string)
    ensures !Renderable(ErrorShown(Some(ValidationError(errors)), fallback))
  {
  }

  /** The total length of the problems' texts. */
  function TextLength(items: seq<string>): nat {
    if items == [] then 0 else |items[0]| + TextLength(items[1..])
  }

  /** The problems' texts separated by "; ". */
  function JoinProblems(items: seq<string>): (r: string)
    ensures items != [] ==> items[0] <= r
    ensures items != [] ==> |r| == TextLength(items) + 2 * (|items| - 1)
    ensures items == [] ==> r == ""
  {
    if items == [] then ""
    else if |items| == 1 then items[0]
    else items[0] + "; " + JoinProblems(items[1..])
  }

  /** The error text a page can show: the stored detail when it is a
      message, and a list of problems joined into one message (the
      page's own text when that comes out empty). */
  function ErrorText(error: Option<HttpError>, fallback: string): (d: Detail)
    ensures Renderable(d)
    ensures ErrorShown(error, fallback).Message? ==> d == ErrorShown(error, fallback)
    ensures error.Some? && error.value.ValidationError? && JoinProblems(error.value.errors) != "" ==>
              d == Message(JoinProblems(error.value.errors))
    ensures fallback != "" ==> d != Message("")
  {
    match ErrorShown(error, fallback)
    case Message(text) => Message(text)
    case Problems(items) => if JoinProblems(items) != "" then Message(JoinProblems(items)) else Message(fallback)
  }

  /** The answer of one page call, after the interceptors: a value, or the
      error the server answered with (None for no response). */
  datatype CallResult<T> = Answered(value: T) | Failed(error: Option<HttpError>)

  /** The query of `PATCH /resume/{id}/visibility`. */
  datatype VisibilityRequest = VisibilityRequest(resumeId: nat, isPublic: Option<bool>)

  /** `resumeAPI.toggleVisibility(id)` as written: no `is_public` at all. */
  function ToggleVisibilityAsWritten(resumeId: nat): (q: VisibilityRequest)
    ensures q.resumeId == resumeId && q.isPublic.None?
  {
    VisibilityRequest(resumeId, None)
  }

  /** A toggle that says what it wants: the opposite of the shown state. */
  function ToggleVisibility(resumeId: nat, shownPublic: bool): (q: VisibilityRequest)
    ensures q.resumeId == resumeId && q.isPublic == Some(!shownPublic)
  {
    VisibilityRequest(resumeId, Some(!shownPublic))
  }
}
