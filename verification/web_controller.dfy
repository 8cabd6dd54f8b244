/**
 * The web controller's redirect: validate the destination, resolve it to an
 * absolute URL, undo the URL builder's `&amp;` escaping, optionally log, then
 * reset the response, set its status, a `Location` header where it belongs,
 * a meta-refresh body, and send it.
 */
module WebController {
  import opened Escaping
  import opened MetaRefresh
  import opened Http

  /**
   * A redirect destination as PHP may pass it: an internal URI, an array of
   * route parameters, or any other scalar (which only matters to `empty()`).
   */
  datatype Dest =
    | Null
    | Flag(flag: bool)
    | Number(n: int)
    | Uri(uri: string)
    | Params(params: map<string, string>)

  /** PHP `empty($url)`: null, false, 0, "", "0" and the empty array. */
  predicate IsEmptyDest(d: Dest)
  {
    match d
    case Null => true
    case Flag(b) => !b
    case Number(n) => n == 0
    case Uri(u) => u == "" || u == "0"
    case Params(p) => p == map[]
  }

  /** `empty()` is wider than "null or an empty string": it also rejects "0" and an empty array. */
  lemma EmptyDestinations()
    ensures IsEmptyDest(Null) && IsEmptyDest(Uri("")) && IsEmptyDest(Uri("0")) && IsEmptyDest(Params(map[]))
    ensures !IsEmptyDest(Uri("00")) && !IsEmptyDest(Uri(" ")) && !IsEmptyDest(Uri("/"))
  {
  }

  /** The result of a redirect: done, or the InvalidArgumentException it throws. */
  datatype Outcome = Done | InvalidArgument(message: string)

  const EmptyUrlMessage: string := "Cannot redirect to an empty URL."

  /** Whether a status code carries a `Location` header: 201 and the 3xx codes. */
  predicate CarriesLocation(code: int)
  {
    code == 201 || (300 <= code < 400)
  }

  /** The headers a redirect leaves on the response. */
  function RedirectHeaders(code: int, url: string): (h: map<string, string>)
    ensures h.Keys <= {"Location"}
    ensures "Location" in h <==> CarriesLocation(code)
    ensures "Location" in h ==> h["Location"] == url
  {
    if CarriesLocation(code) then map["Location" := url] else map[]
  }

  /** The `Location` header call a redirect makes, if the status code carries one. */
  function LocationCalls(code: int, url: string): seq<Call>
  {
    if CarriesLocation(code) then [HeaderSet("Location", url)] else []
  }

  /** The calls a redirect makes on the response, in order. */
  function RedirectCalls(code: int, url: string, content: string): (calls: seq<Call>)
    ensures 4 <= |calls| && calls[0] == HeadersCleared && calls[|calls| - 1] == Sent
    ensures Sent !in calls[..|calls| - 1]
  {
    [HeadersCleared, StatusSet(code)] + LocationCalls(code, url) + [ContentSet(content), Sent]
  }

  /**
   * Whatever the response held before, the redirect's calls leave exactly the
   * status, the headers and the body of the redirect, and a sent response.
   */
  lemma ReplayRedirectCalls(s: State, code: int, url: string, content: string)
    ensures Replay(s, RedirectCalls(code, url, content))
         == State(code, RedirectHeaders(code, url), content, true)
  {
    var s1 := Apply(Apply(s, HeadersCleared), StatusSet(code));
    var tail := [ContentSet(content), Sent];
    var s2 := if CarriesLocation(code) then Apply(s1, HeaderSet("Location", url)) else s1;
    ReplayStep(s, HeadersCleared, [StatusSet(code)] + LocationCalls(code, url) + tail);
    ReplayStep(Apply(s, HeadersCleared), StatusSet(code), LocationCalls(code, url) + tail);
    if CarriesLocation(code) {
      ReplayStep(s1, HeaderSet("Location", url), tail);
    }
    assert RedirectCalls(code, url, content) == [HeadersCleared] + ([StatusSet(code)] + LocationCalls(code, url) + tail);
    ReplayStep(s2, ContentSet(content), [Sent]);
    ReplayStep(Apply(s2, ContentSet(content)), Sent, []);
  }

  /** The message logged for a redirect: `Redirect to "<url>"`. */
  function LogMessage(url: string): string
  {
    "Redirect to \"" + url + "\""
  }

  class Controller {
    /** The response of the current request. */
    const response: Response
    /** The dispatcher that receives log events. */
    const dispatcher: Dispatcher
    /** The URL builder behind `genUrl(parameters, absolute)`. */
    const genUrl: (Dest, bool) -> string
    /** The `sf_logging_enabled` setting. */
    const loggingEnabled: bool

    constructor (response: Response, dispatcher: Dispatcher, genUrl: (Dest, bool) -> string, loggingEnabled: bool)
      ensures this.response == response && this.dispatcher == dispatcher
      ensures this.genUrl == genUrl && this.loggingEnabled == loggingEnabled
    {
      this.response := response;
      this.dispatcher := dispatcher;
      this.genUrl := genUrl;
      this.loggingEnabled := loggingEnabled;
    }

    /** The absolute URL of a destination, with the builder's `&amp;` collapsed to `&`. */
    function TargetUrl(dest: Dest): (url: string)
      ensures |url| <= |genUrl(dest, true)|
    {
      ReplaceAmp(genUrl(dest, true))
    }

    method Redirect(dest: Dest, delay: int := 0, statusCode: int := 302) returns (outcome: Outcome)
      modifies response, dispatcher
      ensures outcome.InvalidArgument? <==> IsEmptyDest(dest)
      ensures outcome.InvalidArgument? ==>
        outcome.message == EmptyUrlMessage && unchanged(response) && unchanged(dispatcher)
      ensures outcome.Done? ==>
        var url := TargetUrl(dest);
        var content := Page(delay, url);
        response.Snapshot() == State(statusCode, RedirectHeaders(statusCode, url), content, true) &&
        response.calls == old(response.calls) + RedirectCalls(statusCode, url, content) &&
        dispatcher.log == old(dispatcher.log) + (if loggingEnabled then [LogMessage(url)] else [])
    {
      if IsEmptyDest(dest) {
        return InvalidArgument(EmptyUrlMessage);
      }

      var url := genUrl(dest, true);
      url := ReplaceAmp(url);

      if loggingEnabled {
        dispatcher.Notify(LogMessage(url));
      }

      ghost var start := response.calls;
      response.ClearHttpHeaders();
      response.SetStatusCode(statusCode);
      ghost var calls := [HeadersCleared, StatusSet(statusCode)];
      assert response.calls == start + calls;
      if CarriesLocation(statusCode) {
        response.SetHttpHeader("Location", url);
      }
      calls := calls + LocationCalls(statusCode, url);
      assert response.calls == start + calls;
      var content := Page(delay, url);
      response.SetContent(content);
      response.Send();
      calls := calls + [ContentSet(content), Sent];
      assert response.calls == start + calls;
      outcome := Done;
    }
  }
}
