/** The route tester (gui-edit/src/components/routes/ApiTester.tsx): the
    editable header rows, the request they and the body make, and how the
    response status is coloured. The network call is an outcome given to the
    model. */
module ApiTesterModel {
  import opened Wrappers

  datatype Header = Header(key: string, value: string, enabled: bool)

  /** One call of `updateHeader(index, field, value)`: the field and the
      value it gets, of the type the field has. */
  datatype HeaderChange = SetKey(key: string) | SetValue(value: string) | SetEnabled(enabled: bool)

  function Apply(h: Header, change: HeaderChange): (r: Header)
    ensures change.SetKey? ==> r == h.(key := change.key)
    ensures change.SetValue? ==> r == h.(value := change.value)
    ensures change.SetEnabled? ==> r == h.(enabled := change.enabled)
  {
    match change
    case SetKey(k) => h.(key := k)
    case SetValue(v) => h.(value := v)
    case SetEnabled(e) => h.(enabled := e)
  }

  /** A row that goes into the request: enabled, with a key. */
  predicate Sends(h: Header) {
    h.enabled && h.key != ""
  }

  /** The `requestHeaders` record once `forEach` has visited every row:
      later rows overwrite earlier ones with the same key. */
  function HeaderMap(hs: seq<Header>): map<string, string> {
    if hs == [] then map[]
    else
      var m := HeaderMap(hs[..|hs| - 1]);
      var h := hs[|hs| - 1];
      if Sends(h) then m[h.key := h.value] else m
  }

  /** The keys of the request headers are exactly the keys of the rows that
      are sent. */
  lemma {:induction false} HeaderMapKeys(hs: seq<Header>)
    ensures forall k :: k in HeaderMap(hs) <==> exists i :: 0 <= i < |hs| && Sends(hs[i]) && hs[i].key == k
  {
    if hs != [] {
      var init := hs[..|hs| - 1];
      HeaderMapKeys(init);
      forall k ensures k in HeaderMap(hs) <==> exists i :: 0 <= i < |hs| && Sends(hs[i]) && hs[i].key == k {
        if exists i :: 0 <= i < |hs| && Sends(hs[i]) && hs[i].key == k {
          var i :| 0 <= i < |hs| && Sends(hs[i]) && hs[i].key == k;
          if i < |hs| - 1 {
            assert init[i] == hs[i];
          }
        }
        if k in HeaderMap(init) {
          var i :| 0 <= i < |init| && Sends(init[i]) && init[i].key == k;
          assert hs[i] == init[i];
        }
      }
    }
  }

  /** For a repeated key the last row sent wins. */
  lemma {:induction false} HeaderMapLastWins(hs: seq<Header>, i: int)
    requires 0 <= i < |hs| && Sends(hs[i])
    requires forall j :: i < j < |hs| ==> !(Sends(hs[j]) && hs[j].key == hs[i].key)
    ensures hs[i].key in HeaderMap(hs) && HeaderMap(hs)[hs[i].key] == hs[i].value
  {
    var init := hs[..|hs| - 1];
    if i < |hs| - 1 {
      assert init[i] == hs[i];
      forall j | i < j < |init| ensures !(Sends(init[j]) && init[j].key == init[i].key) {
        assert init[j] == hs[j];
      }
      HeaderMapLastWins(init, i);
    }
  }

  /** The `forEach` of `sendRequest`. */
  method RequestHeaders(headers: seq<Header>) returns (requestHeaders: map<string, string>)
    ensures requestHeaders == HeaderMap(headers)
  {
    requestHeaders := map[];
    var i := 0;
    while i < |headers|
      invariant 0 <= i <= |headers|
      invariant requestHeaders == HeaderMap(headers[..i])
    {
      assert headers[..i + 1][..i] == headers[..i];
      var h := headers[i];
      if h.enabled && h.key != "" {
        requestHeaders := requestHeaders[h.key := h.value];
      }
      i := i + 1;
    }
    assert headers[..i] == headers;
  }

  /** The body is sent for a method other than GET and HEAD when it is not
      empty. */
  function RequestBody(httpMethod: string, body: string): (r: Option<string>)
    ensures r.Some? <==> httpMethod != "GET" && httpMethod != "HEAD" && body != ""
    ensures r.Some? ==> r.value == body
  {
    if httpMethod != "GET" && httpMethod != "HEAD" && body != "" then Some(body) else None
  }

  /** The colour of the status: green for 2xx, red from 400 on, yellow for
      everything else. */
  function StatusColor(status: int): (r: string)
    ensures r == "text-green-500" <==> 200 <= status < 300
    ensures r == "text-red-500" <==> status >= 400
    ensures r == "text-yellow-500" <==> status < 200 || 300 <= status < 400
  {
    if status >= 200 && status < 300 then "text-green-500"
    else if status >= 400 then "text-red-500"
    else "text-yellow-500"
  }

  /** What `fetch` is asked to do. */
  datatype Request = Request(httpMethod: string, url: string, headers: map<string, string>, body: Option<string>)

  datatype Response = Response(status: int, statusText: string, headers: map<string, string>, body: string, time: int)

  /** What the call did: a response with its headers, text and rounded
      elapsed milliseconds, or a throw (an `Error` with its message, or
      something else). */
  datatype FetchOutcome =
    | Responded(status: int, statusText: string, headers: map<string, string>, body: string, time: int)
    | Threw(message: Option<string>)

  class ApiTester {
    var httpMethod: string
    var url: string
    var headers: seq<Header>
    var body: string
    var response: Option<Response>
    var isLoading: bool
    var error: Option<string>

    constructor()
      ensures httpMethod == "GET" && url == "http://localhost:8000/" && body == ""
      ensures headers == [Header("Content-Type", "application/json", true)]
      ensures response == None && !isLoading && error == None
    {
      httpMethod, url, body := "GET", "http://localhost:8000/", "";
      headers := [Header("Content-Type", "application/json", true)];
      response, isLoading, error := None, false, None;
    }

    /** `addHeader`: one enabled, empty row at the end. */
    method AddHeader()
      modifies this
      ensures headers == old(headers) + [Header("", "", true)]
      ensures httpMethod == old(httpMethod) && url == old(url) && body == old(body)
      ensures response == old(response) && isLoading == old(isLoading) && error == old(error)
    {
      headers := headers + [Header("", "", true)];
    }

    /** `removeHeader(index)`: exactly the row at the index goes; an index
        outside the rows changes nothing. */
    method RemoveHeader(index: int)
      modifies this
      ensures 0 <= index < |old(headers)| ==> headers == old(headers)[..index] + old(headers)[index + 1..]
      ensures !(0 <= index < |old(headers)|) ==> headers == old(headers)
      ensures httpMethod == old(httpMethod) && url == old(url) && body == old(body)
      ensures response == old(response) && isLoading == old(isLoading) && error == old(error)
    {
      if 0 <= index < |headers| {
        headers := headers[..index] + headers[index + 1..];
      }
    }

    /** `updateHeader(index, field, value)`: only that field of that row
        changes. */
    method UpdateHeader(index: int, change: HeaderChange)
      requires 0 <= index < |headers|
      modifies this
      ensures |headers| == |old(headers)|
      ensures headers[index] == Apply(old(headers)[index], change)
      ensures forall j :: 0 <= j < |headers| && j != index ==> headers[j] == old(headers)[j]
      ensures httpMethod == old(httpMethod) && url == old(url) && body == old(body)
      ensures response == old(response) && isLoading == old(isLoading) && error == old(error)
    {
      headers := headers[index := Apply(headers[index], change)];
    }

    method SetMethod(m: string)
      modifies this
      ensures httpMethod == m && url == old(url) && headers == old(headers) && body == old(body)
      ensures response == old(response) && isLoading == old(isLoading) && error == old(error)
    {
      httpMethod := m;
    }

    method SetUrl(u: string)
      modifies this
      ensures url == u && httpMethod == old(httpMethod) && headers == old(headers) && body == old(body)
      ensures response == old(response) && isLoading == old(isLoading) && error == old(error)
    {
      url := u;
    }

    method SetBody(b: string)
      modifies this
      ensures body == b && httpMethod == old(httpMethod) && url == old(url) && headers == old(headers)
      ensures response == old(response) && isLoading == old(isLoading) && error == old(error)
    {
      body := b;
    }

    /** `sendRequest`: the request carries the method, the URL, the headers
        that are sent and the body when it goes; the response, or the error
        when the call throws, replaces the previous one, and loading ends. */
    method SendRequest(outcome: FetchOutcome) returns (request: Request)
      requires !isLoading
      modifies this
      ensures request == Request(old(httpMethod), old(url), HeaderMap(old(headers)), RequestBody(old(httpMethod), old(body)))
      ensures outcome.Responded? ==>
        error == None && response == Some(Response(outcome.status, outcome.statusText, outcome.headers, outcome.body, outcome.time))
      ensures outcome.Threw? ==>
        response == None && error == Some(if outcome.message.Some? then outcome.message.value else "Request failed")
      ensures !isLoading
      ensures httpMethod == old(httpMethod) && url == old(url) && headers == old(headers) && body == old(body)
    {
      isLoading, error, response := true, None, None;
      var requestHeaders := RequestHeaders(headers);
      var requestBody: Option<string> := None;
      if httpMethod != "GET" && httpMethod != "HEAD" && body != "" {
        requestBody := Some(body);
      }
      request := Request(httpMethod, url, requestHeaders, requestBody);
      match outcome {
        case Responded(status, statusText, responseHeaders, text, time) =>
          response := Some(Response(status, statusText, responseHeaders, text, time));
        case Threw(message) =>
          error := Some(if message.Some? then message.value else "Request failed");
      }
      isLoading := false;
    }
  }
}
