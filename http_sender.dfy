/** HTTPSender: the outbound HTTP helper of the services, with a table of
    canned responses that replaces the network while mock mode is on.

    JSON is abstract: a value either has an encoding or cannot be encoded, and
    a decoding target accepts some set of JSON texts. The network round trip
    is the parameter `upstream`. */
module HttpSender {
  import opened Wrappers
  import opened Gin

  /** A Go value handed to json.Marshal: its JSON text, or no encoding (a
      channel, a function, a cyclic value). */
  datatype Data = Encodable(json: string) | Unencodable

  /** The pointer passed as `response`: json.Unmarshal into it succeeds for
      exactly the texts in `accepts`. */
  datatype Target = Target(accepts: iset<string>)

  /** MockResponse; its StatusCode is stored but never read. */
  datatype MockResponse = MockResponse(data: Option<Data>, statusCode: int, error: Option<string>)

  /** The errors SendRequest can return. `NilBodyPanic` is no error value but
      the run-time panic of the body-less real request as the code stands. */
  datatype Failure =
    | Mocked(message: string)
    | MarshalMockData
    | UnmarshalMockData
    | UnmarshalDefault
    | MarshalRequestBody
    | CreateRequest
    | SendFailed
    | BadStatus(code: int)
    | DecodeResponse
    | NilBodyPanic

  /** The request handed to the HTTP client. */
  datatype Outgoing = Outgoing(verb: string, url: string, body: Option<string>, jsonContentType: bool)

  /** What the network does with a request: NewRequestWithContext refuses it
      (a malformed method or URL), the client gets no response, or the
      upstream answers. */
  datatype Upstream = Rejected | Unreachable | Replied(status: int, body: string)

  /** The error returned (None for nil), the JSON text decoded into the target,
      and the request sent, if any. */
  datatype Outcome = Outcome(error: Option<Failure>, written: Option<string>, sent: Option<Outgoing>)

  /** The mock table's key, fmt.Sprintf("%s:%s", method, path). */
  function MockKey(verb: string, path: string): (k: string)
    ensures |k| == |verb| + 1 + |path|
    ensures k[..|verb|] == verb && k[|verb|] == ':' && k[|verb| + 1..] == path
  {
    verb + ":" + path
  }

  /** The JSON encoding of map[string]interface{}{"message": "default mock response"}. */
  const DefaultMockJson: string := "{\"message\":\"default mock response\"}"

  /** json.Unmarshal(text, target): the target receives the text, or an error. */
  function Unmarshal(text: string, target: Target, failure: Failure): (r: Outcome)
    ensures r.sent.None?
    ensures r.error.None? <==> text in target.accepts
    ensures r.error.None? ==> r.written == Some(text)
    ensures r.error.Some? ==> r == Outcome(Some(failure), None, None)
  {
    if text in target.accepts then Outcome(None, Some(text), None) else Outcome(Some(failure), None, None)
  }

  /** The mock branch of SendRequest for a key that is in the table. */
  function MockReply(m: MockResponse, target: Option<Target>): (r: Outcome)
    ensures r.sent.None?
    ensures m.error.Some? ==> r == Outcome(Some(Mocked(m.error.value)), None, None)
    ensures m.error.None? && (target.None? || m.data.None?) ==> r == Outcome(None, None, None)
    ensures m.error.None? && target.Some? && m.data == Some(Unencodable) ==> r == Outcome(Some(MarshalMockData), None, None)
    ensures m.error.None? && target.Some? && m.data.Some? && m.data.value.Encodable? ==>
      var text := m.data.value.json;
      r == if text in target.value.accepts then Outcome(None, Some(text), None) else Outcome(Some(UnmarshalMockData), None, None)
  {
    if m.error.Some? then Outcome(Some(Mocked(m.error.value)), None, None)
    else if target.Some? && m.data.Some? then
      match m.data.value
      case Unencodable => Outcome(Some(MarshalMockData), None, None)
      case Encodable(text) => Unmarshal(text, target.value, UnmarshalMockData)
    else Outcome(None, None, None)
  }

  /** The mock branch for a key that is not in the table. */
  function DefaultReply(target: Option<Target>): (r: Outcome)
    ensures r.sent.None?
    ensures target.None? ==> r == Outcome(None, None, None)
    ensures target.Some? ==>
      (r.error.None? <==> DefaultMockJson in target.value.accepts) &&
      (r.error.None? ==> r.written == Some(DefaultMockJson)) &&
      (r.error.Some? ==> r == Outcome(Some(UnmarshalDefault), None, None))
  {
    if target.None? then Outcome(None, None, None)
    else Unmarshal(DefaultMockJson, target.value, UnmarshalDefault)
  }

  /** The real path as the code stands. With no body, `reqBody` stays a nil
      *bytes.Buffer, which NewRequestWithContext receives as a non-nil
      io.Reader: once method and URL have been parsed it asks that buffer for
      its length, and the nil dereference panics before any request exists. */
  function RealReplyAsWritten(baseURL: string, verb: string, path: string, body: Option<Data>,
                              target: Option<Target>, upstream: Upstream): (r: Outcome)
    ensures body == Some(Unencodable) ==> r == Outcome(Some(MarshalRequestBody), None, None)
    ensures body.None? && !upstream.Rejected? ==> r == Outcome(Some(NilBodyPanic), None, None)
    ensures r.sent.Some? <==> body.Some? && body != Some(Unencodable) && !upstream.Rejected?
    ensures body.Some? ==> r == RealReply(baseURL, verb, path, body, target, upstream)
  {
    if body == Some(Unencodable) then Outcome(Some(MarshalRequestBody), None, None)
    else if upstream.Rejected? then Outcome(Some(CreateRequest), None, None)
    else if body.None? then Outcome(Some(NilBodyPanic), None, None)
    else RealReply(baseURL, verb, path, body, target, upstream)
  }

  /** The real path as intended, with an untyped nil reader when there is no
      body: the request goes to baseURL followed by the path, with a JSON body
      and its Content-Type only when there is a body; a status of 400 or more
      is an error, anything below is decoded into the target when there is
      one. */
  function RealReply(baseURL: string, verb: string, path: string, body: Option<Data>,
                     target: Option<Target>, upstream: Upstream): (r: Outcome)
    ensures body == Some(Unencodable) ==> r == Outcome(Some(MarshalRequestBody), None, None)
    ensures r.sent.Some? ==>
      && r.sent.value.url == baseURL + path && r.sent.value.verb == verb
      && r.sent.value.jsonContentType == body.Some?
      && (body.Some? ==> r.sent.value.body == Some(body.value.json))
    ensures r.sent.Some? <==> body != Some(Unencodable) && !upstream.Rejected?
    ensures r.sent.Some? && upstream.Replied? && upstream.status >= 400 ==>
      r.error == Some(BadStatus(upstream.status)) && r.written.None?
    ensures r.sent.Some? && upstream.Replied? && upstream.status < 400 ==>
      if target.None? then r.error.None? && r.written.None?
      else (r.error.None? <==> upstream.body in target.value.accepts) &&
           (r.error.None? ==> r.written == Some(upstream.body))
    ensures r.written.Some? ==> r.error.None?
  {
    if body == Some(Unencodable) then Outcome(Some(MarshalRequestBody), None, None)
    else
      var payload := if body.Some? then Some(body.value.json) else None;
      var req := Outgoing(verb, baseURL + path, payload, body.Some?);
      match upstream
      case Rejected => Outcome(Some(CreateRequest), None, None)
      case Unreachable => Outcome(Some(SendFailed), None, Some(req))
      case Replied(status, text) =>
        if status >= 400 then Outcome(Some(BadStatus(status)), None, Some(req))
        else if target.None? then Outcome(None, None, Some(req))
        else if text in target.value.accepts then Outcome(None, Some(text), Some(req))
        else Outcome(Some(DecodeResponse), None, Some(req))
  }

  class Sender {
    const baseURL: string
    var mockMode: bool
    var mockData: map<string, MockResponse>

    /** NewHTTPSender: mock mode off, an empty table. */
    constructor (baseURL: string)
      ensures this.baseURL == baseURL && !mockMode && mockData == map[]
    {
      this.baseURL := baseURL;
      mockMode := false;
      mockData := map[];
    }

    method EnableMockMode()
      modifies this
      ensures mockMode && mockData == old(mockData)
    {
      mockMode := true;
    }

    method DisableMockMode()
      modifies this
      ensures !mockMode && mockData == old(mockData)
    {
      mockMode := false;
    }

    /** Overwrites the entry for this method and path; every other entry stays. */
    method SetMockResponse(verb: string, path: string, response: MockResponse)
      modifies this
      ensures mockMode == old(mockMode)
      ensures mockData == old(mockData)[MockKey(verb, path) := response]
    {
      mockData := mockData[MockKey(verb, path) := response];
    }

    /** SendRequest, with the body-less real request corrected (see
        RealReplyAsWritten). It changes nothing in the sender; what it writes
        into the caller's target is the `written` part of the result. */
    method SendRequest(verb: string, path: string, body: Option<Data>, target: Option<Target>, upstream: Upstream)
      returns (r: Outcome)
      ensures r == Send(mockMode, mockData, baseURL, verb, path, body, target, upstream)
    {
      r := Send(mockMode, mockData, baseURL, verb, path, body, target, upstream);
    }
  }

  /** SendRequest for a sender in the given state. In mock mode nothing is
      sent and the network is never consulted. */
  function Send(mockMode: bool, mockData: map<string, MockResponse>, baseURL: string,
                verb: string, path: string, body: Option<Data>, target: Option<Target>, upstream: Upstream): (r: Outcome)
    ensures mockMode ==> r.sent.None?
  {
    if mockMode then
      var key := MockKey(verb, path);
      if key in mockData then MockReply(mockData[key], target) else DefaultReply(target)
    else RealReply(baseURL, verb, path, body, target, upstream)
  }

  /** In mock mode the request body and the network play no part. */
  lemma MockIgnoresNetwork(table: map<string, MockResponse>, baseURL: string, verb: string, path: string,
                           body: Option<Data>, body': Option<Data>, target: Option<Target>, u: Upstream, u': Upstream)
    ensures Send(true, table, baseURL, verb, path, body, target, u) == Send(true, table, baseURL, verb, path, body', target, u')
  {
  }

  /** Keys of the mock table tell method and path apart, since an HTTP method
      never holds ':'. */
  lemma MockKeyInjective(v1: string, p1: string, v2: string, p2: string)
    requires ':' !in v1 && ':' !in v2
    ensures MockKey(v1, p1) == MockKey(v2, p2) <==> v1 == v2 && p1 == p2
  {
    if MockKey(v1, p1) == MockKey(v2, p2) {
      var k := MockKey(v1, p1);
      ColonAt(v1, p1);
      ColonAt(v2, p2);
      assert |v1| == FirstIndex(k, ':') == |v2|;
      assert v1 == k[..|v1|] == v2;
      assert p1 == k[|v1| + 1..] == p2;
    }
  }

  lemma ColonAt(v: string, p: string)
    requires ':' !in v
    ensures FirstIndex(MockKey(v, p), ':') == |v|
    ensures MockKey(v, p)[..|v|] == v && MockKey(v, p)[|v| + 1..] == p
  {
    assert MockKey(v, p) == v + (":" + p);
    FirstIndexAfter(v, ":" + p, ':');
  }

  /** Once a response is set for a method and path, a mock-mode request for
      that method and path gets it, and requests for other methods and paths
      get what they got before. */
  lemma SetThenSend(table: map<string, MockResponse>, baseURL: string, verb: string, path: string,
                    m: MockResponse, verb': string, path': string, body: Option<Data>,
                    target: Option<Target>, upstream: Upstream)
    requires ':' !in verb && ':' !in verb'
    ensures Send(true, table[MockKey(verb, path) := m], baseURL, verb, path, body, target, upstream)
            == MockReply(m, target)
    ensures (verb', path') != (verb, path) ==>
      Send(true, table[MockKey(verb, path) := m], baseURL, verb', path', body, target, upstream)
      == Send(true, table, baseURL, verb', path', body, target, upstream)
  {
    MockKeyInjective(verb, path, verb', path');
  }

  /** Turning mock mode off sends every request upstream to the same place,
      whatever the table holds; turning it back on restores the mock answers. */
  lemma ModeSwitch(table: map<string, MockResponse>, table': map<string, MockResponse>, baseURL: string,
                   verb: string, path: string, body: Option<Data>, target: Option<Target>, upstream: Upstream)
    ensures Send(false, table, baseURL, verb, path, body, target, upstream)
            == Send(false, table', baseURL, verb, path, body, target, upstream)
    ensures body != Some(Unencodable) && !upstream.Rejected? ==>
      Send(false, table, baseURL, verb, path, body, target, upstream).sent.value.url == baseURL + path
  {
  }

  /** A request whose key has no entry answers the default JSON to any target
      that can hold it. */
  lemma DefaultMessage(table: map<string, MockResponse>, baseURL: string, verb: string, path: string,
                       body: Option<Data>, target: Target, upstream: Upstream)
    requires MockKey(verb, path) !in table
    requires DefaultMockJson in target.accepts
    ensures Send(true, table, baseURL, verb, path, body, Some(target), upstream)
            == Outcome(None, Some(DefaultMockJson), None)
  {
  }

  /** As the code stands, a real request without a body (every Get and
      Delete) never reaches the network: whatever the upstream would do, the
      call panics unless the request is refused first. The corrected path
      sends the same request to baseURL followed by the path. */
  lemma BodylessRequestPanics(baseURL: string, verb: string, path: string,
                              target: Option<Target>, upstream: Upstream)
    requires !upstream.Rejected?
    ensures RealReplyAsWritten(baseURL, verb, path, None, target, upstream).error == Some(NilBodyPanic)
    ensures RealReplyAsWritten(baseURL, verb, path, None, target, upstream).sent.None?
    ensures RealReply(baseURL, verb, path, None, target, upstream).sent
            == Some(Outgoing(verb, baseURL + path, None, false))
  {
  }

  /** A concrete instance: GET /users against an upstream that answers 200
      with a JSON array. */
  lemma GetUsersPanics(baseURL: string)
    ensures var t := Some(Target(iset{"[]"}));
      && RealReplyAsWritten(baseURL, "GET", "/users", None, t, Replied(200, "[]"))
         == Outcome(Some(NilBodyPanic), None, None)
      && RealReply(baseURL, "GET", "/users", None, t, Replied(200, "[]"))
         == Outcome(None, Some("[]"), Some(Outgoing("GET", baseURL + "/users", None, false)))
  {
  }
}
