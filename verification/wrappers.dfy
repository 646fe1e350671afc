/**
 * The JSON envelope and handler wrapper of the HTTP API
 * (pkg/http/wrappers/wrappers.go). A response writer is modelled as a log of
 * the calls made on it, and `Sent` says what a client receives from such a
 * log under net/http's rules: the header counts as it stands when the
 * response is committed; the first WriteHeader with a final status (101 or
 * 200..999) commits it, a 1xx other than 101 only sends an interim response,
 * and a status outside 100..999 panics; a body written before any commit
 * goes out under 200; 1xx, 204 and 304 responses carry no body.
 */
module HttpWrappers {
  import opened Outcomes

  const StatusOK := 200
  const StatusInternalServerError := 500
  const ContentType := "Content-Type"
  const JsonContentType := "application/json"

  /** The part of an incoming request the handlers look at. */
  datatype Request = Request(host: string, path: string)

  /** HTTPError: an error message with the status code to answer with. */
  datatype HTTPError = HTTPError(err: string, code: int)
  {
    function Error(): string { err }
    function Status(): int { code }
  }

  /** The envelope every API answer is marshalled in; an absent message or data is omitted. */
  datatype Response<D> = Response(status: string, message: string, data: Option<D>)

  function Success<D>(r: D): (resp: Response<D>)
    ensures resp.status == "success" && resp.message == "" && resp.data == Some(r)
  {
    Response("success", "", Some(r))
  }

  /** What a wrapped handler returns: its data, or an error. */
  datatype Handled<D> = Handled(data: D, err: Option<HTTPError>)

  /** One call made on a response writer. */
  datatype Event = HeaderSet(key: string, value: string) | HeaderWritten(code: int) | BodyWritten(body: string)

  /** A response writer that records the calls made on it, in order. */
  class ResponseWriter {
    var events: seq<Event>

    constructor ()
      ensures events == []
    {
      events := [];
    }

    method SetHeader(key: string, value: string)
      modifies this
      ensures events == old(events) + [HeaderSet(key, value)]
    {
      events := events + [HeaderSet(key, value)];
    }

    /** net/http panics here for a code outside 100..999; `Sent` gives the calls after such a panic no effect. */
    method WriteHeader(code: int)
      modifies this
      ensures events == old(events) + [HeaderWritten(code)]
    {
      events := events + [HeaderWritten(code)];
    }

    method Write(body: string)
      modifies this
      ensures events == old(events) + [BodyWritten(body)]
    {
      events := events + [BodyWritten(body)];
    }
  }

  /** What a client receives as the final response. */
  datatype Reply = Reply(status: int, headers: map<string, string>, body: string)

  /** checkWriteHeaderCode: net/http panics on a status outside 100..999. */
  predicate ValidCode(code: int) { 100 <= code <= 999 }

  /** A 1xx status other than 101 is sent as an interim response and does not commit the final one. */
  predicate Informational(code: int) { 100 <= code <= 199 && code != 101 }

  /** bodyAllowedForStatus: responses with a 1xx, 204 or 304 status carry no body. */
  predicate BodyAllowed(status: int) { !(100 <= status <= 199) && status != 204 && status != 304 }

  /**
   * The state net/http keeps for a response while the handler runs: the
   * header map the handler edits, whether the final status has been
   * committed and with which status and header snapshot, the body sent so
   * far, and whether the handler has panicked.
   */
  datatype Wire = Wire(header: map<string, string>, committed: bool, status: int,
                       sentHeader: map<string, string>, body: string, panicked: bool)

  const Fresh := Wire(map[], false, StatusOK, map[], "", false)

  /** What every reachable state satisfies: nothing is sent before the commit, and the committed status is a final one whose body rules are kept. */
  predicate Coherent(s: Wire) {
    && (!s.committed ==> s.body == "")
    && (s.committed ==> ValidCode(s.status) && !Informational(s.status) && (!BodyAllowed(s.status) ==> s.body == ""))
  }

  function Commit(s: Wire, code: int): Wire {
    s.(committed := true, status := code, sentHeader := s.header)
  }

  /**
   * One call on the writer under net/http's rules. A WriteHeader after the
   * commit is superfluous and ignored; an invalid code panics, after which
   * nothing the handler would still do has an effect; Write commits with 200
   * when nothing has, and sends nothing on a status without a body.
   */
  function Step(s: Wire, e: Event): (t: Wire)
    ensures Coherent(s) ==> Coherent(t)
    ensures s.panicked ==> t == s
    ensures s.committed && !s.panicked ==>
      t.committed && !t.panicked && t.status == s.status && t.sentHeader == s.sentHeader
    ensures !s.committed && !s.panicked && e.HeaderWritten? ==> (t.panicked <==> !ValidCode(e.code))
  {
    if s.panicked then s
    else
      match e
      case HeaderSet(k, v) => s.(header := s.header[k := v])
      case HeaderWritten(code) =>
        if s.committed || Informational(code) then s
        else if !ValidCode(code) then s.(panicked := true)
        else Commit(s, code)
      case BodyWritten(b) =>
        var c := if s.committed then s else Commit(s, StatusOK);
        if BodyAllowed(c.status) then c.(body := c.body + b) else c
  }

  /** The state after the calls in `events`, made in order on a fresh response. */
  function Run(events: seq<Event>): (s: Wire)
    ensures Coherent(s)
  {
    if |events| == 0 then Fresh else Step(Run(events[..|events| - 1]), events[|events| - 1])
  }

  /**
   * What the client receives from a writer that saw exactly `events`: None
   * when the handler panicked, which makes net/http drop the connection; a
   * response nothing committed goes out as 200 with the header as it stands.
   */
  function Sent(events: seq<Event>): (r: Option<Reply>)
    ensures r.Some? ==> ValidCode(r.value.status) && !Informational(r.value.status)
    ensures r.Some? && !BodyAllowed(r.value.status) ==> r.value.body == ""
    ensures r.None? <==> Run(events).panicked
  {
    var s := Run(events);
    if s.panicked then None
    else if s.committed then Some(Reply(s.status, s.sentHeader, s.body))
    else Some(Reply(StatusOK, s.header, s.body))
  }

  lemma RunAppend(events: seq<Event>, e: Event)
    ensures Run(events + [e]) == Step(Run(events), e)
  {
    assert (events + [e])[..|events|] == events;
  }

  /** Once the response is committed, later calls change neither its status nor the header sent with it. */
  lemma {:induction false} CommitIsFinal(events: seq<Event>, later: seq<Event>)
    requires Run(events).committed && !Run(events).panicked
    ensures var t := Run(events + later);
      t.committed && !t.panicked && t.status == Run(events).status && t.sentHeader == Run(events).sentHeader
    decreases |later|
  {
    if |later| > 0 {
      var init := later[..|later| - 1];
      CommitIsFinal(events, init);
      assert events + later == (events + init) + [later[|later| - 1]];
      RunAppend(events + init, later[|later| - 1]);
    } else {
      assert events + later == events;
    }
  }

  /** Once the handler has panicked, nothing reaches the client, whatever calls follow. */
  lemma {:induction false} PanicIsFinal(events: seq<Event>, later: seq<Event>)
    requires Run(events).panicked
    ensures Run(events + later) == Run(events) && Sent(events + later).None?
    decreases |later|
  {
    if |later| > 0 {
      var init := later[..|later| - 1];
      PanicIsFinal(events, init);
      assert events + later == (events + init) + [later[|later| - 1]];
      RunAppend(events + init, later[|later| - 1]);
    } else {
      assert events + later == events;
    }
  }

  /** The calls http.Error makes: a plain-text content type, no sniffing, the code, the text and a newline. */
  function ErrorEvents(text: string, code: int): seq<Event>
  {
    [HeaderSet(ContentType, "text/plain; charset=utf-8"), HeaderSet("X-Content-Type-Options", "nosniff"),
     HeaderWritten(code), BodyWritten(text + "\n")]
  }

  /** The calls returnJson makes for `resp` and `code`, given how marshalling `resp` turns out. */
  function JsonEvents<D>(resp: Response<D>, code: int, marshal: Response<D> -> Result<string, string>): (es: seq<Event>)
    ensures |es| >= 3 && es[0] == HeaderSet(ContentType, JsonContentType)
    ensures marshal(resp).Ok? ==> es[1..] == [HeaderWritten(code), BodyWritten(marshal(resp).value)]
    ensures marshal(resp).Err? ==> es[1..] == ErrorEvents(marshal(resp).error, StatusInternalServerError)
  {
    [HeaderSet(ContentType, JsonContentType)] +
    match marshal(resp)
    case Ok(enc) => [HeaderWritten(code), BodyWritten(enc)]
    case Err(e) => ErrorEvents(e, StatusInternalServerError)
  }

  /** http.Error, as the calls it makes on `w`. */
  method HttpError(text: string, code: int, w: ResponseWriter)
    modifies w
    ensures w.events == old(w.events) + ErrorEvents(text, code)
  {
    w.SetHeader(ContentType, "text/plain; charset=utf-8");
    w.SetHeader("X-Content-Type-Options", "nosniff");
    w.WriteHeader(code);
    w.Write(text + "\n");
  }

  /**
   * returnJson: sets the JSON content type, then writes the status and the
   * marshalled envelope, or answers 500 with the marshalling error, which it
   * also returns. JSON encoding itself is the parameter `marshal`.
   */
  method ReturnJson<D>(resp: Response<D>, code: int, w: ResponseWriter, marshal: Response<D> -> Result<string, string>)
    returns (err: Option<string>)
    modifies w
    ensures w.events == old(w.events) + JsonEvents(resp, code, marshal)
    ensures err == (if marshal(resp).Err? then Some(marshal(resp).error) else None)
  {
    w.SetHeader(ContentType, JsonContentType);
    var enc := marshal(resp);
    if enc.Ok? {
      w.WriteHeader(code);
      w.Write(enc.value);
      err := None;
    } else {
      HttpError(enc.error, StatusInternalServerError, w);
      err := Some(enc.error);
    }
  }

  /**
   * The envelope and status Wrap answers with for a handler's outcome: an
   * error's Error() text and Status() code with no data, or the data in a
   * success envelope with 200.
   */
  function Envelope<D>(h: Handled<D>): (r: (Response<D>, int))
    ensures r.0.data.Some? <==> h.err.None?
    ensures h.err.Some? ==> r == (Response("error", h.err.value.err, None), h.err.value.code)
    ensures h.err.None? ==> r == (Success(h.data), StatusOK)
  {
    match h.err
    case Some(e) => (Response("error", e.Error(), None), e.Status())
    case None => (Response("success", "", Some(h.data)), StatusOK)
  }

  /** The function Wrap(handler) returns, applied to a writer and a request. */
  method Wrap<D>(handler: Request -> Handled<D>, marshal: Response<D> -> Result<string, string>,
                 w: ResponseWriter, r: Request)
    modifies w
    ensures w.events == old(w.events) + JsonEvents(Envelope(handler(r)).0, Envelope(handler(r)).1, marshal)
  {
    var h := handler(r);
    if h.err.Some? {
      var msg := Response("error", h.err.value.Error(), None);
      var _ := ReturnJson(msg, h.err.value.Status(), w, marshal);
      return;
    }
    var msg := Response("success", "", Some(h.data));
    var _ := ReturnJson(msg, StatusOK, w, marshal);
  }

  /** The JSON content type as the client sees it after returnJson. */
  const JsonHeader := map[ContentType := JsonContentType]

  /**
   * What returnJson's status and body amount to for the client: no response
   * for an invalid code, the body under 200 after an interim 1xx, otherwise
   * the code, with the body only where the status allows one.
   */
  function JsonDelivery(code: int, enc: string): (r: Option<Reply>)
    ensures r.None? <==> !ValidCode(code)
    ensures r.Some? ==> r.value.headers == JsonHeader
    ensures 200 <= code <= 999 && code != 204 && code != 304 ==> r == Some(Reply(code, JsonHeader, enc))
  {
    if !ValidCode(code) then None
    else if Informational(code) then Some(Reply(StatusOK, JsonHeader, enc))
    else Some(Reply(code, JsonHeader, if BodyAllowed(code) then enc else ""))
  }

  /** What http.Error with 500 shows the client: a plain-text content type, no sniffing, the text and a newline. */
  function ErrorReply(text: string): Reply {
    Reply(StatusInternalServerError,
          map[ContentType := "text/plain; charset=utf-8", "X-Content-Type-Options" := "nosniff"], text + "\n")
  }

  /** A successful encoding reaches the client as `JsonDelivery` says. */
  lemma JsonReplyEncoded(code: int, enc: string)
    ensures Sent([HeaderSet(ContentType, JsonContentType), HeaderWritten(code), BodyWritten(enc)]) == JsonDelivery(code, enc)
  {
    var set0 := HeaderSet(ContentType, JsonContentType);
    var wh := HeaderWritten(code);
    var wr := BodyWritten(enc);
    RunAppend([], set0);
    assert [] + [set0] == [set0];
    RunAppend([set0], wh);
    assert [set0] + [wh] == [set0, wh];
    RunAppend([set0, wh], wr);
    assert [set0, wh] + [wr] == [set0, wh, wr];
    var s1 := Run([set0]);
    assert s1 == Fresh.(header := JsonHeader);
    var s2 := Run([set0, wh]);
    if !ValidCode(code) {
      assert s2.panicked;
    } else if Informational(code) {
      assert s2 == s1;
      assert "" + enc == enc;
      assert Run([set0, wh, wr]) == Commit(s1, StatusOK).(body := enc);
    } else {
      assert s2 == Commit(s1, code);
      assert "" + enc == enc;
      assert Run([set0, wh, wr]) == if BodyAllowed(code) then s2.(body := enc) else s2;
    }
  }

  /** A failed encoding reaches the client as http.Error's 500, plain-text content type and text. */
  lemma JsonReplyFailed(e: string)
    ensures Sent([HeaderSet(ContentType, JsonContentType)] + ErrorEvents(e, StatusInternalServerError))
         == Some(ErrorReply(e))
  {
    var set0 := HeaderSet(ContentType, JsonContentType);
    var set1 := HeaderSet(ContentType, "text/plain; charset=utf-8");
    var set2 := HeaderSet("X-Content-Type-Options", "nosniff");
    var wh := HeaderWritten(StatusInternalServerError);
    var wr := BodyWritten(e + "\n");
    var es := [set0] + ErrorEvents(e, StatusInternalServerError);
    assert es == [set0, set1, set2, wh, wr];
    RunAppend([], set0);
    assert [] + [set0] == [set0];
    RunAppend([set0], set1);
    assert [set0] + [set1] == [set0, set1];
    RunAppend([set0, set1], set2);
    assert [set0, set1] + [set2] == [set0, set1, set2];
    RunAppend([set0, set1, set2], wh);
    assert [set0, set1, set2] + [wh] == [set0, set1, set2, wh];
    RunAppend([set0, set1, set2, wh], wr);
    assert [set0, set1, set2, wh] + [wr] == es;
    var h := map[ContentType := "text/plain; charset=utf-8", "X-Content-Type-Options" := "nosniff"];
    assert Run([set0, set1, set2]).header == h;
    assert Run([set0, set1, set2, wh]) == Wire(h, true, StatusInternalServerError, h, "", false);
    assert "" + (e + "\n") == e + "\n";
    assert Run(es) == Wire(h, true, StatusInternalServerError, h, e + "\n", false);
  }

  /**
   * On a fresh writer, returnJson delivers what `JsonDelivery` says for the
   * code and the marshalled envelope; when marshalling fails the client gets
   * 500, a plain-text content type and the error text.
   */
  lemma JsonReply<D>(resp: Response<D>, code: int, marshal: Response<D> -> Result<string, string>)
    ensures var reply := Sent(JsonEvents(resp, code, marshal));
      match marshal(resp)
      case Ok(enc) => reply == JsonDelivery(code, enc)
      case Err(e) => reply == Some(ErrorReply(e))
  {
    match marshal(resp)
    case Ok(enc) =>
      assert JsonEvents(resp, code, marshal) == [HeaderSet(ContentType, JsonContentType), HeaderWritten(code), BodyWritten(enc)];
      JsonReplyEncoded(code, enc);
    case Err(e) =>
      assert JsonEvents(resp, code, marshal) == [HeaderSet(ContentType, JsonContentType)] + ErrorEvents(e, StatusInternalServerError);
      JsonReplyFailed(e);
  }

  /**
   * What a wrapped handler delivers on a fresh writer: the envelope and
   * status of `Envelope`, through `JsonDelivery` when marshalling succeeds,
   * and http.Error's 500 when it fails.
   */
  lemma WrapReply<D>(h: Handled<D>, marshal: Response<D> -> Result<string, string>)
    ensures var (resp, code) := Envelope(h);
      && (marshal(resp).Ok? ==> Sent(JsonEvents(resp, code, marshal)) == JsonDelivery(code, marshal(resp).value))
      && (marshal(resp).Err? ==> Sent(JsonEvents(resp, code, marshal)) == Some(ErrorReply(marshal(resp).error)))
  {
    var (resp, code) := Envelope(h);
    JsonReply(resp, code, marshal);
  }

  /**
   * An HTTPError left with Go's zero Code makes WriteHeader panic: the client
   * gets no response at all once the envelope is encoded.
   */
  lemma ZeroCodeErrorDropsConnection<D>(h: Handled<D>, marshal: Response<D> -> Result<string, string>)
    requires h.err.Some? && h.err.value.code == 0
    ensures var (resp, code) := Envelope(h);
      marshal(resp).Ok? ==> Sent(JsonEvents(resp, code, marshal)).None?
  {
    WrapReply(h, marshal);
  }
}
