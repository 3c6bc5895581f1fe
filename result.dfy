/** Response-field selection: `Result.Json` and `Result.GrpcStatus` turn a
    value (an `Error`, a plain `error`, a registered code, or any other
    body) into the fields of a response, then run the caller's options over
    it. Also the response codes the package registers at start-up. */
module Results {
  import opened Values
  import opened ErrorCodes

  const StatusOK: int := 200
  const StatusCreated: int := 201
  const StatusNoContent: int := 204
  const StatusFound: int := 302
  const StatusBadRequest: int := 400
  const StatusUnauthorized: int := 401
  const StatusForbidden: int := 403
  const StatusNotFound: int := 404

  /** The gRPC status code `Aborted`. */
  const Aborted: int := 10

  const ErrOk: int := 0
  const ErrCreated: int := 1
  const ErrUpdated: int := 2
  const ErrDeleted: int := 3
  const ErrParameterError: int := 10001
  const ErrResRepeat: int := 10002
  const ErrNotFound: int := 10003
  const ErrAuthHeaderRequired: int := 10004
  const ErrAuthHeaderInvalid: int := 10005
  const ErrForbidden: int := 10006
  const ErrRequestBodyRequired: int := 10007
  const ErrTokenInvalid: int := 10008
  const ErrTokenRequired: int := 10009
  const ErrPermissionDenied: int := 10010

  /** The `response` record. */
  datatype Response = Response(httpCode: int, grpcCode: int, code: int, message: string, request: string)

  /** The options (`WithMessage`, `WithHttpCode`, `WithCode`). */
  datatype ResultOption = WithMessage(message: string) | WithHttpCode(httpCode: int) | WithCode(code: int)

  /** The value handed to `Json` or `GrpcStatus`, by its dynamic type. An
      `Error` is an `error` too, and is matched first, so it is its own case. */
  datatype Val = ErrorVal(e: Error) | PlainError(err: GoError) | CodeVal(code: int) | Body(body: Value)

  /** What `Json` sends: the status it aborts with and the JSON payload. */
  datatype Payload = ResponseBody(res: Response) | ValueBody(v: Value)
  datatype Reply = Reply(status: int, payload: Payload)

  /** The error `GrpcStatus` returns: a status code and the response whose
      JSON text is its message. */
  datatype Status = Status(code: int, res: Response)

  function ApplyResultOption(r: Response, o: ResultOption): Response
  {
    match o
    case WithMessage(m) => r.(message := m)
    case WithHttpCode(h) => r.(httpCode := h)
    case WithCode(c) => r.(code := c)
  }

  /** The options applied in order. */
  function ApplyResultOptions(r: Response, opts: seq<ResultOption>): Response
  {
    if opts == [] then r
    else ApplyResultOption(ApplyResultOptions(r, opts[..|opts| - 1]), opts[|opts| - 1])
  }

  /** The coder a value selects: its own for an `Error`, 9999/500 with the
      error's text for a plain error, the registry's for a code, none for
      any other value. */
  function Selected(codes: map<int, ErrCoder>, val: Val): Option<ErrCoder>
  {
    match val
    case ErrorVal(e) => Some(e.coder)
    case PlainError(err) => Some(ErrCoder(ErrFailed, StatusInternalServerError, err.text))
    case CodeVal(c) => Some(Lookup(codes, c))
    case Body(_) => None
  }

  /** The reply `Json` sends for a request whose method and URL render as
      `request`. */
  function JsonReply(codes: map<int, ErrCoder>, request: string, val: Val, opts: seq<ResultOption>): Reply
  {
    var r0 := Response(StatusOK, 0, 0, "", request);
    match Selected(codes, val)
    case Some(c) =>
      var res := ApplyResultOptions(r0.(httpCode := c.httpCode, code := c.code, message := c.message), opts);
      Reply(res.httpCode, ResponseBody(res))
    case None =>
      Reply(ApplyResultOptions(r0, opts).httpCode, ValueBody(val.body))
  }

  /** The status `GrpcStatus` returns: the selected coder's status goes to
      the gRPC code field. */
  function GrpcReply(codes: map<int, ErrCoder>, val: Val, opts: seq<ResultOption>): (s: Status)
    ensures s.code == Aborted
  {
    var r0 := Response(0, StatusOK, 0, "", "");
    match Selected(codes, val)
    case Some(c) =>
      Status(Aborted, ApplyResultOptions(r0.(grpcCode := c.httpCode, code := c.code, message := c.message), opts))
    case None =>
      Status(Aborted, ApplyResultOptions(r0, opts))
  }

  /** `doOpts`: the options run over the response in order. */
  method DoOpts(res: Response, opts: seq<ResultOption>) returns (r: Response)
    ensures r == ApplyResultOptions(res, opts)
  {
    r := res;
    for i := 0 to |opts|
      invariant r == ApplyResultOptions(res, opts[..i])
    {
      assert opts[..i + 1][..i] == opts[..i];
      match opts[i]
      case WithMessage(m) => r := r.(message := m);
      case WithHttpCode(h) => r := r.(httpCode := h);
      case WithCode(c) => r := r.(code := c);
    }
    assert opts[..|opts|] == opts;
  }

  /** `Result.Json`, for a request with the given method and URL. */
  method Json(reg: ErrorCodes.Registry, httpMethod: string, url: string, val: Val, opts: seq<ResultOption>)
    returns (reply: Reply)
    ensures reply == JsonReply(reg.codes, httpMethod + " " + url, val, opts)
  {
    var res := Response(StatusOK, 0, 0, "", httpMethod + " " + url);
    match val
    case ErrorVal(e) =>
      res := res.(httpCode := e.coder.httpCode, code := e.coder.code, message := e.coder.message);
      res := DoOpts(res, opts);
      reply := Reply(res.httpCode, ResponseBody(res));
    case PlainError(err) =>
      res := res.(httpCode := StatusInternalServerError, code := ErrFailed, message := err.text);
      res := DoOpts(res, opts);
      reply := Reply(res.httpCode, ResponseBody(res));
    case CodeVal(code) =>
      var coder := reg.ParseCoder(code);
      res := res.(httpCode := coder.httpCode, code := coder.code, message := coder.message);
      res := DoOpts(res, opts);
      reply := Reply(res.httpCode, ResponseBody(res));
    case Body(v) =>
      res := DoOpts(res, opts);
      reply := Reply(res.httpCode, ValueBody(v));
  }

  /** `Result.GrpcStatus`. */
  method GrpcStatus(reg: ErrorCodes.Registry, val: Val, opts: seq<ResultOption>) returns (st: Status)
    ensures st == GrpcReply(reg.codes, val, opts)
  {
    var res := Response(0, StatusOK, 0, "", "");
    match val {
      case ErrorVal(e) =>
        res := res.(grpcCode := e.coder.httpCode, code := e.coder.code, message := e.coder.message);
      case PlainError(err) =>
        res := res.(grpcCode := StatusInternalServerError, code := ErrFailed, message := err.text);
      case CodeVal(code) =>
        var coder := reg.ParseCoder(code);
        res := res.(grpcCode := coder.httpCode, code := coder.code, message := coder.message);
      case Body(_) =>
    }
    res := DoOpts(res, opts);
    st := Status(Aborted, res);
  }

  /** `Result.Fail`, `Success`, `Created`, `Updated` and `Deleted`: `Json`
      with a code. */
  method Fail(reg: ErrorCodes.Registry, httpMethod: string, url: string, code: int, opts: seq<ResultOption>)
    returns (reply: Reply)
    ensures reply == JsonReply(reg.codes, httpMethod + " " + url, CodeVal(code), opts)
  {
    reply := Json(reg, httpMethod, url, CodeVal(code), opts);
  }

  method Success(reg: ErrorCodes.Registry, httpMethod: string, url: string, opts: seq<ResultOption>)
    returns (reply: Reply)
    ensures reply == JsonReply(reg.codes, httpMethod + " " + url, CodeVal(ErrOk), opts)
  {
    reply := Json(reg, httpMethod, url, CodeVal(ErrOk), opts);
  }

  method Created(reg: ErrorCodes.Registry, httpMethod: string, url: string, opts: seq<ResultOption>)
    returns (reply: Reply)
    ensures reply == JsonReply(reg.codes, httpMethod + " " + url, CodeVal(ErrCreated), opts)
  {
    reply := Json(reg, httpMethod, url, CodeVal(ErrCreated), opts);
  }

  method Updated(reg: ErrorCodes.Registry, httpMethod: string, url: string, opts: seq<ResultOption>)
    returns (reply: Reply)
    ensures reply == JsonReply(reg.codes, httpMethod + " " + url, CodeVal(ErrUpdated), opts)
  {
    reply := Json(reg, httpMethod, url, CodeVal(ErrUpdated), opts);
  }

  method Deleted(reg: ErrorCodes.Registry, httpMethod: string, url: string, opts: seq<ResultOption>)
    returns (reply: Reply)
    ensures reply == JsonReply(reg.codes, httpMethod + " " + url, CodeVal(ErrDeleted), opts)
  {
    reply := Json(reg, httpMethod, url, CodeVal(ErrDeleted), opts);
  }

  // ---------------------------------------------------------------------
  // Options

  /** Options never touch the request text or the gRPC code. */
  lemma {:induction false} OptionsKeepRequest(r: Response, opts: seq<ResultOption>)
    ensures ApplyResultOptions(r, opts).request == r.request
    ensures ApplyResultOptions(r, opts).grpcCode == r.grpcCode
    decreases |opts|
  {
    if opts != [] {
      OptionsKeepRequest(r, opts[..|opts| - 1]);
    }
  }

  /** The last status option decides the HTTP status; without one the
      status is the one given. */
  lemma {:induction false} LastWithHttpCodeWins(r: Response, opts: seq<ResultOption>)
    ensures forall i ::
      (0 <= i < |opts| && opts[i].WithHttpCode? && (forall l :: i < l < |opts| ==> !opts[l].WithHttpCode?)) ==>
        ApplyResultOptions(r, opts).httpCode == opts[i].httpCode
    ensures (forall l :: 0 <= l < |opts| ==> !opts[l].WithHttpCode?) ==>
      ApplyResultOptions(r, opts).httpCode == r.httpCode
    decreases |opts|
  {
    if opts != [] {
      LastWithHttpCodeWins(r, opts[..|opts| - 1]);
    }
  }

  /** The last code option decides the code; without one the code is the
      one given. */
  lemma {:induction false} LastWithCodeWins(r: Response, opts: seq<ResultOption>)
    ensures forall i ::
      (0 <= i < |opts| && opts[i].WithCode? && (forall l :: i < l < |opts| ==> !opts[l].WithCode?)) ==>
        ApplyResultOptions(r, opts).code == opts[i].code
    ensures (forall l :: 0 <= l < |opts| ==> !opts[l].WithCode?) ==>
      ApplyResultOptions(r, opts).code == r.code
    decreases |opts|
  {
    if opts != [] {
      LastWithCodeWins(r, opts[..|opts| - 1]);
    }
  }

  /** The last message option decides the message; without one the
      message is the one given. */
  lemma {:induction false} LastWithMessageWins(r: Response, opts: seq<ResultOption>)
    ensures forall i ::
      (0 <= i < |opts| && opts[i].WithMessage? && (forall l :: i < l < |opts| ==> !opts[l].WithMessage?)) ==>
        ApplyResultOptions(r, opts).message == opts[i].message
    ensures (forall l :: 0 <= l < |opts| ==> !opts[l].WithMessage?) ==>
      ApplyResultOptions(r, opts).message == r.message
    decreases |opts|
  {
    if opts != [] {
      LastWithMessageWins(r, opts[..|opts| - 1]);
    }
  }

  // ---------------------------------------------------------------------
  // Field selection

  /** Without options, a value of a coded kind answers with its coder's
      status, code and message, and the request line. */
  lemma JsonCodedFields(codes: map<int, ErrCoder>, request: string, val: Val)
    requires !val.Body?
    ensures JsonReply(codes, request, val, []) ==
      var c := Selected(codes, val).value;
      Reply(c.httpCode, ResponseBody(Response(c.httpCode, 0, c.code, c.message, request)))
  {
  }

  /** A plain error answers 500 with code 9999 and the error's text; an
      `Error` with the fields of its own coder. */
  lemma ErrorKinds(codes: map<int, ErrCoder>, e: Error, err: GoError)
    ensures Selected(codes, ErrorVal(e)) == Some(e.coder)
    ensures Selected(codes, PlainError(err)) == Some(ErrCoder(ErrFailed, StatusInternalServerError, err.text))
  {
  }

  /** Any other value is sent as it is, with status 200 unless a status
      option says otherwise. */
  lemma JsonBody(codes: map<int, ErrCoder>, request: string, v: Value, opts: seq<ResultOption>)
    ensures JsonReply(codes, request, Body(v), opts).payload == ValueBody(v)
    ensures (forall l :: 0 <= l < |opts| ==> !opts[l].WithHttpCode?) ==>
      JsonReply(codes, request, Body(v), opts).status == StatusOK
  {
    LastWithHttpCodeWins(Response(StatusOK, 0, 0, "", request), opts);
  }

  /** An unregistered code answers as the 9999 failure when the table holds
      its start-up entry. */
  lemma JsonUnknownCode(codes: map<int, ErrCoder>, request: string, code: int)
    requires ErrFailed in codes && codes[ErrFailed] == FailedCoder && code !in codes
    ensures JsonReply(codes, request, CodeVal(code), []) ==
      Reply(StatusInternalServerError, ResponseBody(Response(StatusInternalServerError, 0, ErrFailed, FailedCoder.message, request)))
  {
  }

  /** Without options, `GrpcStatus` selects the same coder as `Json`, its
      status going to the gRPC code field. */
  lemma GrpcCodedFields(codes: map<int, ErrCoder>, val: Val)
    requires !val.Body?
    ensures GrpcReply(codes, val, []) ==
      var c := Selected(codes, val).value;
      Status(Aborted, Response(0, c.httpCode, c.code, c.message, ""))
  {
  }

  // ---------------------------------------------------------------------
  // Start-up registrations

  /** The codes the package registers, in the order it registers them. */
  const ResultCoders: seq<ErrCoder> := [
    ErrCoder(ErrOk, StatusOK, "ok"),
    ErrCoder(ErrUpdated, StatusOK, "updated"),
    ErrCoder(ErrCreated, StatusCreated, "created"),
    ErrCoder(ErrDeleted, StatusNoContent, "deleted"),
    ErrCoder(ErrParameterError, StatusBadRequest, "parameter error"),
    ErrCoder(ErrResRepeat, StatusFound, "resource repeat"),
    ErrCoder(ErrNotFound, StatusNotFound, "resource notfound"),
    ErrCoder(ErrAuthHeaderRequired, StatusUnauthorized, "auth header required"),
    ErrCoder(ErrAuthHeaderInvalid, StatusUnauthorized, "auth header is invalid"),
    ErrCoder(ErrForbidden, StatusForbidden, "forbidden"),
    ErrCoder(ErrRequestBodyRequired, StatusBadRequest, "request body required"),
    ErrCoder(ErrTokenInvalid, StatusUnauthorized, "token invalid"),
    ErrCoder(ErrTokenRequired, StatusUnauthorized, "token required"),
    ErrCoder(ErrPermissionDenied, StatusForbidden, "permission denied")
  ]

  /** The table a sequence of successful registrations adds. */
  function CodersMap(cs: seq<ErrCoder>): map<int, ErrCoder>
  {
    if cs == [] then map[] else CodersMap(cs[..|cs| - 1])[cs[|cs| - 1].code := cs[|cs| - 1]]
  }

  /** The codes of a sequence of coders are its map's keys. */
  lemma {:induction false} CodersMapKeys(cs: seq<ErrCoder>)
    ensures forall k :: k in CodersMap(cs) <==> exists i :: 0 <= i < |cs| && cs[i].code == k
    decreases |cs|
  {
    if cs != [] {
      var init := cs[..|cs| - 1];
      CodersMapKeys(init);
      forall k ensures k in CodersMap(cs) <==> exists i :: 0 <= i < |cs| && cs[i].code == k {
        if k in CodersMap(init) {
          var i :| 0 <= i < |init| && init[i].code == k;
          assert cs[i] == init[i];
        }
        if exists i :: 0 <= i < |cs| && cs[i].code == k {
          var i :| 0 <= i < |cs| && cs[i].code == k;
          if i < |init| {
            assert init[i] == cs[i];
          }
        }
      }
    }
  }

  /** The registered codes are pairwise distinct and none is 9999, so the
      start-up registrations cannot panic. */
  lemma ResultCodesDistinct()
    ensures forall i :: 0 <= i < |ResultCoders| ==> ResultCoders[i].code != ErrFailed
    ensures forall i, j :: 0 <= i < j < |ResultCoders| ==> ResultCoders[i].code != ResultCoders[j].code
  {
  }

  /** A code registered once in a sequence maps to its coder. */
  lemma {:induction false} CodersMapLookup(cs: seq<ErrCoder>, i: nat)
    requires i < |cs|
    requires forall j :: 0 <= j < |cs| && j != i ==> cs[j].code != cs[i].code
    ensures cs[i].code in CodersMap(cs) && CodersMap(cs)[cs[i].code] == cs[i]
    decreases |cs|
  {
    if i < |cs| - 1 {
      var init := cs[..|cs| - 1];
      CodersMapLookup(init, i);
    }
  }

  /** Registration `i` of the start-up sequence finds its code free and adds
      the next entry of the table. */
  lemma RegisterStep(codes: map<int, ErrCoder>, i: nat)
    requires i < |ResultCoders|
    requires forall j :: 0 <= j < |ResultCoders| ==> ResultCoders[j].code !in codes
    ensures ResultCoders[i].code != ErrFailed
    ensures ResultCoders[i].code !in codes + CodersMap(ResultCoders[..i])
    ensures (codes + CodersMap(ResultCoders[..i]))[ResultCoders[i].code := ResultCoders[i]]
      == codes + CodersMap(ResultCoders[..i + 1])
  {
    ResultCodesDistinct();
    CodersMapKeys(ResultCoders[..i]);
    assert ResultCoders[..i + 1][..i] == ResultCoders[..i];
  }

  /** The package's `init`: the fourteen registrations, in order, into a
      table that holds none of them yet; none of them panics. */
  method RegisterResultCodes(reg: ErrorCodes.Registry)
    requires forall i :: 0 <= i < |ResultCoders| ==> ResultCoders[i].code !in reg.codes
    modifies reg
    ensures reg.codes == old(reg.codes) + CodersMap(ResultCoders)
  {
    for i := 0 to |ResultCoders|
      invariant reg.codes == old(reg.codes) + CodersMap(ResultCoders[..i])
    {
      var c := ResultCoders[i];
      RegisterStep(old(reg.codes), i);
      var p := reg.Register(c);
      assert p.None?;
    }
    assert ResultCoders[..|ResultCoders|] == ResultCoders;
  }

  /** The table once both start-up steps have run. */
  function StartCodes(): map<int, ErrCoder>
  {
    map[ErrFailed := FailedCoder] + CodersMap(ResultCoders)
  }

  /** Start-up: the reserved entry, then the response codes. */
  method Boot() returns (reg: ErrorCodes.Registry)
    ensures fresh(reg) && reg.codes == StartCodes() && reg.Valid()
  {
    reg := new ErrorCodes.Registry();
    ResultCodesDistinct();
    RegisterResultCodes(reg);
    CodersMapKeys(ResultCoders);
    assert ErrFailed !in CodersMap(ResultCoders);
  }

  /** With the start-up table, `Success`, `Created`, `Updated` and
      `Deleted` answer 200 "ok", 201 "created", 200 "updated" and 204
      "deleted" with codes 0 to 3. */
  lemma StartCodesAnswers(request: string)
    ensures JsonReply(StartCodes(), request, CodeVal(ErrOk), []).status == StatusOK
    ensures JsonReply(StartCodes(), request, CodeVal(ErrOk), []).payload.res.code == ErrOk
    ensures JsonReply(StartCodes(), request, CodeVal(ErrOk), []).payload.res.message == "ok"
    ensures JsonReply(StartCodes(), request, CodeVal(ErrCreated), []).status == StatusCreated
    ensures JsonReply(StartCodes(), request, CodeVal(ErrCreated), []).payload.res.code == ErrCreated
    ensures JsonReply(StartCodes(), request, CodeVal(ErrCreated), []).payload.res.message == "created"
    ensures JsonReply(StartCodes(), request, CodeVal(ErrUpdated), []).status == StatusOK
    ensures JsonReply(StartCodes(), request, CodeVal(ErrUpdated), []).payload.res.code == ErrUpdated
    ensures JsonReply(StartCodes(), request, CodeVal(ErrUpdated), []).payload.res.message == "updated"
    ensures JsonReply(StartCodes(), request, CodeVal(ErrDeleted), []).status == StatusNoContent
    ensures JsonReply(StartCodes(), request, CodeVal(ErrDeleted), []).payload.res.code == ErrDeleted
    ensures JsonReply(StartCodes(), request, CodeVal(ErrDeleted), []).payload.res.message == "deleted"
  {
    ResultCodesDistinct();
    CodersMapLookup(ResultCoders, 0);
    CodersMapLookup(ResultCoders, 1);
    CodersMapLookup(ResultCoders, 2);
    CodersMapLookup(ResultCoders, 3);
  }
}
