/**
 * HttpError (src/HttpError.ts): an error with an HTTP status code and extra information,
 * the conversion of any other error into one, and the decision of the Express error
 * handler `HttpError.Handler`.
 *
 * JavaScript objects are abstract records: `info` is a map from property names to values,
 * and a thrown error is either an `HttpError` (the `instanceof` test becomes a tag) or a
 * plain error carrying the properties `getStatusCode` inspects.
 */
module HttpErrors {
  import opened Wrappers

  /** What `typeof` says of one property of an error: absent, a number, or something else. */
  datatype Field = Absent | Number(n: int) | OtherType

  /** Values that may appear in `info`; an error stored there (as `cause`) is kept as it is. */
  datatype Value =
    | Text(s: string)
    | Num(n: int)
    | Flag(b: bool)
    | Null
    | List(items: seq<Value>)
    | Object(fields: map<string, Value>)
    | ErrorRef(e: ErrorObject)

  /** A thrown error: a plain `Error` or an `HttpError`. */
  datatype ErrorObject =
    | Plain(message: string, statusCode: Field, code: Field, errorCode: Field)
    | Http(err: HttpError)

  type Info = map<string, Value>

  /** The fields of an `HttpError` (src/HttpError.ts:54); `message` is the description. */
  datatype HttpError = HttpError(code: int, message: string, info: Info, originalError: Option<ErrorObject>)

  /** `error.message`. */
  function MessageOf(e: ErrorObject): string {
    match e
    case Plain(m, _, _, _) => m
    case Http(h) => h.message
  }

  /** The properties `statusCode`, `code` and `errorCode`, in the order `getStatusCode` tries them. */
  function StatusFields(e: ErrorObject): (r: seq<Field>)
    ensures |r| == 3
  {
    match e
    case Plain(_, s, c, ec) => [s, c, ec]
    case Http(h) => [Absent, Number(h.code), Absent]
  }

  /** The first numeric field, or `fallback` when there is none. */
  function FirstNumber(fields: seq<Field>, fallback: int): (r: int)
    ensures r == fallback || exists i :: 0 <= i < |fields| && fields[i] == Number(r)
  {
    if fields == [] then fallback
    else if fields[0].Number? then fields[0].n
    else
      var r := FirstNumber(fields[1..], fallback);
      assert r != fallback ==> exists i :: 1 <= i < |fields| && fields[i] == Number(r) by {
        if r != fallback {
          var j :| 0 <= j < |fields[1..]| && fields[1..][j] == Number(r);
          assert fields[j + 1] == Number(r);
        }
      }
      r
  }

  /** The field chosen is the first numeric one; with none, the fallback. */
  lemma {:induction false} FirstNumberPicksFirst(fields: seq<Field>, fallback: int, i: nat)
    requires i <= |fields|
    requires forall j :: 0 <= j < i ==> !fields[j].Number?
    ensures i < |fields| && fields[i].Number? ==> FirstNumber(fields, fallback) == fields[i].n
    ensures i == |fields| ==> FirstNumber(fields, fallback) == fallback
  {
    if i > 0 {
      FirstNumberPicksFirst(fields[1..], fallback, i - 1);
    }
  }

  /** `getStatusCode` (src/HttpError.ts:72-77): `statusCode`, else `code`, else `errorCode`, else 500. */
  function GetStatusCode(cause: ErrorObject): (r: int)
    ensures r == FirstNumber(StatusFields(cause), 500)
  {
    var f := StatusFields(cause);
    assert f[1..][0] == f[1] && f[1..][1..][0] == f[2] && f[1..][1..][1..] == [];
    assert FirstNumber(f[1..][1..], 500) == if f[2].Number? then f[2].n else 500;
    if f[0].Number? then f[0].n
    else if f[1].Number? then f[1].n
    else if f[2].Number? then f[2].n
    else 500
  }

  /** The constructor (src/HttpError.ts:54-56); `info` defaults to an empty object. */
  function NewHttpError(code: int, description: string, info: Option<Info>, originalError: Option<ErrorObject>): (r: HttpError)
    ensures r.code == code && r.message == description && r.originalError == originalError
    ensures info.None? ==> r.info == map[]
    ensures info.Some? ==> r.info == info.value
  {
    HttpError(code, description, info.GetOr(map[]), originalError)
  }

  /** The third argument of `fromError`: absent, a description, or an info object. */
  datatype DescriptionOrInfo = NoArgument | Description(text: string) | InfoArgument(info: Info)

  /** The object `fromError` spreads before adding `cause`: the fourth argument after a description, else the third. */
  function InfoBase(descriptionOrInfo: DescriptionOrInfo, info: Option<Info>): Info {
    match descriptionOrInfo
    case Description(_) => info.GetOr(map[])
    case InfoArgument(base) => base
    case NoArgument => map[]
  }

  /**
   * `HttpError.fromError`, both overloads (src/HttpError.ts:39-46). The code defaults to
   * `getStatusCode(cause)`; a string third argument is the message, otherwise the cause's
   * message is kept; `cause` is added to the info, over any `cause` already there.
   */
  function FromError(cause: ErrorObject, code: Option<int>, descriptionOrInfo: DescriptionOrInfo, info: Option<Info>): (r: HttpError)
    ensures r.code == if code.Some? then code.value else GetStatusCode(cause)
    ensures r.message == if descriptionOrInfo.Description? then descriptionOrInfo.text else MessageOf(cause)
    ensures "cause" in r.info && r.info["cause"] == ErrorRef(cause)
    ensures forall k :: k != "cause" ==> (k in r.info <==> k in InfoBase(descriptionOrInfo, info))
    ensures forall k :: k != "cause" && k in r.info ==> r.info[k] == InfoBase(descriptionOrInfo, info)[k]
    ensures r.originalError == None
  {
    var code := code.GetOr(GetStatusCode(cause));
    match descriptionOrInfo
    case Description(text) => NewHttpError(code, text, Some(info.GetOr(map[])["cause" := ErrorRef(cause)]), None)
    case _ => NewHttpError(code, MessageOf(cause), Some(InfoBase(descriptionOrInfo, info)["cause" := ErrorRef(cause)]), None)
  }

  /** Converting an error keeps the status code it would have been given: `getStatusCode` of the result equals that of the cause. */
  lemma FromErrorKeepsStatusCode(cause: ErrorObject, descriptionOrInfo: DescriptionOrInfo, info: Option<Info>)
    ensures GetStatusCode(Http(FromError(cause, None, descriptionOrInfo, info))) == GetStatusCode(cause)
  {
  }

  /** An `HttpError`'s own code is what `getStatusCode` finds on it. */
  lemma StatusCodeOfHttpError(h: HttpError)
    ensures GetStatusCode(Http(h)) == h.code
  {
  }

  // The shortcuts (src/HttpError.ts:48-52): fixed codes and default descriptions.

  function BadRequest(description: Option<string>, info: Option<Info>): (r: HttpError)
    ensures r.code == 400 && r.message == description.GetOr("Bad Request") && r.info == info.GetOr(map[])
  {
    NewHttpError(400, description.GetOr("Bad Request"), info, None)
  }

  function Forbidden(description: Option<string>, info: Option<Info>): (r: HttpError)
    ensures r.code == 403 && r.message == description.GetOr("Forbidden") && r.info == info.GetOr(map[])
  {
    NewHttpError(403, description.GetOr("Forbidden"), info, None)
  }

  function NotFound(description: Option<string>, info: Option<Info>): (r: HttpError)
    ensures r.code == 404 && r.message == description.GetOr("Resource Not Found") && r.info == info.GetOr(map[])
  {
    NewHttpError(404, description.GetOr("Resource Not Found"), info, None)
  }

  function Conflict(description: Option<string>, info: Option<Info>): (r: HttpError)
    ensures r.code == 409 && r.message == description.GetOr("Conflict") && r.info == info.GetOr(map[])
  {
    NewHttpError(409, description.GetOr("Conflict"), info, None)
  }

  function ServerError(description: Option<string>, info: Option<Info>): (r: HttpError)
    ensures r.code == 500 && r.message == description.GetOr("Internal Server Error") && r.info == info.GetOr(map[])
  {
    NewHttpError(500, description.GetOr("Internal Server Error"), info, None)
  }

  /** What the (possibly asynchronous) interceptor did: returned something falsy, returned a replacement, or threw. */
  datatype Intercepted = Falsy | Replacement(err: HttpError) | Throws

  datatype HandlerOptions = HandlerOptions(interceptor: Option<HttpError -> Intercepted>, catchAllErrors: bool)

  /** The JSON body `{error, info}`. */
  datatype Body = Body(error: string, info: Info)

  /** The handler either passes the error on with `next(err)` or sends `res.status(status).json(body)`. */
  datatype Decision = Next(err: ErrorObject) | Respond(status: int, body: Body)

  /** Line 20: `interceptor && await interceptor(err, req) || err`, with a throw caught and ignored. */
  function Intercept(interceptor: Option<HttpError -> Intercepted>, e: HttpError): (r: HttpError)
    ensures r == e || (interceptor.Some? && interceptor.value(e) == Replacement(r))
    ensures interceptor.Some? && interceptor.value(e).Replacement? ==> r == interceptor.value(e).err
  {
    match interceptor
    case None => e
    case Some(f) =>
      match f(e)
      case Replacement(replacement) => replacement
      case _ => e
  }

  /**
   * The decision of the handler made by `HttpError.Handler` (src/HttpError.ts:10-30). A
   * plain error is passed on unless `catchAllErrors` is set, in which case it is converted
   * with `fromError`; the interceptor sees the `HttpError` and may replace it; the
   * response carries the final error's code, message and info.
   */
  function Handle(options: HandlerOptions, err: ErrorObject): (r: Decision)
    ensures r.Next? <==> !err.Http? && !options.catchAllErrors
    ensures r.Next? ==> r.err == err
    ensures r.Respond? ==>
      var h := if err.Http? then err.err else FromError(err, None, NoArgument, None);
      var final := Intercept(options.interceptor, h);
      r.status == final.code && r.body == Body(final.message, final.info)
  {
    if !err.Http? && !options.catchAllErrors then Next(err)
    else
      var h := if err.Http? then err.err else FromError(err, None, NoArgument, None);
      var final := Intercept(options.interceptor, h);
      Respond(final.code, Body(final.message, final.info))
  }

  /** Without an interceptor replacing it, an `HttpError` is sent with its own code, message and info. */
  lemma HandleHttpErrorAsIs(options: HandlerOptions, h: HttpError)
    requires options.interceptor.None? || !options.interceptor.value(h).Replacement?
    ensures Handle(options, Http(h)) == Respond(h.code, Body(h.message, h.info))
  {
  }

  /**
   * With `catchAllErrors`, a plain error is answered with the status `getStatusCode` finds
   * on it, its own message, and `{cause}` as info.
   */
  lemma HandleCatchAll(interceptor: Option<HttpError -> Intercepted>, e: ErrorObject)
    requires !e.Http?
    requires interceptor.None? || !interceptor.value(FromError(e, None, NoArgument, None)).Replacement?
    ensures Handle(HandlerOptions(interceptor, true), e) ==
      Respond(GetStatusCode(e), Body(MessageOf(e), map["cause" := ErrorRef(e)]))
  {
    var h := FromError(e, None, NoArgument, None);
    assert h.info == map["cause" := ErrorRef(e)];
  }

  /** An interceptor's replacement is what is sent, whatever error came in. */
  lemma HandleReplacement(options: HandlerOptions, err: ErrorObject, replacement: HttpError)
    requires err.Http? || options.catchAllErrors
    requires options.interceptor.Some?
    requires options.interceptor.value(if err.Http? then err.err else FromError(err, None, NoArgument, None)) == Replacement(replacement)
    ensures Handle(options, err) == Respond(replacement.code, Body(replacement.message, replacement.info))
  {
  }
}
