/**
 * Request validation helpers: the `Match` property validator and the filter that translates the
 * messages of a validation failure before sending the 400 response.
 */
module Validators {
  import opened Wrappers
  import opened PlainValues
  import Identity

  /**
   * JavaScript `===` on property values. `undefined` and `null` equal only themselves; primitives
   * compare by type and value; arrays, objects and dates compare by reference, and two properties of
   * a parsed request body never share one, so they are never equal.
   */
  function StrictEquals(a: Option<Value>, b: Option<Value>): (equal: bool)
    ensures equal <==> a == b && Primitive(a)
  {
    match (a, b)
    case (None, None) => true
    case (Some(Null), Some(Null)) => true
    case (Some(Bool(x)), Some(Bool(y))) => x == y
    case (Some(Num(x)), Some(Num(y))) => x == y
    case (Some(Str(x)), Some(Str(y))) => x == y
    case _ => false
  }

  /** A value with no identity of its own: everything but arrays, objects and dates. */
  predicate Primitive(v: Option<Value>) {
    v.None? || !(v.value.Arr? || v.value.Obj? || v.value.Date?)
  }

  /** `===` is symmetric. */
  lemma StrictEqualsSymmetric(a: Option<Value>, b: Option<Value>)
    ensures StrictEquals(a, b) <==> StrictEquals(b, a)
  {
  }

  /** The constraint list `@Match(property)` registers: the one related property's name. */
  function MatchConstraints(property: string): (constraints: seq<string>)
    ensures |constraints| == 1 && constraints[0] == property
  {
    [property]
  }

  /**
   * `Match.validate(value, args)`: the decorated property's value is strictly equal to the value of
   * the property the first constraint names, so validation passes exactly when both are the same
   * primitive (or both undefined). The validated object is only read.
   */
  function MatchValidate(value: Option<Value>, dto: Record, constraints: seq<string>): (valid: bool)
    requires |constraints| > 0
    ensures valid <==> value == Get(dto, constraints[0]) && Primitive(value)
  {
    StrictEquals(value, Get(dto, constraints[0]))
  }

  /** Only the first constraint is consulted. */
  lemma MatchUsesFirstConstraint(value: Option<Value>, dto: Record, constraints: seq<string>)
    requires |constraints| > 0
    ensures MatchValidate(value, dto, constraints) <==> MatchValidate(value, dto, MatchConstraints(constraints[0]))
  {
  }

  /** `@Match` on `confirm` naming `password` passes exactly when `@Match` the other way round would. */
  lemma MatchSymmetric(dto: Record, password: string, confirm: string)
    ensures MatchValidate(Get(dto, confirm), dto, MatchConstraints(password)) <==>
            MatchValidate(Get(dto, password), dto, MatchConstraints(confirm))
  {
    StrictEqualsSymmetric(Get(dto, confirm), Get(dto, password));
  }

  /** Equality is strict: the string "1" does not match the number 1, nor does a missing property match null. */
  lemma MatchIsStrict()
    ensures !MatchValidate(Some(Str("1")), map["password" := Num(1)], MatchConstraints("password"))
    ensures !MatchValidate(None, map["password" := Null], MatchConstraints("password"))
    ensures MatchValidate(Some(Str("s3cret!!")), map["password" := Str("s3cret!!")], MatchConstraints("password"))
  {
  }

  /** The `message` of a BadRequestException's response: one key or a list of keys. */
  datatype MessageField = One(key: string) | Many(keys: seq<string>)

  /** `exception.getResponse()`: the message plus every other property (`errorCode`, `error`, `statusCode`, ...). */
  datatype ExceptionResponse = ExceptionResponse(message: MessageField, others: Record)

  /** What the filter sends: a status and a body. */
  datatype Reply = Reply(status: int, body: Record)

  /** The translation language: the Accept-Language header, else `en` (an empty header counts as absent). */
  function Language(request: Identity.Request): (lang: string)
    ensures request.acceptLanguage.Some? && request.acceptLanguage.value != "" ==> lang == request.acceptLanguage.value
    ensures !(request.acceptLanguage.Some? && request.acceptLanguage.value != "") ==> lang == "en"
    ensures lang != ""
  {
    if request.acceptLanguage.Some? && request.acceptLanguage.value != "" then request.acceptLanguage.value else "en"
  }

  /** The message normalised to a list: a single key becomes a one-element list, a list is kept. */
  function Messages(m: MessageField): (keys: seq<string>)
    ensures m.One? ==> keys == [m.key]
    ensures m.Many? ==> keys == m.keys
  {
    match m
    case One(key) => [key]
    case Many(keys) => keys
  }

  /** `messages.map(key => i18n.t(key, { lang }))`. */
  function TranslateAll(keys: seq<string>, translate: (string, string) -> string, lang: string): (texts: seq<Value>)
    ensures |texts| == |keys|
    ensures forall i :: 0 <= i < |keys| ==> texts[i] == Str(translate(keys[i], lang))
  {
    if keys == [] then [] else [Str(translate(keys[0], lang))] + TranslateAll(keys[1..], translate, lang)
  }

  /**
   * `I18nValidationFilter.catch`: always status 400; the body is the exception's response with
   * `message` replaced by the list of translated messages, in order, and every other property kept.
   */
  function Catch(exception: ExceptionResponse, request: Identity.Request, translate: (string, string) -> string): (reply: Reply)
    ensures reply.status == 400
    ensures reply.body.Keys == exception.others.Keys + {"message"}
    ensures forall k :: k in exception.others && k != "message" ==> reply.body[k] == exception.others[k]
    ensures reply.body["message"].Arr?
    ensures var texts := reply.body["message"].items;
            |texts| == |Messages(exception.message)| &&
            forall i :: 0 <= i < |texts| ==>
              texts[i] == Str(translate(Messages(exception.message)[i], Language(request)))
  {
    var lang := Language(request);
    Reply(400, exception.others + map["message" := Arr(TranslateAll(Messages(exception.message), translate, lang))])
  }

  /** A single message is sent as a one-element list; a list of n keys as n translated texts. */
  lemma CatchMessageCount(exception: ExceptionResponse, request: Identity.Request, translate: (string, string) -> string)
    ensures exception.message.One? ==> |Catch(exception, request, translate).body["message"].items| == 1
    ensures exception.message.Many? ==>
              |Catch(exception, request, translate).body["message"].items| == |exception.message.keys|
  {
  }

  /** With no Accept-Language header the English texts are sent. */
  lemma CatchDefaultsToEnglish(exception: ExceptionResponse, request: Identity.Request, translate: (string, string) -> string)
    requires request.acceptLanguage.None?
    ensures forall i :: 0 <= i < |Messages(exception.message)| ==>
              Catch(exception, request, translate).body["message"].items[i] ==
                Str(translate(Messages(exception.message)[i], "en"))
  {
  }

  /** A single key and the one-element list holding it produce the same reply. */
  lemma CatchNormalisesSingleMessage(key: string, others: Record, request: Identity.Request, translate: (string, string) -> string)
    ensures Catch(ExceptionResponse(One(key), others), request, translate) ==
            Catch(ExceptionResponse(Many([key]), others), request, translate)
  {
  }
}
