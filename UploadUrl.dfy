/**
  The serverless function that issues a pre-signed upload URL
  (netlify/functions/generate-upload-url.js): the order of its guards, the
  file-name sanitisation, the object key and the response it returns.

  Strings that the function inspects character by character are JavaScript
  strings, sequences of UTF-16 code units. The environment, the random UUID,
  `JSON.parse` and the URL signer are inputs: the handler is a function of them.
 */
module GenerateUploadUrl {
  import opened Wrappers

  /** One UTF-16 code unit. */
  type CodeUnit = c: int | 0 <= c < 0x1_0000

  /** A JavaScript string. */
  type JsString = seq<CodeUnit>

  /**
    The JavaScript string of a Dafny string literal. Every literal here lies in the
    Basic Multilingual Plane, where a character is one code unit; a character outside
    it would not be one code unit and becomes U+FFFD.
   */
  function Literal(s: string): (r: JsString)
    ensures |r| == |s|
    ensures forall i :: 0 <= i < |s| && s[i] as int < 0x1_0000 ==> r[i] == s[i] as int
  {
    seq(|s|, i requires 0 <= i < |s| => if s[i] as int < 0x1_0000 then s[i] as int else 0xFFFD)
  }

  const Underscore: CodeUnit := '_' as int
  const Slash: CodeUnit := '/' as int
  const Dash: CodeUnit := '-' as int

  /** The characters `[a-zA-Z0-9._-]` that the sanitiser keeps. */
  predicate IsSafe(c: CodeUnit) {
    ('a' as int <= c <= 'z' as int) || ('A' as int <= c <= 'Z' as int)
    || ('0' as int <= c <= '9' as int)
    || c == '.' as int || c == '-' as int || c == '_' as int
  }

  /** Every character of `s` is one the sanitiser keeps. */
  predicate AllSafe(s: JsString) {
    forall i :: 0 <= i < |s| ==> IsSafe(s[i])
  }

  /**
    `filename.replace(/[^a-zA-Z0-9.\-_]/g, '_')`: each code unit outside the safe
    set becomes an underscore, every other is kept, and the length is unchanged.
   */
  function Sanitize(s: JsString): (r: JsString)
    ensures |r| == |s|
    ensures forall i :: 0 <= i < |s| ==> r[i] == if IsSafe(s[i]) then s[i] else Underscore
  {
    if s == [] then [] else [if IsSafe(s[0]) then s[0] else Underscore] + Sanitize(s[1..])
  }

  /** A sanitised name consists of safe characters only. */
  lemma SanitizeIsSafe(s: JsString)
    ensures AllSafe(Sanitize(s))
  {
  }

  /** The sanitiser changes a name exactly when the name has an unsafe character. */
  lemma {:induction false} SanitizeFixedIff(s: JsString)
    ensures Sanitize(s) == s <==> AllSafe(s)
  {
    if !AllSafe(s) {
      var i :| 0 <= i < |s| && !IsSafe(s[i]);
      assert Sanitize(s)[i] != s[i];
    }
  }

  /** Sanitising an already sanitised name returns it unchanged. */
  lemma {:induction false} SanitizeIdempotent(s: JsString)
    ensures Sanitize(Sanitize(s)) == Sanitize(s)
  {
    SanitizeIsSafe(s);
    SanitizeFixedIff(Sanitize(s));
  }

  /** The fixed folder every key lives in. */
  function UploadsPrefix(): (r: JsString)
    ensures |r| == 8 && r[7] == Slash
    ensures forall i :: 0 <= i < 7 ==> IsSafe(r[i])
  {
    Literal("uploads/")
  }

  /**
    `uploads/${uuid}-${name}`: the key starts with the folder, then the UUID and a
    dash, and ends with the name.
   */
  function ObjectKey(uuid: JsString, name: JsString): (r: JsString)
    ensures |r| == 9 + |uuid| + |name|
    ensures r[..8] == UploadsPrefix()
    ensures r[8..8 + |uuid|] == uuid && r[8 + |uuid|] == Dash
    ensures r[9 + |uuid|..] == name
  {
    UploadsPrefix() + uuid + [Dash] + name
  }

  /**
    With a UUID that has no slash (as `randomUUID` never does), a key built from any
    sanitised name has exactly one slash, the folder's: it cannot name an object
    outside `uploads/`.
   */
  lemma {:induction false} KeyStaysInUploads(uuid: JsString, filename: JsString)
    requires forall i :: 0 <= i < |uuid| ==> uuid[i] != Slash
    ensures var k := ObjectKey(uuid, Sanitize(filename));
      forall i :: 0 <= i < |k| ==> (k[i] == Slash <==> i == 7)
  {
    var name := Sanitize(filename);
    var k := ObjectKey(uuid, name);
    forall i | 0 <= i < |k| ensures k[i] == Slash <==> i == 7 {
      if i < 8 {
        assert k[i] == k[..8][i] == UploadsPrefix()[i];
      } else if i < 8 + |uuid| {
        assert k[i] == k[8..8 + |uuid|][i - 8] == uuid[i - 8];
      } else if i > 8 + |uuid| {
        assert k[i] == k[9 + |uuid|..][i - 9 - |uuid|] == name[i - 9 - |uuid|];
      }
    }
  }

  /** The parts of the incoming function event the handler looks at. */
  datatype Event = Event(httpMethod: JsString, body: Option<JsString>)

  /** The four deployment variables read from `process.env`; each may be unset. */
  datatype Env = Env(
    accountId: Option<JsString>,
    accessKeyId: Option<JsString>,
    secretAccessKey: Option<JsString>,
    bucketName: Option<JsString>)

  /** An environment variable that is set and not empty (truthy). */
  predicate IsSet(v: Option<JsString>) {
    v.Some? && v.value != []
  }

  /** All four deployment variables are set. */
  predicate Configured(env: Env) {
    IsSet(env.accountId) && IsSet(env.accessKeyId) && IsSet(env.secretAccessKey) && IsSet(env.bucketName)
  }

  /** A property value of the parsed request body (`undefined` when the property is absent). */
  datatype JsonValue =
    | Undefined
    | Null
    | Boolean(b: bool)
    | Number(x: real)
    | Str(s: JsString)
    | Compound   // an array or an object

  /** JavaScript truthiness of a property value. */
  predicate Truthy(v: JsonValue) {
    match v
    case Undefined => false
    case Null => false
    case Boolean(b) => b
    case Number(x) => x != 0.0
    case Str(s) => s != []
    case Compound => true
  }

  /**
    What `JSON.parse` yields, as far as the destructuring `{ filename, contentType }`
    sees it: a syntax error, `null` (whose destructuring throws), or any other value
    with its two properties (both `Undefined` for a value that has neither).
   */
  datatype Parsed = SyntaxError | ParsedNull | Parsed(filename: JsonValue, contentType: JsonValue)

  /** The method the handler serves. */
  const Post: JsString := Literal("POST")

  /** `event.body || '{}'`. */
  function BodyText(body: Option<JsString>): JsString {
    if body.Some? && body.value != [] then body.value else Literal("{}")
  }

  /** The request handed to the signer: the R2 client's settings and the `PutObject` command. */
  datatype PresignRequest = PresignRequest(
    region: JsString,
    endpoint: JsString,
    accessKeyId: JsString,
    secretAccessKey: JsString,
    bucket: JsString,
    key: JsString,
    contentType: JsonValue,
    expiresIn: int)

  /** The signer's outcome: a URL, or a rejection. */
  datatype Presigned = SignedUrl(url: JsString) | SigningFailed

  /** The lifetime of a signed URL, in seconds. */
  const ExpirySeconds := 300

  /** `https://${accountId}.r2.cloudflarestorage.com`. */
  function Endpoint(accountId: JsString): (r: JsString)
    ensures |r| == 8 + |accountId| + 25
    ensures r[..8] == Literal("https://") && r[8..8 + |accountId|] == accountId
    ensures r[8 + |accountId|..] == Literal(".r2.cloudflarestorage.com")
  {
    Literal("https://") + accountId + Literal(".r2.cloudflarestorage.com")
  }

  /** The signing request for `key` under a complete configuration. */
  function PresignFor(env: Env, key: JsString, contentType: JsonValue): (r: PresignRequest)
    requires Configured(env)
    ensures r.key == key && r.contentType == contentType && r.expiresIn == ExpirySeconds
    ensures r.bucket == env.bucketName.value && r.endpoint == Endpoint(env.accountId.value)
    ensures r.region == Literal("auto")
    ensures r.accessKeyId == env.accessKeyId.value && r.secretAccessKey == env.secretAccessKey.value
  {
    PresignRequest(Literal("auto"), Endpoint(env.accountId.value), env.accessKeyId.value,
                   env.secretAccessKey.value, env.bucketName.value, key, contentType, ExpirySeconds)
  }

  /**
    `k` is a key of the form `uploads/<uuid>-<name>` whose name part holds safe
    characters only.
   */
  predicate IsUploadKey(k: JsString, uuid: JsString) {
    |k| >= 9 + |uuid| && k[..8] == UploadsPrefix() && k[8..8 + |uuid|] == uuid
    && k[8 + |uuid|] == Dash && AllSafe(k[9 + |uuid|..])
  }

  /** A response body: a plain-text message, or the JSON object `{ url, key }`. */
  datatype ResponseBody = Message(text: JsString) | Credential(url: JsString, key: JsString)

  datatype Response = Response(statusCode: int, body: ResponseBody)

  const MethodNotAllowed := Response(405, Message(Literal("Method Not Allowed")))
  const NotConfigured := Response(500, Message(Literal("Cloudflare R2 environment variables not configured correctly on Netlify.")))
  const MissingFields := Response(400, Message(Literal("Missing filename or contentType in request body.")))
  const InternalError := Response(500, Message(Literal("Internal Server Error generating upload URL.")))

  /**
    The handler. Guards in order: the method, the configuration, then the `try`
    block, whose every exception becomes the internal-error response.
   */
  function Handler(event: Event, env: Env, uuid: JsString,
                   parse: JsString -> Parsed, presign: PresignRequest -> Presigned): (r: Response)
    ensures r.statusCode == 200 || r.statusCode == 400 || r.statusCode == 405 || r.statusCode == 500
    ensures r.statusCode == 405 <==> event.httpMethod != Post
    ensures r.statusCode == 200 <==> r.body.Credential?
    ensures r.statusCode != 405 && !Configured(env) ==> r == NotConfigured
  {
    if event.httpMethod != Post then MethodNotAllowed
    else if !Configured(env) then NotConfigured
    else Issue(env, uuid, parse(BodyText(event.body)), presign)
  }

  /**
    The `try` block on the parsed body: the destructured fields are checked, the
    filename sanitised (a filename that is not a string makes `replace` throw) and
    the signer called.
   */
  function Issue(env: Env, uuid: JsString, parsed: Parsed, presign: PresignRequest -> Presigned): (r: Response)
    requires Configured(env)
    ensures r.statusCode == 200 || r.statusCode == 400 || r.statusCode == 500
    ensures r.statusCode == 200 <==> r.body.Credential?
    ensures r.statusCode == 400 <==> (parsed.Parsed? && (!Truthy(parsed.filename) || !Truthy(parsed.contentType)))
  {
    match parsed
    case SyntaxError => InternalError
    case ParsedNull => InternalError
    case Parsed(filename, contentType) =>
      if !Truthy(filename) || !Truthy(contentType) then MissingFields
      else if !filename.Str? then InternalError
      else
        var key := ObjectKey(uuid, Sanitize(filename.s));
        match presign(PresignFor(env, key, contentType))
        case SignedUrl(url) => Response(200, Credential(url, key))
        case SigningFailed => InternalError
  }

  /** Every key the handler hands out is `uploads/<uuid>-<name>` with a name of safe characters. */
  lemma IssuedKeyIsUploadKey(event: Event, env: Env, uuid: JsString,
                             parse: JsString -> Parsed, presign: PresignRequest -> Presigned)
    requires Handler(event, env, uuid, parse, presign).body.Credential?
    ensures IsUploadKey(Handler(event, env, uuid, parse, presign).body.key, uuid)
  {
    var p := parse(BodyText(event.body));
    SanitizeIsSafe(p.filename.s);
  }

  /** Any method but POST is refused, whatever the configuration, body and collaborators. */
  lemma NonPostRefused(event: Event, env: Env, uuid: JsString,
                       parse: JsString -> Parsed, presign: PresignRequest -> Presigned)
    requires event.httpMethod != Post
    ensures Handler(event, env, uuid, parse, presign) == MethodNotAllowed
  {
  }

  /**
    A POST with an incomplete configuration fails before its body is parsed: the
    response is the same for any body and any parser.
   */
  lemma ConfigurationCheckedBeforeBody(event: Event, other: Event, env: Env, uuid: JsString,
                                       parse: JsString -> Parsed, otherParse: JsString -> Parsed,
                                       presign: PresignRequest -> Presigned)
    requires event.httpMethod == Post && other.httpMethod == Post && !Configured(env)
    ensures Handler(event, env, uuid, parse, presign) == NotConfigured
    ensures Handler(other, env, uuid, otherParse, presign) == Handler(event, env, uuid, parse, presign)
  {
  }

  /** A body that does not parse, or parses to `null`, ends in the internal error. */
  lemma UnparsableBodyFails(event: Event, env: Env, uuid: JsString,
                            parse: JsString -> Parsed, presign: PresignRequest -> Presigned)
    requires event.httpMethod == Post && Configured(env)
    requires !parse(BodyText(event.body)).Parsed?
    ensures Handler(event, env, uuid, parse, presign) == InternalError
  {
  }

  /** A falsy `filename` or `contentType` is a client error, and no key or URL is issued. */
  lemma MissingFieldRejected(event: Event, env: Env, uuid: JsString,
                             parse: JsString -> Parsed, presign: PresignRequest -> Presigned)
    requires event.httpMethod == Post && Configured(env)
    requires parse(BodyText(event.body)).Parsed?
    requires !Truthy(parse(BodyText(event.body)).filename) || !Truthy(parse(BodyText(event.body)).contentType)
    ensures Handler(event, env, uuid, parse, presign) == MissingFields
    ensures !Handler(event, env, uuid, parse, presign).body.Credential?
  {
  }

  /** An absent or empty body is parsed as `{}`, which has neither field: a client error. */
  lemma AbsentBodyRejected(event: Event, env: Env, uuid: JsString,
                           parse: JsString -> Parsed, presign: PresignRequest -> Presigned)
    requires event.httpMethod == Post && Configured(env)
    requires event.body.None? || event.body.value == []
    requires parse(Literal("{}")) == Parsed(Undefined, Undefined)
    ensures Handler(event, env, uuid, parse, presign) == MissingFields
  {
  }

  /** An absent or empty body is handled exactly like the body `{}`. */
  lemma AbsentBodyReadAsEmptyObject(event: Event, env: Env, uuid: JsString,
                                    parse: JsString -> Parsed, presign: PresignRequest -> Presigned)
    requires event.body.None? || event.body.value == []
    ensures Handler(event, env, uuid, parse, presign)
         == Handler(event.(body := Some(Literal("{}"))), env, uuid, parse, presign)
  {
  }

  /** A truthy `filename` that is not a string makes `replace` throw: the internal error. */
  lemma NonStringFilenameFails(event: Event, env: Env, uuid: JsString,
                               parse: JsString -> Parsed, presign: PresignRequest -> Presigned)
    requires event.httpMethod == Post && Configured(env)
    requires parse(BodyText(event.body)).Parsed?
    requires Truthy(parse(BodyText(event.body)).filename) && Truthy(parse(BodyText(event.body)).contentType)
    requires !parse(BodyText(event.body)).filename.Str?
    ensures Handler(event, env, uuid, parse, presign) == InternalError
  {
  }

  /**
    With both fields present and a string filename, the signer is asked for the key
    `uploads/<uuid>-<sanitised name>` with the request's content type; its URL and
    that key are the 200 response, and its failure is the internal error.
   */
  lemma SignedResponse(event: Event, env: Env, uuid: JsString,
                       parse: JsString -> Parsed, presign: PresignRequest -> Presigned,
                       filename: JsString, contentType: JsonValue)
    requires event.httpMethod == Post && Configured(env)
    requires parse(BodyText(event.body)) == Parsed(Str(filename), contentType)
    requires filename != [] && Truthy(contentType)
    ensures var key := ObjectKey(uuid, Sanitize(filename));
      Handler(event, env, uuid, parse, presign)
      == match presign(PresignFor(env, key, contentType))
         case SignedUrl(url) => Response(200, Credential(url, key))
         case SigningFailed => InternalError
  {
    var key := ObjectKey(uuid, Sanitize(filename));
    var signed := presign(PresignFor(env, key, contentType));
    assert Handler(event, env, uuid, parse, presign) == Issue(env, uuid, Parsed(Str(filename), contentType), presign);
    if signed.SignedUrl? {
      assert Handler(event, env, uuid, parse, presign) == Response(200, Credential(signed.url, key));
    } else {
      assert Handler(event, env, uuid, parse, presign) == InternalError;
    }
  }
}
