/** The serverless handler that forwards a circle grid to the spreadsheet
    script (webapp-gis/api/salva-griglia.js): a chain of guards from the
    request to either an error response or a validated payload, then the
    forwarding of the upstream reply. The upstream call is a parameter. */
module SaveGrid {
  import opened Optional
  import opened JsText
  import opened Json

  // ---------------------------------------------------------------------
  // parseInt(v, 10)

  predicate IsDigit(c: char) {
    '0' <= c <= '9'
  }

  /** Length of the run of decimal digits at the start of `s`. */
  function DigitRun(s: string): (n: nat)
    ensures n <= |s|
    ensures forall k :: 0 <= k < n ==> IsDigit(s[k])
    ensures n == |s| || !IsDigit(s[n])
  {
    if s == [] || !IsDigit(s[0]) then 0 else 1 + DigitRun(s[1..])
  }

  function DigitValue(c: char): nat
    requires IsDigit(c)
  {
    c as int - '0' as int
  }

  /** The number a run of decimal digits denotes. */
  function DigitsValue(d: string): nat
    requires forall k :: 0 <= k < |d| ==> IsDigit(d[k])
    decreases |d|
  {
    if d == [] then 0 else DigitsValue(d[..|d| - 1]) * 10 + DigitValue(d[|d| - 1])
  }

  /** The text after an optional sign. */
  function Unsigned(t: string): string {
    if |t| > 0 && (t[0] == '-' || t[0] == '+') then t[1..] else t
  }

  /** `parseInt(s, 10)`: leading white space is skipped, an optional sign is
      read, then the longest run of decimal digits; without a digit the
      result is NaN (None). Whatever follows the digits is ignored. */
  function ParseInt(s: string): (r: Option<int>)
    ensures r.None? <==> DigitRun(Unsigned(TrimStart(s))) == 0
  {
    var t := TrimStart(s);
    var u := Unsigned(t);
    var n := DigitRun(u);
    if n == 0 then None
    else
      var v: int := DigitsValue(u[..n]);
      Some(if |t| > 0 && t[0] == '-' then -v else v)
  }

  function DigitChar(k: nat): (c: char)
    requires k < 10
    ensures IsDigit(c) && DigitValue(c) == k
  {
    ('0' as int + k) as char
  }

  /** The canonical decimal digits of `n`. */
  function Digits(n: nat): (r: string)
    ensures |r| > 0
    ensures forall k :: 0 <= k < |r| ==> IsDigit(r[k])
  {
    if n < 10 then [DigitChar(n)] else Digits(n / 10) + [DigitChar(n % 10)]
  }

  /** `String(n)` for an integer `n`. */
  function DecimalText(n: int): string {
    if n < 0 then "-" + Digits(-n) else Digits(n)
  }

  lemma {:induction false} DigitsValueOf(n: nat)
    ensures DigitsValue(Digits(n)) == n
  {
    if n >= 10 {
      DigitsValueOf(n / 10);
      var d := Digits(n);
      assert d[..|d| - 1] == Digits(n / 10);
    }
  }

  lemma {:induction false} DigitRunOf(d: string, rest: string)
    requires forall k :: 0 <= k < |d| ==> IsDigit(d[k])
    requires rest == [] || !IsDigit(rest[0])
    ensures DigitRun(d + rest) == |d|
    decreases |d|
  {
    if d != [] {
      assert (d + rest)[1..] == d[1..] + rest;
      DigitRunOf(d[1..], rest);
    } else {
      assert d + rest == rest;
    }
  }

  /** `parseInt` reads back the integer `String(n)` writes, whatever
      non-digit text follows it (so "300.5" gives 300). */
  lemma ParseIntDecimal(n: int, rest: string)
    requires rest == [] || !IsDigit(rest[0])
    ensures ParseInt(DecimalText(n) + rest) == Some(n)
  {
    var s := DecimalText(n) + rest;
    var d := Digits(if n < 0 then -n else n);
    assert !IsSpace(s[0]);
    assert TrimStart(s) == s;
    if n < 0 {
      assert s == "-" + (d + rest);
      assert Unsigned(s) == d + rest;
    } else {
      assert s == d + rest;
      assert Unsigned(s) == d + rest;
    }
    DigitRunOf(d, rest);
    assert (d + rest)[..|d|] == d;
    DigitsValueOf(if n < 0 then -n else n);
  }

  /** The strings `String(v)` gives for `undefined`, `null` and the booleans
      parse to NaN. */
  lemma ParseIntOfWords()
    ensures ParseInt("undefined") == None && ParseInt("null") == None
    ensures ParseInt("true") == None && ParseInt("false") == None && ParseInt("") == None
  {
    assert !IsSpace('u') && !IsSpace('n') && !IsSpace('t') && !IsSpace('f');
  }

  // ---------------------------------------------------------------------
  // Requests, responses and the payload

  /** The server context: `GOOGLE_SCRIPT_URL` and `GOOGLE_SCRIPT_TOKEN`. */
  datatype Env = Env(scriptUrl: Option<string>, token: Option<string>)

  /** A request: its HTTP method and `req.body`, which is None when absent, a
      `JStr` when the platform hands over the raw text, and any other value
      when it hands over an already parsed body. */
  datatype Request = Request(verb: string, body: Option<Json>)

  /** `res.status(status).json(body)`, with the `Allow` header when set. */
  datatype Response = Response(status: int, allow: Option<string>, body: Json)

  /** What the handler ends with: a response, or the TypeError thrown by
      destructuring a body that parsed to `null`. */
  datatype Outcome = Respond(response: Response) | Crash

  /** The object sent to the script. */
  datatype Payload = Payload(token: string, centers: seq<Json>, searchRadiusM: int,
                             propertyType: string, area: Option<string>)

  /** The guards' verdict: an early response, the crash, or the payload to
      send to the script URL. */
  datatype Check = Reject(response: Response) | Fail | Accept(url: string, payload: Payload)

  /** The reply of the upstream `fetch`: a thrown error with its message, or
      a status with the reply text. */
  datatype Upstream = NetworkFailure(message: string) | Reply(status: int, text: string)

  /** The foreign pieces: `JSON.parse` (None when it throws) and `String(v)`
      for numbers, arrays and objects. */
  datatype Codec = Codec(parse: string -> Option<Json>, show: Json -> string)

  const VALID_TYPES: seq<string> := ["immobili_residenziali", "immobili_non_residenziali", "pertinenziali"]
  const DEFAULT_TYPE: string := "immobili_residenziali"
  const RADIUS_MIN: int := 50
  const RADIUS_MAX: int := 20000

  /** `{ success: false, message }` with a status. */
  function Failure(status: int, message: string): Response {
    Response(status, None, JObj(map["success" := JBool(false), "message" := JStr(message)]))
  }

  const METHOD_NOT_ALLOWED: Response := Response(405, Some("POST"),
    JObj(map["success" := JBool(false), "message" := JStr("Method Not Allowed")]))
  const MISSING_CONFIG: Response :=
    Failure(500, "Configurazione mancante: GOOGLE_SCRIPT_URL e GOOGLE_SCRIPT_TOKEN")
  const BAD_JSON: Response := Failure(400, "Body JSON non valido")
  const BAD_CENTERS: Response := Failure(400, "centers deve essere un array non vuoto")
  const BAD_RADIUS: Response := Failure(400, "search_radius_m deve essere tra 50 e 20000")
  const NOT_JSON_MESSAGE: string := "Risposta non valida dallo script (non è JSON)."
  const NETWORK_MESSAGE: string := "Errore di rete verso Google Script"

  /** A JavaScript string is truthy when it is not empty. */
  predicate Truthy(s: Option<string>) {
    s.Some? && s.value != ""
  }

  /** The falsy values a parsed body can hold (a string body is parsed instead). */
  predicate Falsy(v: Json) {
    v == JNull || v == JBool(false) || v == JNum(0.0)
  }

  /** `typeof req.body === "string" ? JSON.parse(req.body) : req.body || {}`;
      None when `JSON.parse` throws. */
  function BodyValue(body: Option<Json>, codec: Codec): (r: Option<Json>)
    ensures body.Some? && body.value.JStr? ==> r == codec.parse(body.value.s)
    ensures body.None? || (Falsy(body.value)) ==> r == Some(JObj(map[]))
    ensures body.Some? && !body.value.JStr? && !Falsy(body.value) ==> r == body
  {
    match body
    case None => Some(JObj(map[]))
    case Some(JStr(s)) => codec.parse(s)
    case Some(v) => if Falsy(v) then Some(JObj(map[])) else Some(v)
  }

  /** `String(v)`, with None for `undefined`. */
  function StringOf(v: Option<Json>, codec: Codec): string {
    match v
    case None => "undefined"
    case Some(JNull) => "null"
    case Some(JBool(b)) => if b then "true" else "false"
    case Some(JStr(s)) => s
    case Some(other) => codec.show(other)
  }

  /** The property type sent on: the given one when it is one of the three
      valid strings, the residential default otherwise. */
  function PropertyType(v: Option<Json>): (t: string)
    ensures t in VALID_TYPES
    ensures v.Some? && v.value.JStr? && v.value.s in VALID_TYPES ==> t == v.value.s
    ensures !(v.Some? && v.value.JStr? && v.value.s in VALID_TYPES) ==> t == DEFAULT_TYPE
  {
    if v.Some? && v.value.JStr? && v.value.s in VALID_TYPES then v.value.s else DEFAULT_TYPE
  }

  /** `area` is copied only when it is a string. */
  function AreaOf(v: Option<Json>): (a: Option<string>)
    ensures a.Some? <==> v.Some? && v.value.JStr?
    ensures a.Some? ==> a.value == v.value.s
  {
    if v.Some? && v.value.JStr? then Some(v.value.s) else None
  }

  /** The guards of `handler`, in source order. */
  function Validate(req: Request, env: Env, codec: Codec): (c: Check)
    ensures req.verb != "POST" ==> c == Reject(METHOD_NOT_ALLOWED)
    ensures req.verb == "POST" && !(Truthy(env.scriptUrl) && Truthy(env.token)) ==> c == Reject(MISSING_CONFIG)
    ensures req.verb == "POST" && Truthy(env.scriptUrl) && Truthy(env.token) ==>
              BodyValue(req.body, codec).None? ==> c == Reject(BAD_JSON)
    ensures req.verb == "POST" && Truthy(env.scriptUrl) && Truthy(env.token)
            && BodyValue(req.body, codec).Some? && BodyValue(req.body, codec) != Some(JNull) ==>
              c == ValidateBody(BodyValue(req.body, codec).value, env.scriptUrl.value, env.token.value, codec)
    ensures c == Fail <==> req.verb == "POST" && Truthy(env.scriptUrl) && Truthy(env.token)
                           && BodyValue(req.body, codec) == Some(JNull)
    ensures c.Accept? ==> BodyValue(req.body, codec).Some?
    ensures c.Accept? ==>
              var body := BodyValue(req.body, codec).value;
              && c.url == env.scriptUrl.value
              && c.payload.token == env.token.value
              && Field(body, "centers") == Some(JArr(c.payload.centers)) && |c.payload.centers| > 0
              && ParseInt(StringOf(Field(body, "search_radius_m"), codec)) == Some(c.payload.searchRadiusM)
              && RADIUS_MIN <= c.payload.searchRadiusM <= RADIUS_MAX
              && c.payload.propertyType == PropertyType(Field(body, "property_type"))
              && c.payload.area == AreaOf(Field(body, "area"))
  {
    if req.verb != "POST" then Reject(METHOD_NOT_ALLOWED)
    else if !(Truthy(env.scriptUrl) && Truthy(env.token)) then Reject(MISSING_CONFIG)
    else match BodyValue(req.body, codec)
      case None => Reject(BAD_JSON)
      case Some(body) => if body == JNull then Fail else ValidateBody(body, env.scriptUrl.value, env.token.value, codec)
  }

  /** `centers` is a non-empty array. */
  predicate CentersOk(body: Json) {
    var centers := Field(body, "centers");
    centers.Some? && centers.value.JArr? && |centers.value.items| > 0
  }

  /** `parseInt(search_radius_m, 10)`. */
  function Radius(body: Json, codec: Codec): Option<int> {
    ParseInt(StringOf(Field(body, "search_radius_m"), codec))
  }

  /** The radius is a number in [50, 20000] metres. */
  predicate RadiusOk(radius: Option<int>) {
    radius.Some? && RADIUS_MIN <= radius.value <= RADIUS_MAX
  }

  /** The guards on the parsed body: `centers`, then `search_radius_m`; a
      body that passes both gives the payload. */
  function ValidateBody(body: Json, url: string, token: string, codec: Codec): (c: Check)
    ensures !CentersOk(body) ==> c == Reject(BAD_CENTERS)
    ensures CentersOk(body) && !RadiusOk(Radius(body, codec)) ==> c == Reject(BAD_RADIUS)
    ensures c.Accept? <==> CentersOk(body) && RadiusOk(Radius(body, codec))
    ensures c.Reject? || c.Accept?
  {
    if !CentersOk(body) then Reject(BAD_CENTERS)
    else
      var radius := Radius(body, codec);
      if !RadiusOk(radius) then Reject(BAD_RADIUS)
      else Accept(url, Payload(token, Field(body, "centers").value.items, radius.value,
                               PropertyType(Field(body, "property_type")), AreaOf(Field(body, "area"))))
  }

  // ---------------------------------------------------------------------
  // Forwarding the upstream reply

  function MinNat(a: nat, b: nat): nat { if a <= b then a else b }

  /** `text.slice(0, 400).replace(/\s+/g, " ").trim()`, then at most 300
      characters of it, or "(vuoto)" when nothing is left. The collapse and
      the trim touch only white space, so the cleaned text carries the
      non-white-space characters of the first 400, in order, and the
      placeholder appears exactly when these are all white space. */
  function Preview(text: string): (p: string)
    ensures 0 < |p| <= 300
    ensures AllSpace(text[..MinNat(400, |text|)]) ==> p == "(vuoto)"
    ensures !AllSpace(text[..MinNat(400, |text|)]) ==>
              var cleaned := Trim(CollapseSpaces(text[..MinNat(400, |text|)]));
              && NonSpace(cleaned) == NonSpace(text[..MinNat(400, |text|)])
              && p == cleaned[..MinNat(300, |cleaned|)]
  {
    var head := text[..MinNat(400, |text|)];
    var cleaned := Trim(CollapseSpaces(head));
    NonSpaceCollapse(head);
    NonSpaceTrim(CollapseSpaces(head));
    NonSpaceEmpty(head);
    NonSpaceEmpty(cleaned);
    if cleaned != "" then cleaned[..MinNat(300, |cleaned|)] else "(vuoto)"
  }

  /** `response.ok`. */
  predicate Ok(status: int) {
    200 <= status <= 299
  }

  /** The response built from the upstream reply. */
  function Forward(up: Upstream, codec: Codec): (r: Response)
    ensures up.NetworkFailure? ==> r.status == 502
    ensures up.Reply? && codec.parse(up.text).None? ==> r.status == 502
    ensures up.Reply? && codec.parse(up.text).Some? ==>
              r.body == codec.parse(up.text).value && r.status == (if Ok(up.status) then 200 else up.status)
    ensures r.allow.None?
  {
    match up
    case NetworkFailure(message) =>
      Failure(502, if message != "" then message else NETWORK_MESSAGE)
    case Reply(status, text) =>
      match codec.parse(text)
      case None =>
        Response(502, None, JObj(map["success" := JBool(false), "message" := JStr(NOT_JSON_MESSAGE),
                                     "debug" := JNum(status as real), "preview" := JStr(Preview(text))]))
      case Some(data) => Response(if Ok(status) then 200 else status, None, data)
  }

  /** `handler(req, res)`, with `fetch(url, payload)` as a parameter. */
  function Handler(req: Request, env: Env, codec: Codec, fetch: (string, Payload) -> Upstream): (o: Outcome)
    ensures Validate(req, env, codec).Reject? ==> o == Respond(Validate(req, env, codec).response)
    ensures Validate(req, env, codec).Fail? ==> o == Crash
    ensures Validate(req, env, codec).Accept? ==>
              var c := Validate(req, env, codec);
              o == Respond(Forward(fetch(c.url, c.payload), codec))
  {
    match Validate(req, env, codec)
    case Reject(response) => Respond(response)
    case Fail => Crash
    case Accept(url, payload) => Respond(Forward(fetch(url, payload), codec))
  }

  // ---------------------------------------------------------------------
  // Properties

  /** Only a POST reaches the upstream, and only with the configured URL and token. */
  lemma OnlyPostReachesUpstream(req: Request, env: Env, codec: Codec)
    ensures Validate(req, env, codec).Accept? ==>
              req.verb == "POST" && Truthy(env.scriptUrl) && Truthy(env.token)
  {
  }

  /** The property type never causes a rejection: replacing it in an object
      body by any value leaves the verdict's kind unchanged. */
  lemma PropertyTypeNeverRejects(req: Request, env: Env, codec: Codec, members: map<string, Json>, v: Json)
    requires req.body == Some(JObj(members))
    ensures var req2 := Request(req.verb, Some(JObj(members["property_type" := v])));
            && (Validate(req, env, codec).Accept? <==> Validate(req2, env, codec).Accept?)
            && (Validate(req, env, codec).Reject? ==> Validate(req2, env, codec) == Validate(req, env, codec))
  {
    var req2 := Request(req.verb, Some(JObj(members["property_type" := v])));
    var b1, b2 := JObj(members), JObj(members["property_type" := v]);
    assert !Falsy(b1) && !Falsy(b2);
    assert Field(b1, "centers") == Field(b2, "centers");
    assert Field(b1, "search_radius_m") == Field(b2, "search_radius_m");
  }

  /** A radius given as an integer, either as a JSON number (as the
      application sends it, `String` of it being its decimal text) or as
      the decimal string, is accepted unchanged in [50, 20000] (when
      `centers` is a non-empty array); one outside is rejected. */
  lemma IntegerRadius(env: Env, codec: Codec, members: map<string, Json>, n: int)
    requires Truthy(env.scriptUrl) && Truthy(env.token)
    requires "centers" in members && members["centers"].JArr? && |members["centers"].items| > 0
    requires "search_radius_m" in members
    requires members["search_radius_m"] == JStr(DecimalText(n))
             || (members["search_radius_m"] == JNum(n as real) && codec.show(JNum(n as real)) == DecimalText(n))
    ensures var c := Validate(Request("POST", Some(JObj(members))), env, codec);
            && (RADIUS_MIN <= n <= RADIUS_MAX ==> c.Accept? && c.payload.searchRadiusM == n)
            && (!(RADIUS_MIN <= n <= RADIUS_MAX) ==> c == Reject(BAD_RADIUS))
  {
    var body := JObj(members);
    assert StringOf(Field(body, "search_radius_m"), codec) == DecimalText(n);
    ParseIntDecimal(n, "");
    assert DecimalText(n) + "" == DecimalText(n);
    assert Radius(body, codec) == Some(n);
    assert CentersOk(body);
    assert !Falsy(body);
    assert BodyValue(Some(body), codec) == Some(body);
  }

  /** An upstream JSON reply is passed through: a successful status becomes
      200, any other status is forwarded as it is. */
  lemma UpstreamStatus(up: Upstream, codec: Codec)
    requires up.Reply? && codec.parse(up.text).Some?
    ensures Ok(up.status) ==> Forward(up, codec).status == 200
    ensures !Ok(up.status) ==> Forward(up, codec).status == up.status
    ensures Forward(up, codec).body == codec.parse(up.text).value
  {
  }
}
