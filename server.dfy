/**
 * The request handling of server/server.py: the `/biometrics` validator and the record
 * of the latest biometrics it updates (the same handler, with other message texts, is
 * repeated in server/main.py), and the prompt check of the `/gemini` proxy.
 */
module Server {
  import opened Wrappers

  // ---------------------------------------------------------------------------
  // JSON values and the Python operations applied to them

  /** A decoded JSON value as `request.get_json()` returns it; None and `null` are both JNull. */
  datatype Json =
    | JNull
    | JBool(b: bool)
    | JInt(i: int)
    | JFloat(f: real)
    | JStr(s: string)
    | JList(items: seq<Json>)
    | JObject(fields: map<string, Json>)

  /** What `request.get_json()` does: return a value, or raise (malformed body) with a message. */
  datatype Body = Decoded(json: Json) | Undecodable(message: string)

  /** The Python type name of the value, as it appears in exception messages. */
  function TypeName(j: Json): string {
    match j
    case JNull => "NoneType"
    case JBool(_) => "bool"
    case JInt(_) => "int"
    case JFloat(_) => "float"
    case JStr(_) => "str"
    case JList(_) => "list"
    case JObject(_) => "dict"
  }

  /** The message of the AttributeError raised by `data.get(...)` on a value that is not a dict. */
  function NoGet(data: Json): string {
    "'" + TypeName(data) + "' object has no attribute 'get'"
  }

  /** The message of the TypeError raised by `key in data` on a value that is not a container. */
  function NotIterable(data: Json): string {
    "argument of type '" + TypeName(data) + "' is not iterable"
  }

  /** Python truthiness of a JSON value. */
  predicate Truthy(j: Json) {
    match j
    case JNull => false
    case JBool(b) => b
    case JInt(i) => i != 0
    case JFloat(f) => f != 0.0
    case JStr(s) => s != ""
    case JList(items) => items != []
    case JObject(fields) => fields != map[]
  }

  /** `k in s` for strings: k occurs in s as a contiguous piece. */
  predicate IsSubstring(k: string, s: string)
    decreases |s|
  {
    k <= s || (s != [] && IsSubstring(k, s[1..]))
  }

  /**
   * `key in data` for a string key: a key test on a dict, an element test on a list, a
   * substring test on a string; Err with the TypeError's message on anything else.
   */
  function Contains(data: Json, key: string): (r: Result<bool, string>)
    ensures r.Err? <==> !(data.JObject? || data.JList? || data.JStr?)
    ensures data.JObject? ==> r == Ok(key in data.fields)
    ensures data.JList? ==> r == Ok(JStr(key) in data.items)
  {
    match data
    case JObject(fields) => Ok(key in fields)
    case JList(items) => Ok(JStr(key) in items)
    case JStr(s) => Ok(IsSubstring(key, s))
    case _ => Err(NotIterable(data))
  }

  /** `isinstance(x, (int, float))`; a bool is an int in Python, so it passes. */
  predicate IsNumeric(j: Json) {
    j.JInt? || j.JFloat? || j.JBool?
  }

  /** 2 to the power n. */
  function Pow2(n: nat): (p: nat)
    ensures p >= 1
  {
    if n == 0 then 1 else 2 * Pow2(n - 1)
  }

  /**
   * The integers `float()` converts: those that do not round beyond the largest double,
   * that is whose magnitude stays below 2^1024 - 2^970. Larger ones raise OverflowError.
   */
  predicate FitsFloat(i: int) {
    -(Pow2(1024) - Pow2(970)) < i < Pow2(1024) - Pow2(970)
  }

  /** `float(x)` for a numeric value that converts (exact, rounding is not modelled). */
  function AsFloat(j: Json): real
    requires IsNumeric(j) && (j.JInt? ==> FitsFloat(j.i))
  {
    match j
    case JInt(i) => i as real
    case JFloat(f) => f
    case JBool(b) => if b then 1.0 else 0.0
  }

  /** `float(x)` may raise: only for an integer too large for a double. */
  predicate Converts(j: Json)
    requires IsNumeric(j)
  {
    j.JInt? ==> FitsFloat(j.i)
  }

  // ---------------------------------------------------------------------------
  // The /biometrics validator

  /** Why a /biometrics request is refused; Crashed carries the text of the exception caught. */
  datatype Rejection = NoJson | MissingFields | NotNumeric | Crashed(message: string)

  /** The keys a biometrics body must carry. */
  const PulseKey: string := "pulse_average"
  const BreathingKey: string := "breathing_average"

  /**
   * The three checks of `receive_biometrics`, in their order: a body, then both keys
   * (`"pulse_average" not in data or "breathing_average" not in data`), then both values
   * numeric. The values read by `data.get` come back; a `get` on a list or a string
   * raises AttributeError.
   */
  function Validate(body: Body): (r: Result<(Json, Json), Rejection>)
    // a body `get_json()` cannot decode (a request without a JSON body included) raises,
    // and the exception is caught with its message
    ensures body.Undecodable? ==> r == Err(Crashed(body.message))
    // the first check: a JSON null body
    ensures (r == Err(NoJson)) <==> body == Decoded(JNull)
    // success: an object carrying both keys with numeric values, which come back
    ensures r.Ok? <==>
      && body.Decoded? && body.json.JObject?
      && PulseKey in body.json.fields && BreathingKey in body.json.fields
      && IsNumeric(body.json.fields[PulseKey]) && IsNumeric(body.json.fields[BreathingKey])
    ensures r.Ok? ==> r.value == (body.json.fields[PulseKey], body.json.fields[BreathingKey])
    // an object missing a key is refused before its values are looked at
    ensures body.Decoded? && body.json.JObject? ==>
      (r == Err(MissingFields) <==> PulseKey !in body.json.fields || BreathingKey !in body.json.fields)
    // an object carrying both keys with a non-numeric value is refused as NotNumeric, and
    // NotNumeric is given for nothing else
    ensures r == Err(NotNumeric) ==> body.Decoded? && body.json.JObject?
    ensures body.Decoded? && body.json.JObject? ==>
      (r == Err(NotNumeric) <==>
        && PulseKey in body.json.fields && BreathingKey in body.json.fields
        && !(IsNumeric(body.json.fields[PulseKey]) && IsNumeric(body.json.fields[BreathingKey])))
    // the validation of an object never raises: every refusal of an object is a 400
    ensures body.Decoded? && body.json.JObject? ==> !(r.Err? && r.error.Crashed?)
  {
    match body
    case Undecodable(message) => Err(Crashed(message))
    case Decoded(data) =>
      if data == JNull then Err(NoJson)
      else
        match Contains(data, PulseKey)
        case Err(message) => Err(Crashed(message))
        case Ok(hasPulse) =>
          if !hasPulse || !Contains(data, BreathingKey).value then Err(MissingFields)
          else if !data.JObject? then
            Err(Crashed(NoGet(data)))
          else
            var pulse, breathing := data.fields[PulseKey], data.fields[BreathingKey];
            if !IsNumeric(pulse) || !IsNumeric(breathing) then Err(NotNumeric)
            else Ok((pulse, breathing))
  }

  /** A boolean passes as a number: `{"pulse_average": true, ...}` is accepted and stored as 1.0. */
  lemma BooleansAreNumbers(b1: bool, b2: bool)
    ensures var body := Decoded(JObject(map[PulseKey := JBool(b1), BreathingKey := JBool(b2)]));
      Validate(body) == Ok((JBool(b1), JBool(b2)))
  {
  }

  /** A list holding both key names passes the key check, then `data.get` raises AttributeError. */
  lemma ListBodyCrashes(items: seq<Json>)
    requires JStr(PulseKey) in items && JStr(BreathingKey) in items
    ensures Validate(Decoded(JList(items))) == Err(Crashed(NoGet(JList(items))))
  {
  }

  /** A string containing both key names passes the key check, then `data.get` raises AttributeError. */
  lemma StringBodyCrashes(text: string)
    requires IsSubstring(PulseKey, text) && IsSubstring(BreathingKey, text)
    ensures Validate(Decoded(JStr(text))) == Err(Crashed(NoGet(JStr(text))))
  {
  }

  /** A number or a boolean is refused with the TypeError raised by `in`. */
  lemma NumberBodyCrashes(data: Json)
    requires data.JInt? || data.JFloat? || data.JBool?
    ensures Validate(Decoded(data)) == Err(Crashed(NotIterable(data)))
  {
  }

  /** A list or a string lacking either key name is refused as missing the fields. */
  lemma ContainerMissesFields(data: Json)
    requires data.JList? || data.JStr?
    requires !Contains(data, PulseKey).value || !Contains(data, BreathingKey).value
    ensures Validate(Decoded(data)) == Err(MissingFields)
  {
  }

  /** Which of the two copies of the handler answers: their message texts differ. */
  datatype Handler = ServerPy | MainPy

  /** The `message` of a 400 or 500 reply. */
  function RejectionMessage(h: Handler, why: Rejection): string {
    match why
    case NoJson => "No JSON data received"
    case MissingFields =>
      if h == ServerPy then "Missing required fields: pulse_average and breathing_average"
      else "Missing pulse_average or breathing_average"
    case NotNumeric =>
      if h == ServerPy then "pulse_average and breathing_average must be numeric values"
      else "pulse_average and breathing_average must be numeric"
    case Crashed(message) => message
  }

  /** The status a rejection is answered with: 400 for a failed check, 500 for an exception. */
  function RejectionStatus(why: Rejection): (code: nat)
    ensures code == 500 <==> why.Crashed?
    ensures code == 400 || code == 500
  {
    if why.Crashed? then 500 else 400
  }

  /**
   * The JSON reply: on success the values as submitted (not as stored) with the new
   * timestamp, and, from server/server.py only, a confirmation message.
   */
  datatype BioReply =
    | Accepted(pulse: Json, breathing: Json, timestamp: string, message: Option<string>)
    | Refused(error: string)

  /** The `latest_biometrics` record: the last accepted pulse and breathing averages and when. */
  class BiometricsStore {
    var pulse: Option<real>
    var breathing: Option<real>
    var timestamp: Option<string>

    /** `{"pulse_average": None, "breathing_average": None, "timestamp": None}` */
    constructor ()
      ensures pulse == None && breathing == None && timestamp == None
    {
      pulse := None;
      breathing := None;
      timestamp := None;
    }

    /**
     * `receive_biometrics()` with the request body and `datetime.now().isoformat()`.
     * A refused request leaves the record alone; an accepted one stores both values as
     * floats and the timestamp, one field after the other: an integer too large for a
     * float raises in the middle, after a converted pulse has been stored.
     */
    method Receive(h: Handler, body: Body, now: string) returns (status: nat, reply: BioReply)
      modifies this
      ensures Validate(body).Err? ==>
        && status == RejectionStatus(Validate(body).error)
        && reply == Refused(RejectionMessage(h, Validate(body).error))
        && pulse == old(pulse) && breathing == old(breathing) && timestamp == old(timestamp)
      ensures Validate(body).Ok? ==>
        var (p, b) := Validate(body).value;
        && (Converts(p) && Converts(b) ==>
              && status == 200
              && pulse == Some(AsFloat(p)) && breathing == Some(AsFloat(b)) && timestamp == Some(now)
              && reply == Accepted(p, b, now, if h == ServerPy then Some("Biometric data received") else None))
        && (!Converts(p) ==>
              && status == 500 && reply == Refused("int too large to convert to float")
              && pulse == old(pulse) && breathing == old(breathing) && timestamp == old(timestamp))
        && (Converts(p) && !Converts(b) ==>
              && status == 500 && reply == Refused("int too large to convert to float")
              && pulse == Some(AsFloat(p)) && breathing == old(breathing) && timestamp == old(timestamp))
    {
      match Validate(body)
      case Err(why) =>
        status, reply := RejectionStatus(why), Refused(RejectionMessage(h, why));
      case Ok((p, b)) =>
        if !Converts(p) {
          return 500, Refused("int too large to convert to float");
        }
        pulse := Some(AsFloat(p));
        if !Converts(b) {
          return 500, Refused("int too large to convert to float");
        }
        breathing := Some(AsFloat(b));
        timestamp := Some(now);
        status := 200;
        reply := Accepted(p, b, now, if h == ServerPy then Some("Biometric data received") else None);
    }
  }

  // ---------------------------------------------------------------------------
  // The /gemini proxy of server/server.py

  /** The proxy's reply: 400 for a missing prompt, 200 with the model's text, 500 on an exception. */
  datatype ProxyReply = PromptMissing | Answered(text: Option<string>) | Failed(message: string)
  {
    /** The HTTP status the reply is sent with. */
    function Status(): nat {
      match this
      case PromptMissing => 400
      case Answered(_) => 200
      case Failed(_) => 500
    }
  }

  /**
   * The body carries no usable prompt: `(request.get_json() or {}).get("prompt")` is
   * falsy, on a body that decoded to something falsy or to an object.
   */
  predicate NoPrompt(body: Body) {
    && body.Decoded?
    && (!Truthy(body.json) ||
        (body.json.JObject? && ("prompt" !in body.json.fields || !Truthy(body.json.fields["prompt"]))))
  }

  /**
   * `call_gemini()` with the request body and how the model call (client creation
   * included) came out.
   */
  function CallGemini(body: Body, call: ModelCall): (r: ProxyReply)
    ensures r.PromptMissing? <==> NoPrompt(body)
    ensures r.Answered? <==> !NoPrompt(body) && body.Decoded? && body.json.JObject? && call.Replied?
    ensures r.Answered? ==> r.text == call.text
  {
    match body
    case Undecodable(message) => Failed(message)
    case Decoded(j) =>
      var data := if Truthy(j) then j else JObject(map[]);
      if !data.JObject? then Failed(NoGet(data))
      else if "prompt" !in data.fields || !Truthy(data.fields["prompt"]) then PromptMissing
      else
        match call
        case Replied(text) => Answered(text)
        case Raised(message) => Failed(message)
  }

  /** A missing prompt is answered before any client exists: the model's outcome plays no part. */
  lemma PromptCheckedFirst(body: Body, c1: ModelCall, c2: ModelCall)
    requires CallGemini(body, c1).Status() == 400
    ensures CallGemini(body, c2) == PromptMissing
  {
  }
}
