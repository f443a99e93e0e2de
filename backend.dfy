/** index.js, the decision logic of the backend: the plausibility flags a test
    submission receives, and the HMAC check that marks a request's signature
    valid or not before the route runs. */
module Backend {
  import opened Wrappers
  import opened StableJson

  // ---------------------------------------------------------------------------
  // addPlausibilityFlags

  /** The numeric fields of a submission's metrics object; a field that is not
      in the map is undefined. */
  type Metrics = map<string, real>

  /** JavaScript truthiness of metrics[field]: defined and not 0. */
  predicate Truthy(metrics: Metrics, field: string)
  {
    field in metrics && metrics[field] != 0.0
  }

  /** `metrics.field && metrics.field > limit` */
  predicate Exceeds(metrics: Metrics, field: string, limit: real)
  {
    Truthy(metrics, field) && metrics[field] > limit
  }

  /** `metrics.field && metrics.field < limit` */
  predicate Undercuts(metrics: Metrics, field: string, limit: real)
  {
    Truthy(metrics, field) && metrics[field] < limit
  }

  const TopSpeedFlag := "unrealistic_top_speed"
  const ReactionTimeFlag := "impossible_reaction_time"
  const JumpHeightFlag := "unrealistic_jump_height_cm"
  const FlightTimeFlag := "implausible_flight_time"
  const RepsFlag := "unrealistic_reps"

  method AddPlausibilityFlags(testType: string, metrics: Metrics) returns (flags: seq<string>)
    ensures testType != "sprint" && testType != "jump" && testType != "endurance" ==> flags == []
    ensures TopSpeedFlag in flags <==> testType == "sprint" && Exceeds(metrics, "topSpeed", 15.0)
    ensures ReactionTimeFlag in flags <==> testType == "sprint" && Undercuts(metrics, "reactionTime", 0.03)
    ensures JumpHeightFlag in flags <==> testType == "jump" && Exceeds(metrics, "jumpHeight", 120.0)
    ensures FlightTimeFlag in flags <==> testType == "jump" && Exceeds(metrics, "flightTime", 1.2)
    ensures RepsFlag in flags <==> testType == "endurance" && Exceeds(metrics, "reps", 500.0)
    ensures forall f :: f in flags ==> f in [TopSpeedFlag, ReactionTimeFlag, JumpHeightFlag, FlightTimeFlag, RepsFlag]
    ensures forall i, j :: 0 <= i < j < |flags| ==> flags[i] != flags[j]
    ensures |flags| <= 2
    ensures |flags| == 2 ==> flags == [TopSpeedFlag, ReactionTimeFlag] || flags == [JumpHeightFlag, FlightTimeFlag]
  {
    flags := [];
    if testType == "sprint" {
      if Truthy(metrics, "topSpeed") && metrics["topSpeed"] > 15.0 {
        flags := flags + [TopSpeedFlag];
      }
      if Truthy(metrics, "reactionTime") && metrics["reactionTime"] < 0.03 {
        flags := flags + [ReactionTimeFlag];
      }
    }
    if testType == "jump" {
      if Truthy(metrics, "jumpHeight") && metrics["jumpHeight"] > 120.0 {
        flags := flags + [JumpHeightFlag];
      }
      if Truthy(metrics, "flightTime") && metrics["flightTime"] > 1.2 {
        flags := flags + [FlightTimeFlag];
      }
    }
    if testType == "endurance" {
      if Truthy(metrics, "reps") && metrics["reps"] > 500.0 {
        flags := flags + [RepsFlag];
      }
    }
  }

  // ---------------------------------------------------------------------------
  // verifyHmac

  /** The parts of an Express request the middleware touches. */
  class Request {
    /** req.body, the parsed JSON payload. */
    const body: Json
    /** req.get('x-signature'): None when the header is absent. */
    const signatureHeader: Option<string>
    /** req.signature_valid: None while undefined. */
    var signatureValid: Option<bool>
    /** How many times the middleware has handed the request on with next(). */
    var nextCalls: nat

    constructor (body: Json, signatureHeader: Option<string>)
      ensures this.body == body && this.signatureHeader == signatureHeader
      ensures signatureValid == None && nextCalls == 0
    {
      this.body := body;
      this.signatureHeader := signatureHeader;
      signatureValid := None;
      nextCalls := 0;
    }
  }

  /** crypto.createHmac('sha256', secret).update(payload).digest('hex'), as a
      function of the secret and the payload; None stands for a thrown exception. */
  type HmacHex = (string, string) -> Option<string>

  /** process.env.HMAC_SECRET || '' */
  function Secret(env: Option<string>): (s: string)
    ensures env.Some? ==> s == env.value
    ensures env.None? ==> s == ""
  {
    match env
    case Some(v) => if v != "" then v else ""
    case None => ""
  }

  /** The length of Buffer.from(s), the UTF-8 encoding of s. */
  function Utf8Length(s: string): nat
  {
    if s == [] then 0
    else
      var c := s[0] as int;
      (if c < 0x80 then 1 else if c < 0x800 then 2 else if c < 0x10000 then 3 else 4) + Utf8Length(s[1..])
  }

  /** crypto.timingSafeEqual(Buffer.from(a), Buffer.from(b)): throws (Err) when
      the two encodings differ in length, otherwise compares them byte by byte,
      which, UTF-8 being injective, is comparing the strings. */
  function TimingSafeEqual(a: string, b: string): (r: Result<bool, string>)
    ensures r.Err? <==> Utf8Length(a) != Utf8Length(b)
    ensures r.Ok? ==> (r.value <==> a == b)
  {
    if Utf8Length(a) != Utf8Length(b) then Err("RangeError: Input buffers must have the same byte length")
    else Ok(a == b)
  }

  /** Sets req.signature_valid, then calls next() exactly once. The signature is
      valid exactly when the header is present and non-empty and equals the
      hex HMAC of the stable serialisation of the body; a missing header, a
      length mismatch, a mismatch or an exception all make it false. */
  method VerifyHmac(req: Request, env: Option<string>, hmac: HmacHex, enc: Encoders)
    modifies req
    ensures req.nextCalls == old(req.nextCalls) + 1
    ensures req.signatureValid.Some?
    ensures req.signatureValid.value <==>
              && req.signatureHeader.Some? && req.signatureHeader.value != ""
              && hmac(Secret(env), Stringify(enc, req.body)) == Some(req.signatureHeader.value)
  {
    if req.signatureHeader.None? || req.signatureHeader.value == "" {
      req.signatureValid := Some(false);
      req.nextCalls := req.nextCalls + 1;
      return;
    }
    var signature := req.signatureHeader.value;
    var secret := Secret(env);
    var payload := Stringify(enc, req.body);
    match hmac(secret, payload) {
      case None =>
        req.signatureValid := Some(false);
      case Some(expected) =>
        if |expected| == |signature| {
          match TimingSafeEqual(expected, signature) {
            case Ok(same) => req.signatureValid := Some(same);
            case Err(_) => req.signatureValid := Some(false);
          }
        } else {
          req.signatureValid := Some(false);
        }
    }
    req.nextCalls := req.nextCalls + 1;
  }
}
