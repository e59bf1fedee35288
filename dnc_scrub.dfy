/**
 * The USHA Do-Not-Call scrub (scrapegoat/app/enrichment/dnc_scrub.py):
 * token lookup by priority, request headers, phone cleaning and the
 * classification of the registry's answer.
 *
 * Redis, the environment and the HTTP request are parameters.
 */
module DncScrub {
  import opened Wrappers
  import opened Text
  import opened Json

  const DefaultAgentNumber: string := "00044447"
  const AgentOrigin: string := "https://agent.ushadvisors.com"

  /** USHA_AGENT_NUMBER, "00044447" when unset. */
  function AgentDefault(env: Option<string>): string {
    if env.Some? then env.value else DefaultAgentNumber
  }

  // ---------------------------------------------------------------------
  // The token and the headers
  // ---------------------------------------------------------------------

  /**
   * `get_usha_token`. `redis` is None when Redis is not installed or no URL
   * is configured, and otherwise the outcome of reading auth:usha:token;
   * `env` is USHA_JWT_TOKEN and `cognito` COGNITO_REFRESH_TOKEN.
   */
  function Token(redis: Option<Attempt<Option<string>>>, env: Option<string>, cognito: Option<string>): (r: Option<string>)
  {
    if redis.Some? && redis.value.Ok? && redis.value.value.Some? && redis.value.value.value != "" then redis.value.value
    else if env.Some? && env.value != "" then env
    else None
  }

  /**
   * A Redis token wins over the environment's; the environment's is used
   * when Redis has none or fails; a Cognito refresh token alone gives no
   * token, and any token returned is non-empty.
   */
  lemma TokenPriority(redis: Option<Attempt<Option<string>>>, env: Option<string>, cognito: Option<string>)
    ensures var r := Token(redis, env, cognito);
            (r.Some? ==> r.value != "") &&
            (redis.Some? && redis.value.Ok? && redis.value.value.Some? && redis.value.value.value != "" ==>
               r == redis.value.value) &&
            (!(redis.Some? && redis.value.Ok? && redis.value.value.Some? && redis.value.value.value != "") ==>
               r == (if env.Some? && env.value != "" then env else None)) &&
            (forall c :: r == Token(redis, env, c))
  {
  }

  /** `get_usha_headers`: the fixed headers, with a bearer Authorization exactly when there is a token. */
  function Headers(token: Option<string>): (h: map<string, string>)
    ensures "Origin" in h && "Referer" in h && "Content-Type" in h
    ensures h["Origin"] == AgentOrigin && h["Referer"] == AgentOrigin && h["Content-Type"] == "application/json"
    ensures "Authorization" in h <==> token.Some? && token.value != ""
    ensures "Authorization" in h ==> h["Authorization"] == "Bearer " + token.value
    ensures h.Keys <= {"Origin", "Referer", "Content-Type", "Authorization"}
  {
    var base := map["Origin" := AgentOrigin, "Referer" := AgentOrigin, "Content-Type" := "application/json"];
    if token.Some? && token.value != "" then base["Authorization" := "Bearer " + token.value] else base
  }

  // ---------------------------------------------------------------------
  // Phone cleaning
  // ---------------------------------------------------------------------

  /** The digits of the phone, without a leading country code 1 on eleven digits. */
  function CleanPhone(phone: string): (r: string)
    ensures AllDigits(r)
  {
    var d := Digits(phone);
    if |d| == 11 && d[0] == '1' then d[1..] else d
  }

  /** Ten digits, or eleven with a leading 1, clean to exactly ten digits; any other count does not. */
  lemma CleanPhoneTen(phone: string)
    ensures var d := Digits(phone);
            |CleanPhone(phone)| == 10 <==> |d| == 10 || (|d| == 11 && d[0] == '1')
    ensures |CleanPhone(phone)| == 10 ==> Digits(phone)[|Digits(phone)| - 10..] == CleanPhone(phone)
  {
    var d := Digits(phone);
    if |d| == 11 && d[0] == '1' {
      assert CleanPhone(phone) == d[1..];
    } else {
      assert CleanPhone(phone) == d;
    }
  }

  // ---------------------------------------------------------------------
  // scrub_dnc
  // ---------------------------------------------------------------------

  /** The result: status, whether the lead may be contacted, and the reason. */
  datatype Scrub = Scrub(status: string, canContact: bool, reason: Json)

  /**
   * The outcome of the registry request for a cleaned phone and an agent
   * number. A body that is not JSON makes `.json()` raise; from requests
   * 2.27 on that error is a `RequestException` (a `RequestFailed`), with
   * older versions it is a plain `ValueError` (a `Failed`). Which one the
   * installed version raises is left to the caller of the model.
   */
  datatype Reply =
    | RequestFailed(message: string)   // a requests exception, an HTTP error status included
    | Failed(message: string)          // any other exception
    | Body(data: Json)

  /** Python's `v == True` and `v == False` for JSON values. */
  predicate EqTrue(v: Json) { v == JBool(true) || v == JInt(1) || v == JFloat(1.0) }
  predicate EqFalse(v: Json) { v == JBool(false) || v == JInt(0) || v == JFloat(0.0) }

  /** Python's type name of a JSON value. */
  function TypeName(v: Json): string {
    match v
    case JNull => "NoneType"
    case JBool(_) => "bool"
    case JInt(_) => "int"
    case JFloat(_) => "float"
    case JStr(_) => "str"
    case JList(_) => "list"
    case JObj(_) => "dict"
  }

  /** What reading the body gives: the verdict and reason, or the value `.get` was wrongly applied to. */
  datatype Reading = NoGet(culprit: Json) | Verdict(dnc: bool, reason: Json)

  /**
   * Reading the body. `.get` applied to something that is not a dictionary
   * (the data itself, or "contactStatus" when it is needed) raises.
   */
  function Classify(data: Json): (r: Reading)
    ensures r.NoGet? ==> !r.culprit.JObj?
    ensures r.Verdict? ==> data.JObj?
  {
    if !data.JObj? then NoGet(data)
    else
      var d := data.fields;
      var cs := if "contactStatus" in d then d["contactStatus"] else JObj(map[]);
      if !EqTrue(Get(d, "isDoNotCall")) && !cs.JObj? then NoGet(cs)
      else
        var dnc := EqTrue(Get(d, "isDoNotCall")) || EqFalse(Get(cs.fields, "canContact"));
        if !Get(d, "reason").Truthy() && !cs.JObj? then NoGet(cs)
        else
          var reason := if Get(d, "reason").Truthy() then Get(d, "reason")
                        else Or(Get(cs.fields, "reason"), Get(d, "message"));
          Verdict(dnc, reason)
  }

  /**
   * `scrub_dnc` with the token already looked up and the registry's reply
   * for the request made; `request` is consulted only for a valid number.
   */
  function ScrubDnc(phone: string, agentNumber: Option<string>, defaultAgent: string, token: Option<string>,
                    request: (string, string) -> Reply): (r: Scrub)
    ensures r.status in {"UNKNOWN", "INVALID", "ERROR", "YES", "NO"}
    ensures r.canContact <==> r.status in {"UNKNOWN", "ERROR", "NO"}
  {
    var agent := if agentNumber.Some? && agentNumber.value != "" then agentNumber.value else defaultAgent;
    if token.None? || token.value == "" then Scrub("UNKNOWN", true, JStr("Token not available"))
    else
      var cleaned := CleanPhone(phone);
      if |cleaned| != 10 then Scrub("INVALID", false, JStr("Invalid phone number format"))
      else match request(cleaned, agent)
        case RequestFailed(m) => Scrub("ERROR", true, JStr("API error: " + m))
        case Failed(m) => Scrub("ERROR", true, JStr(m))
        case Body(data) =>
          match Classify(data)
          case NoGet(v) => Scrub("ERROR", true, JStr("'" + TypeName(v) + "' object has no attribute 'get'"))
          case Verdict(dnc, reason) => Scrub(if dnc then "YES" else "NO", !dnc, reason)
  }

  /** Without a token the scrub fails open: UNKNOWN, and the lead may be contacted. */
  lemma NoTokenFailsOpen(phone: string, agentNumber: Option<string>, defaultAgent: string, token: Option<string>,
                         request: (string, string) -> Reply)
    requires token.None? || token == Some("")
    ensures ScrubDnc(phone, agentNumber, defaultAgent, token, request) == Scrub("UNKNOWN", true, JStr("Token not available"))
  {
  }

  /**
   * A number that does not clean to ten digits is INVALID and may not be
   * contacted, whatever the registry would say: no request is made.
   */
  lemma InvalidWithoutRequest(phone: string, agentNumber: Option<string>, defaultAgent: string, token: Option<string>,
                              request1: (string, string) -> Reply, request2: (string, string) -> Reply)
    requires token.Some? && token.value != "" && |CleanPhone(phone)| != 10
    ensures ScrubDnc(phone, agentNumber, defaultAgent, token, request1) == Scrub("INVALID", false, JStr("Invalid phone number format"))
    ensures ScrubDnc(phone, agentNumber, defaultAgent, token, request2) == ScrubDnc(phone, agentNumber, defaultAgent, token, request1)
  {
  }

  /**
   * For a readable answer the status is YES exactly when the registry says
   * isDoNotCall is true or canContact is false, and the lead may be
   * contacted exactly when it is NO; the request is for the ten cleaned
   * digits and the given agent number, or the default one.
   */
  lemma ClassifiedAnswer(phone: string, agentNumber: Option<string>, defaultAgent: string, token: Option<string>,
                         request: (string, string) -> Reply)
    requires token.Some? && token.value != "" && |CleanPhone(phone)| == 10
    requires var agent := if agentNumber.Some? && agentNumber.value != "" then agentNumber.value else defaultAgent;
             request(CleanPhone(phone), agent).Body? && Classify(request(CleanPhone(phone), agent).data).Verdict?
    ensures var agent := if agentNumber.Some? && agentNumber.value != "" then agentNumber.value else defaultAgent;
            var d := request(CleanPhone(phone), agent).data.fields;
            var cs := if "contactStatus" in d then d["contactStatus"] else JObj(map[]);
            var r := ScrubDnc(phone, agentNumber, defaultAgent, token, request);
            r.status in {"YES", "NO"} &&
            (r.status == "YES" <==> EqTrue(Get(d, "isDoNotCall")) || (cs.JObj? && EqFalse(Get(cs.fields, "canContact")))) &&
            (r.canContact <==> r.status == "NO")
  {
  }

  /** Every failure of the request or of reading its answer gives ERROR and fails open. */
  lemma ErrorsFailOpen(phone: string, agentNumber: Option<string>, defaultAgent: string, token: Option<string>,
                       request: (string, string) -> Reply)
    requires token.Some? && token.value != "" && |CleanPhone(phone)| == 10
    requires var agent := if agentNumber.Some? && agentNumber.value != "" then agentNumber.value else defaultAgent;
             var reply := request(CleanPhone(phone), agent);
             !reply.Body? || Classify(reply.data).NoGet?
    ensures var r := ScrubDnc(phone, agentNumber, defaultAgent, token, request);
            r.status == "ERROR" && r.canContact
  {
  }

  /** Only a number the registry lists, or an invalid number, is ever marked not contactable. */
  lemma NotContactableCases(phone: string, agentNumber: Option<string>, defaultAgent: string, token: Option<string>,
                            request: (string, string) -> Reply)
    ensures var r := ScrubDnc(phone, agentNumber, defaultAgent, token, request);
            !r.canContact <==> r.status in {"YES", "INVALID"}
  {
  }
}
