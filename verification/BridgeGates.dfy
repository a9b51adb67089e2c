/**
 The fail-closed gates of the Python bridge (services/ipc/rust_bridge.py): a guarded callback runs only if the
 transport's answer, rebuilt and parsed again, is a well-typed permission for this very request. Transports are
 arbitrary functions from requests to JSON values.
 */
module BridgeGates {
  import opened Common
  import opened Ipc

  /** Object keys the bridge reads; every other key is `OtherKey`. */
  datatype Key = MessageTypeKey | TimestampKey | CorrelationKey | PayloadKey | AllowedKey | ReasonKey
               | RetentionKey | EncryptionKey | TargetKey | TierKey | OtherKey(name: string)

  datatype Json = JNull | JBool(b: bool) | JNumber(n: real) | JString(s: string) | JArray(items: seq<Json>)
                | JObject(fields: map<Key, Json>)

  /** Python's dict.get: a missing key reads as None. */
  function Get(fields: map<Key, Json>, k: Key): Json { if k in fields then fields[k] else JNull }

  type Transport = Letter -> Json

  function ResultTag(a: Authority): string {
    match a
    case Auth => "AUTH_RESULT"
    case Transition => "TRANSITION_RESULT"
    case Energy => "ENERGY_RESULT"
    case Storage => "STORAGE_RESULT"
    case Memory => "MEMORY_RESULT"
  }

  // ---- Building and parsing results -----------------------------------------------------

  function OptionalString(s: Option<string>): Json { if s.None? then JNull else JString(s.value) }

  function PayloadOf(d: Decision): map<Key, Json> {
    var base := map[AllowedKey := JBool(d.allowed), ReasonKey := OptionalString(d.reason)];
    match d.extra
    case Plain => base
    case StorageExtra(retention, encryption) =>
      base[RetentionKey := JBool(retention)][EncryptionKey := JBool(encryption)]
    case MemoryExtra(target, retention, tier) =>
      base[TargetKey := OptionalString(target)][RetentionKey := JBool(retention)][TierKey := JBool(tier)]
  }

  function BuildResult(a: Authority, id: string, timestamp: real, d: Decision): Json {
    JObject(map[MessageTypeKey := JString(ResultTag(a)), TimestampKey := JNumber(timestamp),
                CorrelationKey := JString(id), PayloadKey := JObject(PayloadOf(d))])
  }

  predicate IsOptionalString(j: Json) { j.JNull? || j.JString? }

  function AsOptionalString(j: Json): Option<string>
    requires IsOptionalString(j)
  {
    if j.JNull? then None else Some(j.s)
  }

  function ParseExtra(a: Authority, p: map<Key, Json>): Option<Extra> {
    match a
    case Storage =>
      if Get(p, RetentionKey).JBool? && Get(p, EncryptionKey).JBool? then
        Some(StorageExtra(Get(p, RetentionKey).b, Get(p, EncryptionKey).b))
      else None
    case Memory =>
      if IsOptionalString(Get(p, TargetKey)) && Get(p, RetentionKey).JBool? && Get(p, TierKey).JBool? then
        Some(MemoryExtra(AsOptionalString(Get(p, TargetKey)), Get(p, RetentionKey).b, Get(p, TierKey).b))
      else None
    case _ => Some(Plain)
  }

  function ParseResult(a: Authority, fields: map<Key, Json>, expectedId: string): Option<Decision> {
    if Get(fields, MessageTypeKey) != JString(ResultTag(a)) then None
    else if Get(fields, CorrelationKey) != JString(expectedId) then None
    else if !Get(fields, PayloadKey).JObject? then None
    else
      var p := Get(fields, PayloadKey).fields;
      if !Get(p, AllowedKey).JBool? || !IsOptionalString(Get(p, ReasonKey)) || ParseExtra(a, p).None? then None
      else Some(Decision(Get(p, AllowedKey).b, AsOptionalString(Get(p, ReasonKey)), ParseExtra(a, p).value))
  }

  /** A decision carries the extra fields of its authority. */
  predicate Fits(a: Authority, d: Decision) {
    match a case Storage => d.extra.StorageExtra? case Memory => d.extra.MemoryExtra? case _ => d.extra.Plain?
  }

  /** Parsing what was built gives back the decision, for the same authority and id only. */
  lemma ParseAfterBuild(a: Authority, id: string, timestamp: real, d: Decision)
    requires Fits(a, d)
    ensures ParseResult(a, BuildResult(a, id, timestamp, d).fields, id) == Some(d)
    ensures forall other | other != id :: ParseResult(a, BuildResult(a, id, timestamp, d).fields, other) == None
  {
  }

  /** Every field of a decision is found under its own key. */
  lemma BuiltFields(a: Authority, id: string, timestamp: real, d: Decision)
    ensures var j := BuildResult(a, id, timestamp, d);
      && j.JObject? && Get(j.fields, CorrelationKey) == JString(id) && Get(j.fields, TimestampKey) == JNumber(timestamp)
      && Get(j.fields, PayloadKey).JObject?
      && var p := Get(j.fields, PayloadKey).fields;
         && Get(p, AllowedKey) == JBool(d.allowed)
         && Get(p, ReasonKey) == (if d.reason.Some? then JString(d.reason.value) else JNull)
         && (d.extra.StorageExtra? ==> Get(p, RetentionKey) == JBool(d.extra.retention)
                                       && Get(p, EncryptionKey) == JBool(d.extra.encryption))
         && (d.extra.MemoryExtra? ==>
               && Get(p, TargetKey) == (if d.extra.target.Some? then JString(d.extra.target.value) else JNull)
               && Get(p, RetentionKey) == JBool(d.extra.retention) && Get(p, TierKey) == JBool(d.extra.tierChanged))
  {
  }

  lemma ParsedFits(a: Authority, fields: map<Key, Json>, id: string)
    requires ParseResult(a, fields, id).Some?
    ensures Fits(a, ParseResult(a, fields, id).value)
  {
  }

  // ---- The request and the gate ---------------------------------------------------------

  function UnavailableReason(a: Authority): string {
    match a
    case Auth => "AUTH_UNAVAILABLE"
    case Transition => "TRANSITION_AUTH_UNAVAILABLE"
    case Energy => "ENERGY_AUTH_UNAVAILABLE"
    case Storage => "STORAGE_AUTH_UNAVAILABLE"
    case Memory => "MEMORY_AUTH_UNAVAILABLE"
  }

  function InvalidReason(a: Authority): string {
    match a
    case Auth => "AUTH_INVALID_RESPONSE"
    case Transition => "TRANSITION_INVALID_RESPONSE"
    case Energy => "ENERGY_INVALID_RESPONSE"
    case Storage => "STORAGE_INVALID_RESPONSE"
    case Memory => "MEMORY_INVALID_RESPONSE"
  }

  function Unavailable(a: Authority): Decision { Deny(a, UnavailableReason(a)) }

  function InvalidResponse(a: Authority): Decision { Deny(a, InvalidReason(a)) }

  /** What a response is taken to say: the parsed decision, or a refusal. */
  function Understand(a: Authority, response: Json, id: string): Decision {
    if !response.JObject? then InvalidResponse(a)
    else
      var parsed := ParseResult(a, response.fields, id);
      if parsed.None? then InvalidResponse(a) else parsed.value
  }

  /** The request_* calls: ask the specific transport, else the general one, and rebuild what was understood. */
  function RequestValidation(a: Authority, specific: Option<Transport>, general: Option<Transport>, request: Letter,
                             timestamp: real): Json
  {
    var transport := if specific.Some? then specific else general;
    var d := if transport.None? then Unavailable(a) else Understand(a, transport.value(request), request.id);
    BuildResult(a, request.id, timestamp, d)
  }

  datatype Verdict = Execute | Refuse(reason: string)

  function DefaultReason(a: Authority): string {
    match a
    case Auth => "ACCESS_DENIED" case Transition => "INVALID_TRANSITION" case Energy => "ENERGY_DENIED"
    case Storage => "STORAGE_DENIED" case Memory => "MEMORY_DENIED"
  }

  /** The validate_*_and_maybe_* calls up to the callback: the rebuilt result is parsed once more. */
  function Gate(a: Authority, specific: Option<Transport>, general: Option<Transport>, request: Letter,
                timestamp: real): Verdict
  {
    var result := RequestValidation(a, specific, general, request, timestamp);
    var parsed := ParseResult(a, result.fields, request.id);
    if parsed.None? then Refuse(InvalidReason(a))
    else if !parsed.value.allowed then
      var reason := parsed.value.reason;
      Refuse(if reason.None? || reason.value == "" then DefaultReason(a) else reason.value)
    else Execute
  }

  /** A result for exactly this request: an object of the right type and id, with well-typed fields. */
  ghost predicate IsResult(a: Authority, response: Json, id: string) {
    && response.JObject?
    && Get(response.fields, MessageTypeKey) == JString(match a
                                                       case Auth => "AUTH_RESULT"
                                                       case Transition => "TRANSITION_RESULT"
                                                       case Energy => "ENERGY_RESULT"
                                                       case Storage => "STORAGE_RESULT"
                                                       case Memory => "MEMORY_RESULT")
    && CorrelationKey in response.fields && response.fields[CorrelationKey] == JString(id)
    && PayloadKey in response.fields && response.fields[PayloadKey].JObject?
    && var p := response.fields[PayloadKey].fields;
       && AllowedKey in p && p[AllowedKey].JBool?
       && (ReasonKey in p ==> p[ReasonKey].JNull? || p[ReasonKey].JString?)
       && (a.Storage? || a.Memory? ==> RetentionKey in p && p[RetentionKey].JBool?)
       && (a.Storage? ==> EncryptionKey in p && p[EncryptionKey].JBool?)
       && (a.Memory? ==> TierKey in p && p[TierKey].JBool?
                         && (TargetKey in p ==> p[TargetKey].JNull? || p[TargetKey].JString?))
  }

  /** One that says yes. */
  ghost predicate Permits(a: Authority, response: Json, id: string) {
    IsResult(a, response, id) && response.fields[PayloadKey].fields[AllowedKey] == JBool(true)
  }

  /** A response is understood as a yes exactly when it is a permission for this request. */
  lemma UnderstoodExactly(a: Authority, response: Json, id: string)
    ensures Fits(a, Understand(a, response, id))
    ensures Understand(a, response, id).allowed <==> Permits(a, response, id)
    ensures !IsResult(a, response, id) ==> Understand(a, response, id) == InvalidResponse(a)
    ensures IsResult(a, response, id) ==>
      var p, reason := response.fields[PayloadKey].fields, Understand(a, response, id).reason;
      reason == if ReasonKey in p && p[ReasonKey].JString? then Some(p[ReasonKey].s) else None
  {
    if response.JObject? && ParseResult(a, response.fields, id).Some? {
      ParsedFits(a, response.fields, id);
    }
  }

  /** For every transport whatsoever: the gate opens exactly on a permission for this request, else it stays shut. */
  lemma GateIsFailClosed(a: Authority, specific: Option<Transport>, general: Option<Transport>, request: Letter,
                         timestamp: real)
    ensures var transport := if specific.Some? then specific else general;
      (Gate(a, specific, general, request, timestamp) == Execute)
        <==> (transport.Some? && Permits(a, transport.value(request), request.id))
  {
    var transport := if specific.Some? then specific else general;
    var d := if transport.None? then Unavailable(a) else Understand(a, transport.value(request), request.id);
    if transport.Some? {
      UnderstoodExactly(a, transport.value(request), request.id);
    }
    ParseAfterBuild(a, request.id, timestamp, d);
  }

  lemma GateFollowsDecision(a: Authority, specific: Option<Transport>, general: Option<Transport>, request: Letter,
                            timestamp: real)
    ensures var transport := if specific.Some? then specific else general;
      var d := if transport.None? then Unavailable(a) else Understand(a, transport.value(request), request.id);
      Gate(a, specific, general, request, timestamp) ==
        if d.allowed then Execute
        else Refuse(if d.reason.None? || d.reason.value == "" then DefaultReason(a) else d.reason.value)
  {
    var transport := if specific.Some? then specific else general;
    var d := if transport.None? then Unavailable(a) else Understand(a, transport.value(request), request.id);
    if transport.Some? {
      UnderstoodExactly(a, transport.value(request), request.id);
    }
    ParseAfterBuild(a, request.id, timestamp, d);
  }

  /** The reason of every refusal: no transport, no result, or the result's own, if it gives one. */
  lemma RefusalReasons(a: Authority, specific: Option<Transport>, general: Option<Transport>, request: Letter,
                       timestamp: real)
    ensures var transport := if specific.Some? then specific else general;
      var gate := Gate(a, specific, general, request, timestamp);
      && (transport.None? ==> gate == Refuse(match a
                                             case Auth => "AUTH_UNAVAILABLE"
                                             case Transition => "TRANSITION_AUTH_UNAVAILABLE"
                                             case Energy => "ENERGY_AUTH_UNAVAILABLE"
                                             case Storage => "STORAGE_AUTH_UNAVAILABLE"
                                             case Memory => "MEMORY_AUTH_UNAVAILABLE"))
      && (transport.Some? && !IsResult(a, transport.value(request), request.id) ==>
            gate == Refuse(match a
                           case Auth => "AUTH_INVALID_RESPONSE"
                           case Transition => "TRANSITION_INVALID_RESPONSE"
                           case Energy => "ENERGY_INVALID_RESPONSE"
                           case Storage => "STORAGE_INVALID_RESPONSE"
                           case Memory => "MEMORY_INVALID_RESPONSE"))
      && (transport.Some? && IsResult(a, transport.value(request), request.id) && gate.Refuse? ==>
            var p := transport.value(request).fields[PayloadKey].fields;
            if ReasonKey in p && p[ReasonKey].JString? && p[ReasonKey].s != "" then gate.reason == p[ReasonKey].s
            else gate.reason == (match a
                                 case Auth => "ACCESS_DENIED"
                                 case Transition => "INVALID_TRANSITION"
                                 case Energy => "ENERGY_DENIED"
                                 case Storage => "STORAGE_DENIED"
                                 case Memory => "MEMORY_DENIED"))
  {
    var transport := if specific.Some? then specific else general;
    GateFollowsDecision(a, specific, general, request, timestamp);
    if transport.Some? {
      UnderstoodExactly(a, transport.value(request), request.id);
    }
  }

  /** A guarded action; `runs` counts its executions. */
  class Callback {
    var runs: nat

    constructor ()
      ensures runs == 0
    {
      runs := 0;
    }

    method Run()
      modifies this
      ensures runs == old(runs) + 1
    {
      runs := runs + 1;
    }
  }

  method ValidateAndMaybeExecute(a: Authority, specific: Option<Transport>, general: Option<Transport>, request: Letter,
                                 timestamp: real, callback: Callback) returns (allowed: bool, reason: Option<string>)
    modifies callback
    ensures var transport := if specific.Some? then specific else general;
      allowed <==> transport.Some? && Permits(a, transport.value(request), request.id)
    ensures callback.runs == old(callback.runs) + if allowed then 1 else 0
    ensures Gate(a, specific, general, request, timestamp)
         == if allowed then Execute else Refuse(if reason.Some? then reason.value else "")
    ensures reason.None? <==> allowed
  {
    GateIsFailClosed(a, specific, general, request, timestamp);
    var result := RequestValidation(a, specific, general, request, timestamp);
    var parsed := ParseResult(a, result.fields, request.id);
    if parsed.None? {
      return false, Some(InvalidReason(a));
    }
    if !parsed.value.allowed {
      var denied := parsed.value.reason;
      return false, Some(if denied.None? || denied.value == "" then DefaultReason(a) else denied.value);
    }
    callback.Run();
    return true, None;
  }

  // ---- Wired to the Rust authority ------------------------------------------------------

  /** The result envelope the dispatcher writes for its reply. */
  function Encode(reply: Letter, timestamp: real): Json {
    if reply.kind.Response? && reply.body.DecisionBody? then
      BuildResult(reply.kind.authority, reply.id, timestamp, reply.body.decision)
    else JNull
  }

  /** What the Rust tracker remembers when the request with a given id arrives. */
  type Tracked = string -> seq<string>

  /**
   A transport that hands the request to the Rust dispatcher, whose tracker then remembers `tracked`, and returns the
   reply; where the dispatcher sends none (invalid id, duplicate, not a request) it returns nothing.
   */
  function RustTransport(access: AccessPolicy, timestamp: real, tracked: Tracked): Transport {
    (m: Letter) =>
      if !RustAccepts(m.id) || m.id in tracked(m.id) then JNull
      else
        match Dispatch(access, m)
        case Reply(reply) => Encode(reply, timestamp)
        case _ => JNull
  }

  lemma RustAnswersFit(access: AccessPolicy, a: Authority, b: Body)
    ensures Fits(a, Answer(access, a, b))
  {
  }

  lemma RustReply(access: AccessPolicy, timestamp: real, tracked: Tracked, a: Authority, id: string, b: Body)
    ensures RustTransport(access, timestamp, tracked)(Letter(Request(a), id, b))
         == if RustAccepts(id) && id !in tracked(id) then BuildResult(a, id, timestamp, Answer(access, a, b)) else JNull
  {
    var reply := Letter(Response(a), id, DecisionBody(Answer(access, a, b)));
    assert Dispatch(access, Letter(Request(a), id, b)) == Reply(reply);
  }

  lemma UnderstandBuilt(a: Authority, id: string, timestamp: real, d: Decision)
    requires Fits(a, d)
    ensures Understand(a, BuildResult(a, id, timestamp, d), id) == d
  {
    ParseAfterBuild(a, id, timestamp, d);
  }

  /**
   What comes back through the request call: the Rust side's own answer, unchanged but for the time, for an id it
   accepts and does not remember; a refusal otherwise.
   */
  lemma RustAnswerSurvives(access: AccessPolicy, a: Authority, id: string, b: Body, general: Option<Transport>,
                           tracked: Tracked, rustTime: real, pythonTime: real)
    ensures var transport := RustTransport(access, rustTime, tracked);
      RequestValidation(a, Some(transport), general, Letter(Request(a), id, b), pythonTime)
        == BuildResult(a, id, pythonTime,
                       if RustAccepts(id) && id !in tracked(id) then Answer(access, a, b) else InvalidResponse(a))
  {
    RustAnswersFit(access, a, b);
    UnderstandBuilt(a, id, rustTime, Answer(access, a, b));
    RustReply(access, rustTime, tracked, a, id, b);
  }

  /**
   End to end across the two languages: the Python callback runs exactly when the Rust dispatcher accepts the id, does
   not take the request for a duplicate, and its policy says yes.
   */
  lemma WiredGateFollowsPolicy(access: AccessPolicy, a: Authority, id: string, b: Body, general: Option<Transport>,
                               tracked: Tracked, rustTime: real, pythonTime: real)
    ensures var transport := RustTransport(access, rustTime, tracked);
      (Gate(a, Some(transport), general, Letter(Request(a), id, b), pythonTime) == Execute
       <==> RustAccepts(id) && id !in tracked(id) && Answer(access, a, b).allowed)
  {
    RustAnswerSurvives(access, a, id, b, general, tracked, rustTime, pythonTime);
    RustAnswersFit(access, a, b);
    ParseAfterBuild(a, id, pythonTime, Answer(access, a, b));
    ParseAfterBuild(a, id, pythonTime, InvalidResponse(a));
  }

  /**
   The transport agrees with the two-party system: a request at the head of Rust's pipe is answered there exactly if
   the transport answers it, and with the same result.
   */
  lemma TransportFollowsSystem(n: nat, access: AccessPolicy, timestamp: real, s: Net)
    requires s.toRust != [] && s.toRust[0].kind.Request?
    ensures var m, s' := s.toRust[0], Deliver(n, access, s, ToRust);
      RustTransport(access, timestamp, _ => LastN(s.accepted, n))(m)
        == if |s'.replies| > |s.replies| then Encode(s'.replies[|s.replies|], timestamp) else JNull
  {
  }
}
