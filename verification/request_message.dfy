/** Requests sent to veadotube: the closed request and request-payload
    types, the string enums they are built from, the `VtRequest` factory
    with its shared no-argument values, and the two validators. */
module RequestMessages {
  import opened Wrappers
  import opened KotlinText
  import opened JsonStrings

  /** `MessageEvent`, in declaration order. */
  datatype MessageEvent = MsgUnknown | MsgError | MsgPayload | MsgList

  /** `MessagePayloadType`. */
  datatype MessagePayloadType = TypeUnknown | StateEvents

  /** `MessagePayloadId`. */
  datatype MessagePayloadId = IdUnknown | Mini

  /** `PayloadEvent`, in declaration order. */
  datatype PayloadEvent =
    | PayUnknown | PayList | PayPeek | PayThumb | PaySet | PayPush | PayPop | PayListen | PayUnlisten

  function MessageEventValue(e: MessageEvent): string {
    match e
    case MsgUnknown => "UNKNOWN"
    case MsgError => "ERROR"
    case MsgPayload => "payload"
    case MsgList => "list"
  }

  function PayloadTypeValue(t: MessagePayloadType): string {
    match t
    case TypeUnknown => "UNKNOWN"
    case StateEvents => "stateEvents"
  }

  function PayloadIdValue(i: MessagePayloadId): string {
    match i
    case IdUnknown => "UNKNOWN"
    case Mini => "mini"
  }

  function PayloadEventValue(e: PayloadEvent): string {
    match e
    case PayUnknown => "UNKNOWN"
    case PayList => "list"
    case PayPeek => "peek"
    case PayThumb => "thumb"
    case PaySet => "set"
    case PayPush => "push"
    case PayPop => "pop"
    case PayListen => "listen"
    case PayUnlisten => "unlisten"
  }

  /** `MessageEvent.fromValue`: the entry whose value matches, else `UNKNOWN`. */
  function MessageEventFromValue(s: string): (e: MessageEvent)
    ensures e != MsgUnknown ==> MessageEventValue(e) == s
    ensures e == MsgUnknown ==> forall k :: MessageEventValue(k) == s ==> k == MsgUnknown
  {
    if s == "ERROR" then MsgError
    else if s == "payload" then MsgPayload
    else if s == "list" then MsgList
    else MsgUnknown
  }

  /** `MessagePayloadType.fromValue`: the entry whose value matches, else `UNKNOWN`. */
  function PayloadTypeFromValue(s: string): (t: MessagePayloadType)
    ensures t != TypeUnknown ==> PayloadTypeValue(t) == s
    ensures t == TypeUnknown ==> s != "stateEvents"
  {
    if s == "stateEvents" then StateEvents else TypeUnknown
  }

  /** `MessagePayloadId.fromValue`: the entry whose value matches, else `UNKNOWN`. */
  function PayloadIdFromValue(s: string): (i: MessagePayloadId)
    ensures i != IdUnknown ==> PayloadIdValue(i) == s
    ensures i == IdUnknown ==> s != "mini"
  {
    if s == "mini" then Mini else IdUnknown
  }

  /** The strings some `PayloadEvent` carries. */
  predicate IsPayloadEventName(s: string) {
    s in {"UNKNOWN", "list", "peek", "thumb", "set", "push", "pop", "listen", "unlisten"}
  }

  /** `PayloadEvent.fromValue`: unlike the other three enums it does not fall
      back to `UNKNOWN` — `requireNotNull` throws `IllegalArgumentException`
      for a string no entry carries. */
  function PayloadEventFromValue(s: string): (r: Result<PayloadEvent, Exception>)
    ensures r.Success? <==> IsPayloadEventName(s)
    ensures r.Success? ==> PayloadEventValue(r.value) == s
    ensures r.Failure? ==> r.error == IllegalArgument
  {
    if s == "UNKNOWN" then Success(PayUnknown)
    else if s == "list" then Success(PayList)
    else if s == "peek" then Success(PayPeek)
    else if s == "thumb" then Success(PayThumb)
    else if s == "set" then Success(PaySet)
    else if s == "push" then Success(PayPush)
    else if s == "pop" then Success(PayPop)
    else if s == "listen" then Success(PayListen)
    else if s == "unlisten" then Success(PayUnlisten)
    else Failure(IllegalArgument)
  }

  /** Every enum value is recovered from its own string. */
  lemma EnumRoundTrips(e: MessageEvent, t: MessagePayloadType, i: MessagePayloadId, p: PayloadEvent)
    ensures MessageEventFromValue(MessageEventValue(e)) == e
    ensures PayloadTypeFromValue(PayloadTypeValue(t)) == t
    ensures PayloadIdFromValue(PayloadIdValue(i)) == i
    ensures PayloadEventFromValue(PayloadEventValue(p)) == Success(p)
  {
  }

  /** The fallback differs: a string no entry carries is `UNKNOWN` for the
      message enums but an exception for `PayloadEvent`. */
  lemma FromValueFallbacks(s: string)
    requires forall e :: MessageEventValue(e) != s
    requires forall t :: PayloadTypeValue(t) != s
    requires forall i :: PayloadIdValue(i) != s
    requires forall p :: PayloadEventValue(p) != s
    ensures MessageEventFromValue(s) == MsgUnknown
    ensures PayloadTypeFromValue(s) == TypeUnknown
    ensures PayloadIdFromValue(s) == IdUnknown
    ensures PayloadEventFromValue(s) == Failure(IllegalArgument)
  {
    assert MessageEventValue(MsgError) != s && MessageEventValue(MsgPayload) != s && MessageEventValue(MsgList) != s;
    assert PayloadTypeValue(StateEvents) != s && PayloadIdValue(Mini) != s;
    assert !IsPayloadEventName(s) by {
      assert PayloadEventValue(PayUnknown) != s && PayloadEventValue(PayList) != s && PayloadEventValue(PayPeek) != s;
      assert PayloadEventValue(PayThumb) != s && PayloadEventValue(PaySet) != s && PayloadEventValue(PayPush) != s;
      assert PayloadEventValue(PayPop) != s && PayloadEventValue(PayListen) != s && PayloadEventValue(PayUnlisten) != s;
    }
  }

  /** `RequestPayload`: a bare event, an event with a token, or an event
      with a state id. */
  datatype RequestPayload =
    | PayloadEventOnly(event: string)
    | PayloadToken(event: string, token: string)
    | PayloadState(event: string, state: string)

  /** `RequestMessage`: a node list request, or an event aimed at a node. */
  datatype RequestMessage =
    | NodeList(event: string)
    | NodeEvent(event: string, payloadType: string, id: string, payload: RequestPayload)

  /** `getEventList`. */
  const EventList: RequestMessage := NodeList("list")

  /** `getPayloadEventList`. */
  const PayloadEventList: RequestPayload := PayloadEventOnly("list")

  /** `getPayloadEventPeek`. */
  const PayloadEventPeek: RequestPayload := PayloadEventOnly("peek")

  /** `getListStateMini`: `createRequest(payload = getPayloadEventList)`. */
  const ListStateMini: RequestMessage := NodeEvent("payload", "stateEvents", "mini", PayloadEventList)

  /** `getPeekStateMini`: `createRequest(payload = getPayloadEventPeek)`. */
  const PeekStateMini: RequestMessage := NodeEvent("payload", "stateEvents", "mini", PayloadEventPeek)

  /** Payload events that carry a listener token. */
  predicate TakesToken(e: PayloadEvent) {
    e == PayListen || e == PayUnlisten
  }

  /** Payload events that carry a state id. */
  predicate TakesState(e: PayloadEvent) {
    e == PaySet || e == PayPush || e == PayPop || e == PayThumb
  }

  /** `Trim` keeps a non-blank string non-blank. */
  lemma TrimNotBlank(s: string)
    requires !IsBlank(s)
    ensures !IsBlank(Trim(s))
  {
    var r := Trim(s);
    assert |r| > 0 && !IsWhitespace(r[0]);
  }

  /** Each payload event is read back from its own value. */
  lemma PayloadEventRoundTrip(p: PayloadEvent)
    ensures PayloadEventFromValue(PayloadEventValue(p)) == Success(p)
  {
  }

  /** `VtRequest.createPayload(event, value)`. `UNKNOWN` is rejected first;
      `LIST` and `PEEK` give the shared values whatever `value` is; the
      others need a non-null, non-blank value, stored trimmed. */
  function CreatePayload(event: PayloadEvent, value: Option<string>): (r: Result<RequestPayload, Exception>)
    ensures r.Failure? <==>
      event == PayUnknown || ((TakesToken(event) || TakesState(event)) && (value.None? || IsBlank(value.value)))
    ensures r.Failure? ==> r.error == IllegalArgument
    ensures event == PayList ==> r == Success(PayloadEventList)
    ensures event == PayPeek ==> r == Success(PayloadEventPeek)
    ensures r.Success? ==> PayloadEventFromValue(r.value.event) == Success(event)
    ensures r.Success? && TakesToken(event) ==> r.value == PayloadToken(r.value.event, Trim(value.value))
    ensures r.Success? && TakesState(event) ==> r.value == PayloadState(r.value.event, Trim(value.value))
  {
    PayloadEventRoundTrip(event);
    if event == PayUnknown then Failure(IllegalArgument)
    else if event == PayList then Success(PayloadEventList)
    else if event == PayPeek then Success(PayloadEventPeek)
    else if value.None? || IsBlank(value.value) then Failure(IllegalArgument)
    else if TakesToken(event) then Success(PayloadToken(PayloadEventValue(event), Trim(value.value)))
    else Success(PayloadState(PayloadEventValue(event), Trim(value.value)))
  }

  /** `VtRequest.createRequest(event, type, id, payload)`. `LIST` gives the
      shared `{"event":"list"}` request and ignores the rest; `PAYLOAD` needs
      type `STATE_EVENTS`, a non-null id and a non-null payload. Any id is
      accepted, `UNKNOWN` included. */
  function CreateRequest(event: MessageEvent, payloadType: Option<MessagePayloadType>,
                         id: Option<MessagePayloadId>, payload: Option<RequestPayload>): (r: Result<RequestMessage, Exception>)
    ensures r.Success? <==>
      event == MsgList || (event == MsgPayload && payloadType == Some(StateEvents) && id.Some? && payload.Some?)
    ensures r.Failure? ==> r.error == IllegalArgument
    ensures event == MsgList ==> r == Success(EventList)
    ensures event == MsgPayload && r.Success? ==>
      r.value.NodeEvent? && r.value.event == "payload" && r.value.payloadType == "stateEvents" &&
      PayloadIdFromValue(r.value.id) == id.value && r.value.payload == payload.value
  {
    match event
    case MsgList => Success(EventList)
    case MsgPayload =>
      (match payloadType
       case Some(StateEvents) =>
         if id.None? then Failure(IllegalArgument)
         else if payload.None? then Failure(IllegalArgument)
         else Success(NodeEvent(MessageEventValue(event), PayloadTypeValue(StateEvents), PayloadIdValue(id.value), payload.value))
       case None => Failure(IllegalArgument)
       case Some(TypeUnknown) => Failure(IllegalArgument))
    case _ => Failure(IllegalArgument)
  }

  /** `VtRequest.createRequestWithPayload`: the payload argument is built
      first, so a bad payload fails even when `event` is `LIST`. */
  function CreateRequestWithPayload(event: MessageEvent, payloadType: Option<MessagePayloadType>,
                                    id: Option<MessagePayloadId>, payloadEvent: PayloadEvent,
                                    payloadValue: Option<string>): (r: Result<RequestMessage, Exception>)
    ensures CreatePayload(payloadEvent, payloadValue).Failure? ==> r == Failure(IllegalArgument)
    ensures CreatePayload(payloadEvent, payloadValue).Success? ==>
      r == CreateRequest(event, payloadType, id, Some(CreatePayload(payloadEvent, payloadValue).value))
  {
    var p :- CreatePayload(payloadEvent, payloadValue);
    CreateRequest(event, payloadType, id, Some(p))
  }

  /** The `create…StateMini(stateID)` helpers: a `PAYLOAD` / `STATE_EVENTS` /
      `MINI` request around `createPayload(event, stateID)`. */
  function StateMini(event: PayloadEvent, stateId: string): (r: Result<RequestMessage, Exception>)
    requires TakesState(event) || TakesToken(event)
    ensures r.Success? <==> !IsBlank(stateId)
    ensures r.Failure? ==> r.error == IllegalArgument
    ensures r.Success? ==> ValidateRequest(r.value) == Success(true)
    ensures r.Success? ==> r.value.NodeEvent? && PayloadEventFromValue(r.value.payload.event) == Success(event)
  {
    var p :- CreatePayload(event, Some(stateId));
    TrimNotBlank(stateId);
    CreateRequest(MsgPayload, Some(StateEvents), Some(Mini), Some(p))
  }

  /** `createSetStateMini`. */
  function SetStateMini(stateId: string): Result<RequestMessage, Exception> {
    StateMini(PaySet, stateId)
  }

  /** `createPushStateMini`. */
  function PushStateMini(stateId: string): Result<RequestMessage, Exception> {
    StateMini(PayPush, stateId)
  }

  /** `createPopStateMini`. */
  function PopStateMini(stateId: string): Result<RequestMessage, Exception> {
    StateMini(PayPop, stateId)
  }

  /** `createListenStateMini`. */
  function ListenStateMini(token: string): Result<RequestMessage, Exception> {
    StateMini(PayListen, token)
  }

  /** `createUnlistenStateMini`. */
  function UnlistenStateMini(token: string): Result<RequestMessage, Exception> {
    StateMini(PayUnlisten, token)
  }

  /** `createThumbnailStateMini`. */
  function ThumbnailStateMini(stateId: string): Result<RequestMessage, Exception> {
    StateMini(PayThumb, stateId)
  }

  /** The shared request values are what `createRequest` builds from the
      shared payloads. */
  lemma SharedRequests()
    ensures CreateRequest(MsgPayload, Some(StateEvents), Some(Mini), Some(PayloadEventList)) == Success(ListStateMini)
    ensures CreateRequest(MsgPayload, Some(StateEvents), Some(Mini), Some(PayloadEventPeek)) == Success(PeekStateMini)
    ensures CreateRequest(MsgList, None, None, None) == Success(EventList)
  {
  }

  /** What `RequestPayload.validate` accepts, stated on the strings. */
  predicate WellFormedPayload(p: RequestPayload) {
    match p
    case PayloadEventOnly(e) => e == "list" || e == "peek"
    case PayloadToken(e, t) => (e == "listen" || e == "unlisten") && !IsBlank(t)
    case PayloadState(e, s) => (e == "set" || e == "push" || e == "pop" || e == "thumb") && !IsBlank(s)
  }

  /** `RequestPayload.validate`: `true`, or `IllegalStateException` when the
      event does not fit the variant or the token/state is blank. An event
      string no `PayloadEvent` carries makes `fromValue` throw, and that
      `IllegalArgumentException` escapes unchanged. */
  function ValidatePayload(p: RequestPayload): (r: Result<bool, Exception>)
    ensures r.Success? <==> WellFormedPayload(p)
    ensures r.Success? ==> r.value
    ensures r.Failure? && !IsPayloadEventName(p.event) ==> r.error == IllegalArgument
    ensures r.Failure? && IsPayloadEventName(p.event) ==> r.error == IllegalState
  {
    var e :- PayloadEventFromValue(p.event);
    match p
    case PayloadEventOnly(_) =>
      if e == PayList || e == PayPeek then Success(true) else Failure(IllegalState)
    case PayloadToken(_, token) =>
      if TakesToken(e) then (if IsBlank(token) then Failure(IllegalState) else Success(true))
      else Failure(IllegalState)
    case PayloadState(_, state) =>
      if TakesState(e) then (if IsBlank(state) then Failure(IllegalState) else Success(true))
      else Failure(IllegalState)
  }

  /** What `RequestMessage.validate` accepts, stated on the strings. */
  predicate WellFormedRequest(m: RequestMessage) {
    match m
    case NodeList(e) => e == "list"
    case NodeEvent(e, t, i, p) => e == "payload" && t == "stateEvents" && i == "mini" && WellFormedPayload(p)
  }

  /** `RequestMessage.validate`: `true`, or `IllegalStateException`. For a
      node event, type, id and payload are examined only once the event is
      `payload`; whatever the payload validator throws is caught and turned
      into the same `IllegalStateException`. */
  function ValidateRequest(m: RequestMessage): (r: Result<bool, Exception>)
    ensures r.Success? <==> WellFormedRequest(m)
    ensures r.Success? ==> r.value
    ensures r.Failure? ==> r.error == IllegalState
  {
    match m
    case NodeList(e) =>
      if MessageEventFromValue(e) == MsgList then Success(true) else Failure(IllegalState)
    case NodeEvent(e, t, i, p) =>
      if MessageEventFromValue(e) == MsgPayload then
        var typeOk := PayloadTypeFromValue(t) == StateEvents;
        var idOk := PayloadIdFromValue(i) == Mini;
        var payloadOk := ValidatePayload(p).Success?;
        if typeOk && idOk && payloadOk then Success(true) else Failure(IllegalState)
      else Failure(IllegalState)
  }

  /** A node event whose event is not `payload` is rejected whatever its
      type, id and payload are. */
  lemma WrongEventIgnoresRest(e: string, t1: string, i1: string, p1: RequestPayload,
                              t2: string, i2: string, p2: RequestPayload)
    requires e != "payload"
    ensures ValidateRequest(NodeEvent(e, t1, i1, p1)) == ValidateRequest(NodeEvent(e, t2, i2, p2)) == Failure(IllegalState)
  {
  }

  /** A payload with an unrecognised event throws `IllegalArgumentException`
      on its own, but inside a request the caller sees `IllegalStateException`. */
  lemma UnknownPayloadEventKinds(p: RequestPayload)
    requires !IsPayloadEventName(p.event)
    ensures ValidatePayload(p) == Failure(IllegalArgument)
    ensures ValidateRequest(NodeEvent("payload", "stateEvents", "mini", p)) == Failure(IllegalState)
  {
  }

  /** Every payload the factory builds passes the payload validator. */
  lemma CreatedPayloadValid(event: PayloadEvent, value: Option<string>)
    requires CreatePayload(event, value).Success?
    ensures ValidatePayload(CreatePayload(event, value).value) == Success(true)
  {
    if TakesToken(event) || TakesState(event) {
      TrimNotBlank(value.value);
    }
  }

  /** A factory request with id `MINI` around a factory payload passes
      `validate`; so does the shared list request. */
  lemma {:induction false} FactoryRequestValid(event: MessageEvent, payloadEvent: PayloadEvent, value: Option<string>)
    requires CreateRequestWithPayload(event, Some(StateEvents), Some(Mini), payloadEvent, value).Success?
    ensures ValidateRequest(CreateRequestWithPayload(event, Some(StateEvents), Some(Mini), payloadEvent, value).value) == Success(true)
  {
    CreatedPayloadValid(payloadEvent, value);
  }

  /** The factory does not reject id `UNKNOWN`, but the validator does: the
      factory can build a request that `validate` refuses. */
  lemma UnknownIdPassesFactoryFailsValidate(p: RequestPayload)
    ensures CreateRequest(MsgPayload, Some(StateEvents), Some(IdUnknown), Some(p)).Success?
    ensures ValidateRequest(CreateRequest(MsgPayload, Some(StateEvents), Some(IdUnknown), Some(p)).value) == Failure(IllegalState)
  {
  }

  /** The JSON text of a request payload, fields in declaration order. */
  function EncodePayload(p: RequestPayload): string {
    match p
    case PayloadEventOnly(e) => "{\"event\":" + Quote(e) + "}"
    case PayloadToken(e, t) => "{\"event\":" + Quote(e) + ",\"token\":" + Quote(t) + "}"
    case PayloadState(e, s) => "{\"event\":" + Quote(e) + ",\"state\":" + Quote(s) + "}"
  }

  /** The JSON text of a request, fields in declaration order, every string
      written as an escaped literal. */
  function EncodeRequest(m: RequestMessage): string {
    match m
    case NodeList(e) => "{\"event\":" + Quote(e) + "}"
    case NodeEvent(e, t, i, p) =>
      "{\"event\":" + Quote(e) + ",\"type\":" + Quote(t) + ",\"id\":" + Quote(i) + ",\"payload\":" + EncodePayload(p) + "}"
  }

  /** The request text around the payload of every `payload` / `stateEvents` /
      `mini` request. */
  lemma MiniPrefixPieces(x: string)
    ensures "{\"event\":" + Quote("payload") + ",\"type\":" + Quote("stateEvents") + ",\"id\":" + Quote("mini")
      + ",\"payload\":" + x + "}" == "{\"event\":\"payload\",\"type\":\"stateEvents\",\"id\":\"mini\",\"payload\":" + x + "}"
  {
    MiniPrefix();
  }

  lemma MiniPrefix()
    ensures "{\"event\":" + Quote("payload") + ",\"type\":" + Quote("stateEvents") + ",\"id\":" + Quote("mini") + ",\"payload\":"
      == "{\"event\":\"payload\",\"type\":\"stateEvents\",\"id\":\"mini\",\"payload\":"
  {
    MiniPrefixEvent();
    MiniPrefixType();
    MiniPrefixId();
  }

  lemma MiniPrefixEvent()
    ensures "{\"event\":" + Quote("payload") == "{\"event\":\"payload\""
  {
    assert PlainJsonString("payload");
  }

  lemma MiniPrefixType()
    ensures "{\"event\":\"payload\"" + ",\"type\":" + Quote("stateEvents") == "{\"event\":\"payload\",\"type\":\"stateEvents\""
  {
    assert PlainJsonString("stateEvents");
  }

  lemma MiniPrefixId()
    ensures "{\"event\":\"payload\",\"type\":\"stateEvents\"" + ",\"id\":" + Quote("mini") + ",\"payload\":"
      == "{\"event\":\"payload\",\"type\":\"stateEvents\",\"id\":\"mini\",\"payload\":"
  {
    assert PlainJsonString("mini");
  }

  lemma MiniRequestText(p: RequestPayload)
    ensures EncodeRequest(NodeEvent("payload", "stateEvents", "mini", p)) == "{\"event\":\"payload\",\"type\":\"stateEvents\",\"id\":\"mini\",\"payload\":" + EncodePayload(p) + "}"
  {
    MiniPrefixPieces(EncodePayload(p));
  }

  /** The encoded form of every state helper: the state id appears trimmed
      and escaped, and decodes back to the trimmed id. */
  lemma StateMiniEncoding(event: PayloadEvent, stateId: string)
    requires TakesState(event) && !IsBlank(stateId)
    ensures EncodeRequest(StateMini(event, stateId).value) ==
      "{\"event\":\"payload\",\"type\":\"stateEvents\",\"id\":\"mini\",\"payload\":" + "{\"event\":\"" + PayloadEventValue(event) + "\",\"state\":\"" + Escape(Trim(stateId)) + "\"}}"
    ensures Unescape(Escape(Trim(stateId))) == Some(Trim(stateId))
  {
    var v, t := PayloadEventValue(event), Trim(stateId);
    var p := PayloadState(v, t);
    StateMiniShape(event, stateId);
    MiniRequestText(p);
    EventNamesPlain(event);
    StatePayloadText(v, t);
    Regroup("{\"event\":\"payload\",\"type\":\"stateEvents\",\"id\":\"mini\",\"payload\":", "{\"event\":\"", v, "\",\"state\":\"", Escape(t), "\"}", "}");
    assert "\"}" + "}" == "\"}}";
    UnescapeEscape(t);
  }

  /** The payload event names need no escaping. */
  lemma EventNamesPlain(e: PayloadEvent)
    ensures PlainJsonString(PayloadEventValue(e))
  {
  }

  lemma StateMiniShape(event: PayloadEvent, stateId: string)
    requires TakesState(event) && !IsBlank(stateId)
    ensures StateMini(event, stateId).value == NodeEvent("payload", "stateEvents", "mini", PayloadState(PayloadEventValue(event), Trim(stateId)))
  {
  }

  lemma StatePayloadText(v: string, t: string)
    requires PlainJsonString(v)
    ensures EncodePayload(PayloadState(v, t)) == "{\"event\":\"" + v + "\",\"state\":\"" + Escape(t) + "\"}"
  {
    QuotedPair("{\"event\":", v, ",\"state\":", Escape(t), "}");
    assert "{\"event\":" + "\"" == "{\"event\":\"";
    assert "\"" + ",\"state\":" + "\"" == "\",\"state\":\"";
    assert "\"" + "}" == "\"}";
  }

  /** Two quoted values between three fixed texts, regrouped. */
  lemma QuotedPair(a: string, x: string, b: string, y: string, c: string)
    ensures a + ("\"" + x + "\"") + b + ("\"" + y + "\"") + c
      == (a + "\"") + x + ("\"" + b + "\"") + y + ("\"" + c)
  {
  }

  /** A payload text placed inside the request, regrouped. */
  lemma Regroup(p: string, a: string, v: string, b: string, e: string, c: string, d: string)
    ensures p + (a + v + b + e + c) + d == p + a + v + b + e + (c + d)
  {
  }

  /** `{"event":"list"}` for the shared list request. */
  lemma EncodeEventList()
    ensures EncodeRequest(EventList) == "{\"event\":\"list\"}"
  {
    assert PlainJsonString("list");
  }

  /** The shared list-states request. */
  lemma EncodeListStateMini()
    ensures EncodeRequest(ListStateMini) ==
      "{\"event\":\"payload\",\"type\":\"stateEvents\",\"id\":\"mini\",\"payload\":{\"event\":\"list\"}}"
  {
    MiniRequestText(PayloadEventList);
    ListPayloadText(PayloadEventList);
    ListText(EncodeRequest(ListStateMini));
  }

  lemma ListText(t: string)
    requires t == "{\"event\":\"payload\",\"type\":\"stateEvents\",\"id\":\"mini\",\"payload\":" + "{\"event\":\"list\"}" + "}"
    ensures t == "{\"event\":\"payload\",\"type\":\"stateEvents\",\"id\":\"mini\",\"payload\":{\"event\":\"list\"}}"
  {
  }

  lemma ListPayloadText(p: RequestPayload)
    requires p == PayloadEventList
    ensures EncodePayload(p) == "{\"event\":\"list\"}"
  {
    assert PlainJsonString("list");
  }

  /** `createSetStateMini("BF")`. */
  lemma EncodeSetBF(s: string)
    requires s == "BF"
    ensures SetStateMini(s).Success?
    ensures EncodeRequest(SetStateMini(s).value) ==
      "{\"event\":\"payload\",\"type\":\"stateEvents\",\"id\":\"mini\",\"payload\":{\"event\":\"set\",\"state\":\"BF\"}}"
  {
    BFIsTrimmed(s);
    assert PlainJsonString(s);
    SetPlainStateEncoding(s);
    SetBFText("set", s, EncodeRequest(SetStateMini(s).value));
  }

  /** The `set` request for a state ID that needs neither trimming nor escaping
      carries the ID verbatim. */
  lemma SetPlainStateEncoding(s: string)
    requires !IsBlank(s) && Trim(s) == s && PlainJsonString(s)
    ensures SetStateMini(s).Success?
    ensures EncodeRequest(SetStateMini(s).value) ==
      "{\"event\":\"payload\",\"type\":\"stateEvents\",\"id\":\"mini\",\"payload\":" + "{\"event\":\"" + "set" + "\",\"state\":\"" + s + "\"}}"
  {
    StateMiniEncoding(PaySet, s);
  }

  lemma BFIsTrimmed(s: string)
    requires s == "BF"
    ensures Trim(s) == s && !IsBlank(s)
  {
    assert !IsWhitespace(s[0]) && !IsWhitespace(s[1]);
    TrimNoSpace(s);
  }

  lemma SetBFText(v: string, s: string, t: string)
    requires v == "set" && s == "BF"
    requires t == "{\"event\":\"payload\",\"type\":\"stateEvents\",\"id\":\"mini\",\"payload\":" + "{\"event\":\"" + v + "\",\"state\":\"" + s + "\"}}"
    ensures t == "{\"event\":\"payload\",\"type\":\"stateEvents\",\"id\":\"mini\",\"payload\":{\"event\":\"set\",\"state\":\"BF\"}}"
  {
    var q1 := "{\"event\":\"payload\",\"type\":\"stateEvents\",\"id\":\"mini\",\"payload\":" + "{\"event\":\"";
    assert q1 == "{\"event\":\"payload\",\"type\":\"stateEvents\",\"id\":\"mini\",\"payload\":{\"event\":\"";
    var q2 := q1 + "set" + "\",\"state\":\"";
    assert q2 == "{\"event\":\"payload\",\"type\":\"stateEvents\",\"id\":\"mini\",\"payload\":{\"event\":\"set\",\"state\":\"";
  }
}
