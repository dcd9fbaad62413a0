/** The content-based polymorphic serializers: each looks at the keys of a
    decoded JSON object and picks the variant to decode it as. JSON text is
    not modelled; a decoded document is the tree `Json`, an object being a
    map from keys to values. The variant decoders follow the serialization
    library's defaults: every property is required, an unknown key is an
    error, a `String` property needs a JSON string, and an `Int` property
    takes a JSON number in 32-bit range or a JSON string holding one in
    decimal (the tree decoder reads an `Int` from the primitive's content,
    quoted or not). */
module Serializers {
  import opened Wrappers
  import opened JvmNumbers
  import RQ = RequestMessages
  import opened ResultMessages

  /** A decoded JSON element. Numbers are integers; fractions and exponents
      are not modelled. */
  datatype Json =
    | JNull
    | JBool(b: bool)
    | JNumber(n: int)
    | JString(s: string)
    | JArray(items: seq<Json>)
    | JObject(fields: map<string, Json>)

  /** A Kotlin value as `Any.equals` sees it: values of different classes
      are never equal, so a `JsonElement` never equals a `String`. */
  datatype KotlinValue = OfJsonElement(element: Json) | OfString(text: string)

  /** The variant chosen for a request message. */
  datatype RequestMessageVariant = NodeListVariant | NodeEventVariant

  /** The variant chosen for a request payload. */
  datatype RequestPayloadVariant = EventOnlyVariant | TokenVariant | StateVariant

  /** The variant chosen for a result message. */
  datatype ResultMessageVariant = WithPayloadVariant | WithEntryListVariant

  /** The variant chosen for a result payload. */
  datatype ResultPayloadVariant = StateListVariant | CurrentStateVariant | PngVariant

  /** `element.jsonObject`: anything but an object is rejected. */
  function AsObject(j: Json): (r: Result<map<string, Json>, Exception>)
    ensures r.Success? <==> j.JObject?
    ensures r.Success? ==> r.value == j.fields
    ensures r.Failure? ==> r.error == IllegalArgument
  {
    if j.JObject? then Success(j.fields) else Failure(IllegalArgument)
  }

  /** `RequestMessageSerializer.selectDeserializer`. The first test compares
      the `event` element with the string `"list"` through `equals`, which
      never holds across the two classes; only `payload` selects a variant. */
  function SelectRequestMessage(j: Json): (r: Result<RequestMessageVariant, Exception>)
    ensures r.Success? <==> j.JObject? && "payload" in j.fields
    ensures r.Success? ==> r.value == NodeEventVariant
    ensures r.Failure? ==> r.error == IllegalArgument
  {
    var o :- AsObject(j);
    if "event" in o && OfJsonElement(o["event"]) == OfString("list") then Success(NodeListVariant)
    else if "payload" in o then Success(NodeEventVariant)
    else Failure(IllegalArgument)
  }

  /** `RequestPayloadSerializer.selectDeserializer`: `token`, then `state`,
      then `event`. */
  function SelectRequestPayload(j: Json): (r: Result<RequestPayloadVariant, Exception>)
    ensures r.Success? <==> j.JObject? && ("token" in j.fields || "state" in j.fields || "event" in j.fields)
    ensures r.Success? && "token" in j.fields ==> r.value == TokenVariant
    ensures r.Success? && "token" !in j.fields && "state" in j.fields ==> r.value == StateVariant
    ensures r.Success? && "token" !in j.fields && "state" !in j.fields ==> r.value == EventOnlyVariant
    ensures r.Failure? ==> r.error == IllegalArgument
  {
    var o :- AsObject(j);
    if "token" in o then Success(TokenVariant)
    else if "state" in o then Success(StateVariant)
    else if "event" in o then Success(EventOnlyVariant)
    else Failure(IllegalArgument)
  }

  /** `ResultMessageSerializer.selectDeserializer`: `payload` wins over
      `entries`. */
  function SelectResultMessage(j: Json): (r: Result<ResultMessageVariant, Exception>)
    ensures r.Success? <==> j.JObject? && ("payload" in j.fields || "entries" in j.fields)
    ensures r.Success? ==> (r.value == WithPayloadVariant <==> "payload" in j.fields)
    ensures r.Failure? ==> r.error == IllegalArgument
  {
    var o :- AsObject(j);
    if "payload" in o then Success(WithPayloadVariant)
    else if "entries" in o then Success(WithEntryListVariant)
    else Failure(IllegalArgument)
  }

  /** `ResultPayloadSerializer.selectDeserializer`: `states` wins; `state`
      selects the thumbnail when `png` is there too, else the single state;
      `png` without `state` is rejected. */
  function SelectResultPayload(j: Json): (r: Result<ResultPayloadVariant, Exception>)
    ensures r.Success? <==> j.JObject? && ("states" in j.fields || "state" in j.fields)
    ensures r.Success? && "states" in j.fields ==> r.value == StateListVariant
    ensures r.Success? && "states" !in j.fields ==>
      r.value == (if "png" in j.fields then PngVariant else CurrentStateVariant)
    ensures r.Failure? ==> r.error == IllegalArgument
  {
    var o :- AsObject(j);
    if "states" in o then Success(StateListVariant)
    else if "state" in o then (if "png" in o then Success(PngVariant) else Success(CurrentStateVariant))
    else Failure(IllegalArgument)
  }

  /** Every selector looks only at which keys are present: two objects with
      the same keys select the same variant, whatever the values. */
  lemma SelectionDependsOnlyOnKeys(a: map<string, Json>, b: map<string, Json>)
    requires a.Keys == b.Keys
    ensures SelectRequestMessage(JObject(a)) == SelectRequestMessage(JObject(b))
    ensures SelectRequestPayload(JObject(a)) == SelectRequestPayload(JObject(b))
    ensures SelectResultMessage(JObject(a)) == SelectResultMessage(JObject(b))
    ensures SelectResultPayload(JObject(a)) == SelectResultPayload(JObject(b))
  {
  }

  /** `{"event":"list"}`, the node list request, is not recognised: it has
      no `payload` key, so the selector throws. */
  lemma EventListNotSelected(j: Json)
    requires j == JObject(map["event" := JString("list")])
    ensures SelectRequestMessage(j) == Failure(IllegalArgument)
  {
  }

  /** The JSON tree of a request payload, as the encoder writes it. */
  function RequestPayloadTree(p: RQ.RequestPayload): Json {
    match p
    case PayloadEventOnly(e) => JObject(map["event" := JString(e)])
    case PayloadToken(e, t) => JObject(map["event" := JString(e), "token" := JString(t)])
    case PayloadState(e, s) => JObject(map["event" := JString(e), "state" := JString(s)])
  }

  /** The JSON tree of a request, as the encoder writes it. */
  function RequestTree(m: RQ.RequestMessage): Json {
    match m
    case NodeList(e) => JObject(map["event" := JString(e)])
    case NodeEvent(e, t, i, p) =>
      JObject(map["event" := JString(e), "type" := JString(t), "id" := JString(i), "payload" := RequestPayloadTree(p)])
  }

  /** Reading back what the client writes: every payload selects its own
      variant; a node event selects `NodeEvent`, but a node list is
      rejected. */
  lemma RequestTreeSelection(m: RQ.RequestMessage, p: RQ.RequestPayload)
    ensures SelectRequestPayload(RequestPayloadTree(p)) ==
      Success(match p
              case PayloadEventOnly(_) => EventOnlyVariant
              case PayloadToken(_, _) => TokenVariant
              case PayloadState(_, _) => StateVariant)
    ensures m.NodeEvent? ==> SelectRequestMessage(RequestTree(m)) == Success(NodeEventVariant)
    ensures m.NodeList? ==> SelectRequestMessage(RequestTree(m)) == Failure(IllegalArgument)
  {
  }

  /** A `String` property. */
  function StringValue(j: Json): (r: Result<string, Exception>)
    ensures r.Success? <==> j.JString?
    ensures r.Success? ==> r.value == j.s
  {
    if j.JString? then Success(j.s) else Failure(IllegalArgument)
  }

  /** An ASCII decimal digit. */
  predicate IsDecimalDigit(c: char) {
    '0' <= c <= '9'
  }

  /** One or more ASCII decimal digits. */
  predicate IsDecimal(s: string) {
    |s| > 0 && forall i :: 0 <= i < |s| ==> IsDecimalDigit(s[i])
  }

  /** The number the decimal digits `s` denote, most significant first. */
  function DecimalValue(s: string): int
    requires forall i :: 0 <= i < |s| ==> IsDecimalDigit(s[i])
  {
    if |s| == 0 then 0 else 10 * DecimalValue(s[..|s| - 1]) + (s[|s| - 1] as int - '0' as int)
  }

  /** The number the content of a quoted `Int` denotes: decimal digits with
      an optional minus sign, and `None` for any other text. */
  function SignedDecimal(s: string): Option<int> {
    if |s| > 0 && s[0] == '-' then
      if IsDecimal(s[1..]) then Some(-DecimalValue(s[1..])) else None
    else if IsDecimal(s) then Some(DecimalValue(s))
    else None
  }

  /** An `Int` property: a JSON number, or a string holding a decimal, in
      32-bit range. */
  function IntValue(j: Json): (r: Result<Int32, Exception>)
    ensures j.JNumber? ==> (r.Success? <==> INT_MIN <= j.n <= INT_MAX)
    ensures j.JString? ==> (r.Success? <==> SignedDecimal(j.s).Some? && INT_MIN <= SignedDecimal(j.s).value <= INT_MAX)
    ensures !j.JNumber? && !j.JString? ==> r.Failure?
    ensures r.Success? && j.JNumber? ==> r.value == j.n
    ensures r.Success? && j.JString? ==> r.value == SignedDecimal(j.s).value
  {
    if j.JNumber? && INT_MIN <= j.n <= INT_MAX then Success(j.n)
    else if j.JString? && SignedDecimal(j.s).Some? && INT_MIN <= SignedDecimal(j.s).value <= INT_MAX then
      Success(SignedDecimal(j.s).value)
    else Failure(IllegalArgument)
  }

  /** `toString()` of a non-negative number: its decimal digits. */
  function DecimalText(n: nat): (s: string)
    ensures IsDecimal(s)
  {
    if n < 10 then [('0' as int + n) as char]
    else DecimalText(n / 10) + [('0' as int + n % 10) as char]
  }

  /** `Int.toString()`: the decimal digits, after a minus sign when negative. */
  function IntText(n: int): string {
    if n < 0 then "-" + DecimalText(-n) else DecimalText(n)
  }

  /** The digits `toString()` writes denote the number. */
  lemma {:induction false} DecimalTextValue(n: nat)
    ensures DecimalValue(DecimalText(n)) == n
  {
    if n >= 10 {
      var s := DecimalText(n);
      DecimalTextValue(n / 10);
      assert s[..|s| - 1] == DecimalText(n / 10);
    }
  }

  /** A quoted `Int` written by `toString()` is read back as that `Int`. */
  lemma QuotedIntRoundTrip(n: Int32)
    ensures IntValue(JString(IntText(n))) == Success(n)
  {
    IntTextRoundTrip(n);
  }

  /** Reading the content of a quoted number inverts `Int.toString()`. */
  lemma IntTextRoundTrip(n: int)
    ensures SignedDecimal(IntText(n)) == Some(n)
  {
    var t := IntText(n);
    if n < 0 {
      var m: nat := -n;
      DecimalTextValue(m);
      assert t[0] == '-' && t[1..] == DecimalText(m);
    } else {
      DecimalTextValue(n);
      assert IsDecimalDigit(t[0]);
    }
  }

  /** The members of an object of a class with exactly the properties
      `keys`: a missing or unknown key is an error. */
  function Members(j: Json, keys: set<string>): (r: Result<map<string, Json>, Exception>)
    ensures r.Success? <==> j.JObject? && j.fields.Keys == keys
    ensures r.Success? ==> r.value == j.fields
  {
    var o :- AsObject(j);
    if o.Keys == keys then Success(o) else Failure(IllegalArgument)
  }

  /** A list property. */
  function Items(j: Json): (r: Result<seq<Json>, Exception>)
    ensures r.Success? <==> j.JArray?
  {
    if j.JArray? then Success(j.items) else Failure(IllegalArgument)
  }

  function DecodeState(j: Json): Result<State, Exception> {
    var o :- Members(j, {"id", "name"});
    var id :- StringValue(o["id"]);
    var name :- StringValue(o["name"]);
    Success(State(id, name))
  }

  function DecodeEntry(j: Json): Result<Entry, Exception> {
    var o :- Members(j, {"type", "id", "name"});
    var t :- StringValue(o["type"]);
    var id :- StringValue(o["id"]);
    var name :- StringValue(o["name"]);
    Success(Entry(t, id, name))
  }

  /** Every element must decode; the list keeps their order. */
  function DecodeStates(items: seq<Json>): (r: Result<seq<State>, Exception>)
    ensures r.Success? ==> |r.value| == |items|
    ensures r.Success? ==> forall i :: 0 <= i < |items| ==> DecodeState(items[i]) == Success(r.value[i])
  {
    if |items| == 0 then Success([])
    else
      var s :- DecodeState(items[0]);
      var rest :- DecodeStates(items[1..]);
      Success([s] + rest)
  }

  function DecodeEntries(items: seq<Json>): (r: Result<seq<Entry>, Exception>)
    ensures r.Success? ==> |r.value| == |items|
    ensures r.Success? ==> forall i :: 0 <= i < |items| ==> DecodeEntry(items[i]) == Success(r.value[i])
  {
    if |items| == 0 then Success([])
    else
      var e :- DecodeEntry(items[0]);
      var rest :- DecodeEntries(items[1..]);
      Success([e] + rest)
  }

  /** Decoding a result payload: select the variant by its keys, then
      decode the object as that variant. */
  function DecodeResultPayload(j: Json): (r: Result<ResultPayload, Exception>)
    ensures r.Success? ==> SelectResultPayload(j).Success?
    ensures r.Success? ==> match SelectResultPayload(j).value
                           case StateListVariant => r.value.StateList?
                           case CurrentStateVariant => r.value.CurrentState?
                           case PngVariant => r.value.Png?
  {
    var v :- SelectResultPayload(j);
    match v
    case StateListVariant =>
      var o :- Members(j, {"event", "states"});
      var e :- StringValue(o["event"]);
      var items :- Items(o["states"]);
      var states :- DecodeStates(items);
      Success(StateList(e, states))
    case CurrentStateVariant =>
      var o :- Members(j, {"event", "state"});
      var e :- StringValue(o["event"]);
      var s :- StringValue(o["state"]);
      Success(CurrentState(e, s))
    case PngVariant =>
      var o :- Members(j, {"event", "state", "width", "height", "png"});
      var e :- StringValue(o["event"]);
      var s :- StringValue(o["state"]);
      var w :- IntValue(o["width"]);
      var h :- IntValue(o["height"]);
      var png :- StringValue(o["png"]);
      Success(Png(e, s, w, h, png))
  }

  /** Decoding a result message: select the variant by its keys, then
      decode the object as that variant. */
  function DecodeResultMessage(j: Json): (r: Result<ResultBody, Exception>)
    ensures r.Success? ==> SelectResultMessage(j).Success?
    ensures r.Success? ==> (r.value.WithPayload? <==> SelectResultMessage(j).value == WithPayloadVariant)
  {
    var v :- SelectResultMessage(j);
    match v
    case WithPayloadVariant =>
      var o :- Members(j, {"event", "type", "id", "name", "payload"});
      var e :- StringValue(o["event"]);
      var t :- StringValue(o["type"]);
      var id :- StringValue(o["id"]);
      var name :- StringValue(o["name"]);
      var p :- DecodeResultPayload(o["payload"]);
      Success(WithPayload(e, t, id, name, p))
    case WithEntryListVariant =>
      var o :- Members(j, {"event", "entries"});
      var e :- StringValue(o["event"]);
      var items :- Items(o["entries"]);
      var entries :- DecodeEntries(items);
      Success(WithEntryList(e, entries))
  }

  function StateTree(s: State): Json {
    JObject(map["id" := JString(s.id), "name" := JString(s.name)])
  }

  function EntryTree(e: Entry): Json {
    JObject(map["type" := JString(e.entryType), "id" := JString(e.id), "name" := JString(e.name)])
  }

  function StatesTree(ss: seq<State>): (r: seq<Json>)
    ensures |r| == |ss|
  {
    if |ss| == 0 then [] else [StateTree(ss[0])] + StatesTree(ss[1..])
  }

  function EntriesTree(es: seq<Entry>): (r: seq<Json>)
    ensures |r| == |es|
  {
    if |es| == 0 then [] else [EntryTree(es[0])] + EntriesTree(es[1..])
  }

  /** The JSON tree veadotube sends for a result payload. */
  function ResultPayloadTree(p: ResultPayload): Json {
    match p
    case StateList(e, ss) => JObject(map["event" := JString(e), "states" := JArray(StatesTree(ss))])
    case CurrentState(e, s) => JObject(map["event" := JString(e), "state" := JString(s)])
    case Png(e, s, w, h, png) =>
      JObject(map["event" := JString(e), "state" := JString(s), "width" := JNumber(w),
                  "height" := JNumber(h), "png" := JString(png)])
  }

  /** The JSON tree veadotube sends for a result message. */
  function ResultTree(b: ResultBody): Json {
    match b
    case WithPayload(e, t, id, name, p) =>
      JObject(map["event" := JString(e), "type" := JString(t), "id" := JString(id), "name" := JString(name),
                  "payload" := ResultPayloadTree(p)])
    case WithEntryList(e, es) => JObject(map["event" := JString(e), "entries" := JArray(EntriesTree(es))])
  }

  lemma {:induction false} StatesRoundTrip(ss: seq<State>)
    ensures DecodeStates(StatesTree(ss)) == Success(ss)
  {
    if |ss| > 0 {
      var t := StatesTree(ss);
      assert t[0] == StateTree(ss[0]) && t[1..] == StatesTree(ss[1..]);
      assert DecodeState(t[0]) == Success(ss[0]);
      StatesRoundTrip(ss[1..]);
      assert [ss[0]] + ss[1..] == ss;
    }
  }

  lemma {:induction false} EntriesRoundTrip(es: seq<Entry>)
    ensures DecodeEntries(EntriesTree(es)) == Success(es)
  {
    if |es| > 0 {
      var t := EntriesTree(es);
      assert t[0] == EntryTree(es[0]) && t[1..] == EntriesTree(es[1..]);
      assert DecodeEntry(t[0]) == Success(es[0]);
      EntriesRoundTrip(es[1..]);
      assert [es[0]] + es[1..] == es;
    }
  }

  /** Decoding the tree of a payload gives the payload back. */
  lemma ResultPayloadRoundTrip(p: ResultPayload)
    ensures DecodeResultPayload(ResultPayloadTree(p)) == Success(p)
  {
    if p.StateList? {
      StatesRoundTrip(p.states);
    }
  }

  /** Decoding the tree of a result message gives the message back: the
      key-presence selection never picks the wrong variant for what
      veadotube sends. */
  lemma ResultRoundTrip(b: ResultBody)
    ensures DecodeResultMessage(ResultTree(b)) == Success(b)
  {
    match b
    case WithPayload(_, _, _, _, p) =>
      ResultPayloadRoundTrip(p);
    case WithEntryList(_, es) =>
      EntriesRoundTrip(es);
  }

  /** A thumbnail whose width and height arrive as quoted numbers decodes
      to the same payload as one with plain numbers. */
  lemma QuotedSizesDecoded(e: string, st: string, w: Int32, h: Int32, png: string)
    ensures DecodeResultPayload(JObject(map["event" := JString(e), "state" := JString(st),
              "width" := JString(IntText(w)), "height" := JString(IntText(h)), "png" := JString(png)]))
      == Success(Png(e, st, w, h, png))
  {
    QuotedIntRoundTrip(w);
    QuotedIntRoundTrip(h);
  }

  /** A thumbnail without a `state` key is not accepted, even with `png`. */
  lemma PngWithoutStateRejected(j: Json)
    requires j.JObject? && "png" in j.fields && "state" !in j.fields && "states" !in j.fields
    ensures DecodeResultPayload(j).Failure?
  {
  }

  /** The thumbnail reply of the connection test decodes to a thumbnail of
      state "3", 129 by 129 pixels. */
  lemma ThumbReply(j: Json, png: string)
    requires j == JObject(map[
      "event" := JString("payload"), "type" := JString("stateEvents"), "id" := JString("mini"),
      "name" := JString("avatar state"),
      "payload" := JObject(map["event" := JString("thumb"), "state" := JString("3"), "width" := JNumber(129),
                               "height" := JNumber(129), "png" := JString(png)])])
    ensures DecodeResultMessage(j) ==
      Success(WithPayload("payload", "stateEvents", "mini", "avatar state", Png("thumb", "3", 129, 129, png)))
  {
    ResultRoundTrip(WithPayload("payload", "stateEvents", "mini", "avatar state", Png("thumb", "3", 129, 129, png)));
  }
}
