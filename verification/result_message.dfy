/** Results received from veadotube: the closed result-message and
    result-payload types, their `State` and `Entry` records, the `channel`
    tag added after decoding, and the hand-written equality of thumbnail
    payloads. */
module ResultMessages {
  import opened JvmNumbers
  import opened KotlinText

  /** A state (avatar) of a node: its id and display name. */
  datatype State = State(id: string, name: string)

  /** A node listed by the `list` reply. */
  datatype Entry = Entry(entryType: string, id: string, name: string)

  /** `ResultPayload`: the list of states, the current state, or a state's
      thumbnail (a base64 PNG with its size in pixels). */
  datatype ResultPayload =
    | StateList(event: string, states: seq<State>)
    | CurrentState(event: string, state: string)
    | Png(event: string, state: string, width: Int32, height: Int32, png: string)

  /** The decoded part of a `ResultMessage`. */
  datatype ResultBody =
    | WithPayload(event: string, payloadType: string, id: string, name: string, payload: ResultPayload)
    | WithEntryList(event: string, entries: seq<Entry>)

  /** A `ResultMessage`: the decoded body and the transient `channel`, which
      is not part of the JSON and not a constructor property. */
  datatype ResultMessage = ResultMessage(body: ResultBody, channel: string)

  /** A freshly decoded message: `channel` starts blank. */
  function FromBody(body: ResultBody): (m: ResultMessage)
    ensures m.body == body && m.channel == ""
  {
    ResultMessage(body, "")
  }

  /** The module-internal `channel` setter: only the tag changes. */
  function WithChannel(m: ResultMessage, channel: string): (r: ResultMessage)
    ensures r.body == m.body && r.channel == channel
  {
    m.(channel := channel)
  }

  /** Data-class equality of result messages: the constructor properties
      only, so the channel tag is ignored. */
  predicate SameResult(a: ResultMessage, b: ResultMessage) {
    a.body == b.body
  }

  /** Tagging a message with a channel keeps it equal to the untagged one. */
  lemma ChannelIgnoredByEquality(m: ResultMessage, c: string)
    ensures SameResult(WithChannel(m, c), m)
    ensures WithChannel(m, c).channel == c
    ensures c != m.channel ==> WithChannel(m, c) != m
  {
  }

  /** `ResultPayloadPng.equals`: event, state, width, height and the PNG
      text, field by field. */
  predicate PngEquals(a: ResultPayload, b: ResultPayload)
    requires a.Png? && b.Png?
  {
    a.event == b.event && a.state == b.state && a.width == b.width && a.height == b.height && a.png == b.png
  }

  /** `ResultPayloadPng.hashCode`: `31 * h + field` over the five fields, in
      32-bit arithmetic. */
  function PngHashCode(p: ResultPayload): Int32
    requires p.Png?
  {
    HashStep(HashStep(HashStep(HashStep(StringHash(p.event), StringHash(p.state)), p.width), p.height), StringHash(p.png))
  }

  /** The hand-written equality is the structural one, and the hash agrees
      with it. */
  lemma PngEqualityConsistent(a: ResultPayload, b: ResultPayload)
    requires a.Png? && b.Png?
    ensures PngEquals(a, b) <==> a == b
    ensures PngEquals(a, b) ==> PngHashCode(a) == PngHashCode(b)
  {
  }

  /** The hash does not decide equality: two thumbnails whose PNG texts
      collide under `String.hashCode` hash alike. */
  lemma PngHashCollision(a: ResultPayload, b: ResultPayload)
    requires a.Png? && b.Png?
    requires a.event == b.event && a.state == b.state && a.width == b.width && a.height == b.height
    requires a.png == "Aa" && b.png == "BB"
    ensures !PngEquals(a, b) && PngHashCode(a) == PngHashCode(b)
  {
    HashCollision();
    assert a.png != b.png;
    SamePngHash(a, b);
  }

  /** Thumbnails that differ only in PNG texts of equal hash hash alike. */
  lemma SamePngHash(a: ResultPayload, b: ResultPayload)
    requires a.Png? && b.Png?
    requires a.event == b.event && a.state == b.state && a.width == b.width && a.height == b.height
    requires StringHash(a.png) == StringHash(b.png)
    ensures PngHashCode(a) == PngHashCode(b)
  {
  }
}
