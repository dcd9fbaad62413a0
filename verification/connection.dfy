/** One WebSocket connection to a veadotube instance, without the sockets:
    unframing a received message, the receive pipeline, the guards of
    `send`, the `close` latch, and the watcher loop as a step function over
    the outcome of each connection attempt. Listener calls are events in a
    trace. */
module Connections {
  import opened Wrappers
  import opened KotlinText
  import CE = ConnectionErrors
  import RQ = RequestMessages
  import opened ResultMessages
  import opened Serializers

  const NUL: bv8 := 0
  const COLON: bv8 := 0x3A
  const BRACE_OPEN: bv8 := 0x7B

  /** Retries before `ExceededRetries`. */
  const WS_CONN_ERROR_MAX: int := 5

  /** Base retry wait, in milliseconds. */
  const WS_CONN_ERROR_WAIT_MS: int := 500

  /** `InstancesManager.READ_LOOP_DELAY_MAX_MS`. */
  const READ_LOOP_DELAY_MAX_MS: int := 3000

  /** Where the JSON text ends: at the first NUL byte if that is not the
      first byte, else at the end of the message. */
  function BodyEnd(msg: seq<bv8>): (n: nat)
    ensures n <= |msg|
    ensures n < |msg| ==> msg[n] == NUL && n > 0 && NUL !in msg[..n]
    ensures n == |msg| ==> NUL !in msg || msg[0] == NUL
  {
    var i := IndexOf(msg, NUL);
    if i > 0 then i else |msg|
  }

  /** `String(bytes, offset, length)` with the platform's UTF-8 decoding
      `utf8`: zero bytes give the empty string. */
  function Decode(bytes: seq<bv8>, utf8: seq<bv8> -> string): (s: string)
    ensures |bytes| == 0 ==> s == ""
  {
    if |bytes| == 0 then "" else utf8(bytes)
  }

  /** `processReceivedMessage`: `<channel>:<json>`, the channel being the
      bytes before the first colon. The first guard joins its two tests with
      `&&`, so a `{` before the colon is not rejected by it. The channel must
      decode to a non-blank string; a body end before the colon makes the
      string constructor throw. `utf8` is the platform's UTF-8 decoding and
      `parseJson` the JSON parser. */
  function ProcessReceivedMessage(msg: seq<bv8>, utf8: seq<bv8> -> string, parseJson: string -> Option<Json>): (r: Option<ResultMessage>)
    ensures var c := IndexOf(msg, COLON);
      r.Some? <==>
        c > 0 && !IsBlank(Decode(msg[..c], utf8)) && c + 1 <= BodyEnd(msg) &&
        parseJson(Decode(msg[c + 1..BodyEnd(msg)], utf8)).Some? &&
        DecodeResultMessage(parseJson(Decode(msg[c + 1..BodyEnd(msg)], utf8)).value).Success?
    ensures var c := IndexOf(msg, COLON);
      r.Some? ==>
        r.value.channel == Decode(msg[..c], utf8) &&
        Success(r.value.body) == DecodeResultMessage(parseJson(Decode(msg[c + 1..BodyEnd(msg)], utf8)).value)
  {
    var c := IndexOf(msg, COLON);
    if c <= 0 && c < IndexOf(msg, BRACE_OPEN) then None
    else if c < 0 then None
    else
      var channel := Decode(msg[..c], utf8);
      if IsBlank(channel) then None
      else
        var end := BodyEnd(msg);
        if end < c + 1 then None
        else
          match parseJson(Decode(msg[c + 1..end], utf8))
          case None => None
          case Some(j) =>
            match DecodeResultMessage(j)
            case Failure(_) => None
            case Success(body) => Some(WithChannel(FromBody(body), channel))
  }

  /** What a well-formed frame decodes to. */
  function Expected(channel: string, text: string, parseJson: string -> Option<Json>): Option<ResultMessage> {
    match parseJson(text)
    case None => None
    case Some(j) =>
      match DecodeResultMessage(j)
      case Failure(_) => None
      case Success(body) => Some(ResultMessage(body, channel))
  }

  /** Framing then unframing: a channel without colon or NUL, a colon, a
      body without NUL and, optionally, NUL padding decode as the body
      tagged with the channel. */
  lemma FrameRoundTrip(ch: seq<bv8>, body: seq<bv8>, pad: seq<bv8>,
                       utf8: seq<bv8> -> string, parseJson: string -> Option<Json>)
    requires |ch| > 0 && COLON !in ch && NUL !in ch && NUL !in body
    requires !IsBlank(utf8(ch))
    requires pad == [] || pad[0] == NUL
    ensures ProcessReceivedMessage(ch + [COLON] + body + pad, utf8, parseJson) == Expected(utf8(ch), Decode(body, utf8), parseJson)
  {
    FrameSplits(ch, body, pad);
  }

  /** Helper: where the colon and the end of the body fall in a frame. */
  lemma FrameSplits(ch: seq<bv8>, body: seq<bv8>, pad: seq<bv8>)
    requires |ch| > 0 && COLON !in ch && NUL !in ch && NUL !in body
    requires pad == [] || pad[0] == NUL
    ensures var msg := ch + [COLON] + body + pad;
      IndexOf(msg, COLON) == |ch| && BodyEnd(msg) == |ch| + 1 + |body| &&
      msg[..|ch|] == ch && msg[|ch| + 1..|ch| + 1 + |body|] == body
  {
    var msg := ch + [COLON] + body + pad;
    ColonSplits(ch, [COLON] + body + pad);
    assert msg == ch + ([COLON] + body + pad);
    var tail := [COLON] + body;
    assert NUL !in tail;
    assert msg == (ch + tail) + pad;
    IndexOfAppend(ch + tail, pad, NUL);
    assert msg[|ch| + 1..|ch| + 1 + |body|] == body;
  }

  lemma ColonSplits(ch: seq<bv8>, rest: seq<bv8>)
    requires COLON !in ch && |rest| > 0 && rest[0] == COLON
    ensures IndexOf(ch + rest, COLON) == |ch| && (ch + rest)[..|ch|] == ch
  {
    IndexOfAppend(ch, rest, COLON);
    assert (ch + rest)[..|ch|] == ch;
  }

  /** A `{` before the first colon does not by itself reject a message: the
      brace is found before the colon, and yet the message goes through. */
  lemma BraceBeforeColonAccepted(ch: seq<bv8>, body: seq<bv8>, utf8: seq<bv8> -> string, parseJson: string -> Option<Json>)
    requires |ch| > 0 && ch[0] == BRACE_OPEN && COLON !in ch && NUL !in ch && NUL !in body
    requires !IsBlank(utf8(ch))
    requires Expected(utf8(ch), Decode(body, utf8), parseJson).Some?
    ensures IndexOf(ch + [COLON] + body, BRACE_OPEN) < IndexOf(ch + [COLON] + body, COLON)
    ensures ProcessReceivedMessage(ch + [COLON] + body, utf8, parseJson).Some?
  {
    BraceFirst(ch, body);
    FrameRoundTrip(ch, body, [], utf8, parseJson);
    assert ch + [COLON] + body + [] == ch + [COLON] + body;
  }

  /** Helper: the brace opening the channel precedes the colon closing it. */
  lemma BraceFirst(ch: seq<bv8>, body: seq<bv8>)
    requires |ch| > 0 && ch[0] == BRACE_OPEN && COLON !in ch
    ensures IndexOf(ch + [COLON] + body, BRACE_OPEN) == 0
    ensures IndexOf(ch + [COLON] + body, COLON) == |ch|
  {
    var msg := ch + [COLON] + body;
    assert msg[0] == BRACE_OPEN;
    assert msg == ch + ([COLON] + body);
    IndexOfAppend(ch, [COLON] + body, COLON);
  }

  /** Without a colon after the first byte there is no message. */
  lemma NoChannelNoMessage(msg: seq<bv8>, utf8: seq<bv8> -> string, parseJson: string -> Option<Json>)
    requires COLON !in msg || msg[0] == COLON
    ensures ProcessReceivedMessage(msg, utf8, parseJson).None?
  {
  }

  /** A NUL between the first byte and the colon cuts the body off before
      it starts: no message (unless the first byte is NUL too, which
      disables the cut altogether). */
  lemma NulBeforeColonRejected(msg: seq<bv8>, k: nat, utf8: seq<bv8> -> string, parseJson: string -> Option<Json>)
    requires 0 < k < |msg| && msg[k] == NUL && COLON !in msg[..k] && msg[0] != NUL
    ensures ProcessReceivedMessage(msg, utf8, parseJson).None?
  {
    var n := IndexOf(msg, NUL);
    assert 0 < n <= k;
    assert BodyEnd(msg) <= k;
  }

  /** A NUL as the first byte does not cut anything: the body runs to the end. */
  lemma LeadingNulIgnored(msg: seq<bv8>)
    requires |msg| > 0 && msg[0] == NUL
    ensures BodyEnd(msg) == |msg|
  {
  }

  /** A WebSocket frame: only text frames carry veadotube messages. */
  datatype Frame = TextFrame(data: seq<bv8>) | OtherFrame

  /** What one frame contributes to the pipeline. */
  function FrameMessages(f: Frame, utf8: seq<bv8> -> string, parseJson: string -> Option<Json>): (r: seq<ResultMessage>)
    ensures |r| <= 1
    ensures f.OtherFrame? ==> r == []
  {
    match f
    case OtherFrame => []
    case TextFrame(data) =>
      match ProcessReceivedMessage(data, utf8, parseJson)
      case None => []
      case Some(m) => [m]
  }

  /** The receive pipeline: frames in, decoded messages out, in arrival
      order; other frames and unprocessable messages are dropped. */
  function Receive(frames: seq<Frame>, utf8: seq<bv8> -> string, parseJson: string -> Option<Json>): (r: seq<ResultMessage>)
    ensures |r| <= |frames|
  {
    if |frames| == 0 then [] else FrameMessages(frames[0], utf8, parseJson) + Receive(frames[1..], utf8, parseJson)
  }

  /** A text frame yields exactly the message `processReceivedMessage`
      makes of it, or nothing when that is `null`; other frames nothing. */
  lemma SingleFrameDelivered(f: Frame, utf8: seq<bv8> -> string, parseJson: string -> Option<Json>)
    ensures f.TextFrame? && ProcessReceivedMessage(f.data, utf8, parseJson).Some? ==>
      Receive([f], utf8, parseJson) == [ProcessReceivedMessage(f.data, utf8, parseJson).value]
    ensures f.OtherFrame? || ProcessReceivedMessage(f.data, utf8, parseJson).None? ==>
      Receive([f], utf8, parseJson) == []
  {
    assert [f][1..] == [];
  }

  /** The pipeline streams: its output on two batches is the concatenation
      of its outputs on each. */
  lemma {:induction false} ReceiveAppend(a: seq<Frame>, b: seq<Frame>, utf8: seq<bv8> -> string, parseJson: string -> Option<Json>)
    ensures Receive(a + b, utf8, parseJson) == Receive(a, utf8, parseJson) + Receive(b, utf8, parseJson)
  {
    if |a| > 0 {
      assert (a + b)[0] == a[0] && (a + b)[1..] == a[1..] + b;
      ReceiveAppend(a[1..], b, utf8, parseJson);
    } else {
      assert a + b == b;
    }
  }

  /** One more frame adds what that frame contributes. */
  lemma ReceiveSnoc(frames: seq<Frame>, i: nat, utf8: seq<bv8> -> string, parseJson: string -> Option<Json>)
    requires i < |frames|
    ensures Receive(frames[..i + 1], utf8, parseJson) == Receive(frames[..i], utf8, parseJson) + FrameMessages(frames[i], utf8, parseJson)
  {
    assert frames[..i + 1] == frames[..i] + [frames[i]];
    ReceiveAppend(frames[..i], [frames[i]], utf8, parseJson);
    ReceiveOne(frames[i], utf8, parseJson);
  }

  lemma ReceiveOne(f: Frame, utf8: seq<bv8> -> string, parseJson: string -> Option<Json>)
    ensures Receive([f], utf8, parseJson) == FrameMessages(f, utf8, parseJson)
  {
    assert [f][1..] == [];
  }

  /** Messages handed to `onConnectionReceive`. */
  datatype Event =
    | OnError(error: CE.ConnectionError)
    | OnChange(active: bool)
    | OnReceive(message: ResultMessage)
    | Wait(ms: int)

  /** The listener calls for a batch of messages, one each, in order; an
      exception a listener throws is swallowed and does not stop the rest. */
  function ReceiveEvents(msgs: seq<ResultMessage>): (ev: seq<Event>)
    ensures |ev| == |msgs|
    ensures forall i :: 0 <= i < |ev| ==> ev[i] == OnReceive(msgs[i])
  {
    if |msgs| == 0 then [] else [OnReceive(msgs[0])] + ReceiveEvents(msgs[1..])
  }

  /** The collecting loop of the receiver, one frame at a time. */
  method DeliverFrames(frames: seq<Frame>, utf8: seq<bv8> -> string, parseJson: string -> Option<Json>) returns (delivered: seq<ResultMessage>)
    ensures delivered == Receive(frames, utf8, parseJson)
  {
    delivered := [];
    var i := 0;
    while i < |frames|
      invariant 0 <= i <= |frames|
      invariant delivered == Receive(frames[..i], utf8, parseJson)
    {
      ReceiveSnoc(frames, i, utf8, parseJson);
      delivered := delivered + FrameMessages(frames[i], utf8, parseJson);
      i := i + 1;
    }
    assert frames[..i] == frames;
  }

  /** The flags `send` and `close` look at. */
  datatype Connection = Connection(isClosed: bool, activeLoop: bool, isConnected: bool, sessionActive: bool)

  /** `send(channel, requestData, validateRequest)`: closed, then inactive
      loop, then blank channel, then inactive session, then (if asked) the
      request validator; the frame written is `channel:json`, and a failing
      transport is rethrown as `IllegalStateException`. */
  function Send(c: Connection, channel: string, req: RQ.RequestMessage, validate: bool, transportFails: bool): (r: Result<string, Exception>)
    ensures c.isClosed ==> r == Failure(IllegalState)
    ensures !c.isClosed && !c.activeLoop ==> r == Failure(IllegalState)
    ensures !c.isClosed && c.activeLoop && IsBlank(channel) ==> r == Failure(IllegalArgument)
    ensures r.Failure? && r.error == IllegalArgument ==> IsBlank(channel)
    ensures r.Success? <==>
      !c.isClosed && c.activeLoop && !IsBlank(channel) && c.sessionActive &&
      (validate ==> RQ.WellFormedRequest(req)) && !transportFails
    ensures r.Success? ==> r.value == channel + ":" + RQ.EncodeRequest(req)
  {
    if c.isClosed then Failure(IllegalState)
    else if !c.activeLoop then Failure(IllegalState)
    else if IsBlank(channel) then Failure(IllegalArgument)
    else if !c.sessionActive then Failure(IllegalState)
    else if validate && RQ.ValidateRequest(req).Failure? then Failure(IllegalState)
    else if transportFails then Failure(IllegalState)
    else Success(channel + ":" + RQ.EncodeRequest(req))
  }

  /** The frame `send` writes splits at its first colon into the channel and
      the request's JSON, when the channel holds no colon. */
  lemma SendFrameSplits(c: Connection, channel: string, req: RQ.RequestMessage, validate: bool)
    requires Send(c, channel, req, validate, false).Success? && ':' !in channel
    ensures var f := Send(c, channel, req, validate, false).value;
      IndexOf(f, ':') == |channel| && f[..|channel|] == channel && f[|channel| + 1..] == RQ.EncodeRequest(req)
  {
    ColonFrame(channel, RQ.EncodeRequest(req));
  }

  /** A channel without ':' is recovered from its frame at the first colon. */
  lemma ColonFrame(channel: string, body: string)
    requires ':' !in channel
    ensures var f := channel + ":" + body;
      IndexOf(f, ':') == |channel| && f[..|channel|] == channel && f[|channel| + 1..] == body
  {
    var f := channel + ":" + body;
    assert f == channel + (":" + body);
    IndexOfAppend(channel, ":" + body, ':');
  }

  /** `close()`: the first call sets `isClosed`, stops the socket and the
      loop; later calls do nothing. The flag says whether cleanup ran. */
  function Close(c: Connection): (r: (Connection, bool))
    ensures r.0.isClosed
    ensures !c.isClosed ==> !r.0.activeLoop && !r.0.sessionActive && r.0.isConnected == c.isConnected
    ensures r.1 <==> !c.isClosed
    ensures c.isClosed ==> r.0 == c
  {
    if c.isClosed then (c, false)
    else (c.(isClosed := true, activeLoop := false, sessionActive := false), true)
  }

  /** `close` is a one-shot latch: a second call changes nothing and runs no
      cleanup, and every later `send` fails with `IllegalStateException`. */
  lemma CloseLatch(c: Connection, channel: string, req: RQ.RequestMessage, validate: bool, transportFails: bool)
    ensures Close(Close(c).0) == (Close(c).0, false)
    ensures Send(Close(c).0, channel, req, validate, transportFails) == Failure(IllegalState)
  {
  }

  /** The close reason an attempt ends with. */
  datatype CloseCode = Normal | GoingAway | Abnormal1006 | OtherCode | NoCloseReason

  /** How an attempt to run a WebSocket session ended. */
  datatype Outcome =
    | Cancelled
    | Refused
    | IllegalStateFailure
    | OtherFailure
    | Session(frames: seq<Frame>, streamCancelled: bool)

  datatype Attempt = Attempt(outcome: Outcome, closeReason: CloseCode)

  /** The watcher's variables. */
  datatype Watcher = Watcher(activeLoop: bool, errorCount: nat, isConnected: bool)

  /** `isConnected` after a trace of listener calls. */
  function ConnectedAfter(ev: seq<Event>, connected: bool): bool {
    if |ev| == 0 then connected
    else ConnectedAfter(ev[1..], if ev[0].OnChange? then ev[0].active else connected)
  }

  /** Connection changes alternate: each `OnChange` reports the opposite of
      the current state. */
  predicate Alternates(ev: seq<Event>, connected: bool) {
    if |ev| == 0 then true
    else if ev[0].OnChange? then ev[0].active == !connected && Alternates(ev[1..], ev[0].active)
    else Alternates(ev[1..], connected)
  }

  lemma {:induction false} AlternatesAppend(a: seq<Event>, b: seq<Event>, connected: bool)
    ensures Alternates(a + b, connected) <==> Alternates(a, connected) && Alternates(b, ConnectedAfter(a, connected))
    ensures ConnectedAfter(a + b, connected) == ConnectedAfter(b, ConnectedAfter(a, connected))
  {
    if |a| > 0 {
      assert (a + b)[0] == a[0] && (a + b)[1..] == a[1..] + b;
      AlternatesAppend(a[1..], b, if a[0].OnChange? then a[0].active else connected);
    } else {
      assert a + b == b;
    }
  }

  /** Received-message events contain no connection change. */
  lemma {:induction false} ReceiveEventsNeutral(msgs: seq<ResultMessage>, connected: bool)
    ensures Alternates(ReceiveEvents(msgs), connected)
    ensures ConnectedAfter(ReceiveEvents(msgs), connected) == connected
  {
    if |msgs| > 0 {
      var ev := ReceiveEvents(msgs);
      assert ev[1..] == ReceiveEvents(msgs[1..]);
      ReceiveEventsNeutral(msgs[1..], connected);
    }
  }

  /** The attempt itself: the session (connect notification, then the
      messages) or the exception and the error it is reported as. */
  function Attempted(w: Watcher, o: Outcome, utf8: seq<bv8> -> string, parseJson: string -> Option<Json>): (r: (Watcher, seq<Event>))
    ensures r.0.errorCount == w.errorCount
    ensures o == Refused || o == IllegalStateFailure ==> r == (w, [OnError(CE.FailedToConnect)])
    ensures o == OtherFailure ==> r == (w, [OnError(CE.None)])
    ensures o == Cancelled ==> r == (w.(activeLoop := false), [])
    ensures o.Session? ==> r.0.isConnected && r.0.activeLoop == (w.activeLoop && !o.streamCancelled)
    ensures o.Session? ==> r.1 == (if w.isConnected then [] else [OnChange(true)]) + ReceiveEvents(Receive(o.frames, utf8, parseJson))
  {
    match o
    case Cancelled => (w.(activeLoop := false), [])
    case Refused => (w, [OnError(CE.FailedToConnect)])
    case IllegalStateFailure => (w, [OnError(CE.FailedToConnect)])
    case OtherFailure => (w, [OnError(CE.None)])
    case Session(frames, streamCancelled) =>
      var connect := if w.isConnected then [] else [OnChange(true)];
      (w.(isConnected := true, activeLoop := w.activeLoop && !streamCancelled),
       connect + ReceiveEvents(Receive(frames, utf8, parseJson)))
  }

  /** The `finally` block of one iteration. The retry counter and the
      `ExceededRetries` report sit under `!activeLoop`, so they are only
      reached once the loop is already stopping. */
  function Finally(w: Watcher, reason: CloseCode): (r: (Watcher, seq<Event>))
    ensures !r.0.isConnected
    ensures r.0.activeLoop ==> w.activeLoop && r.0.errorCount == w.errorCount
    ensures !w.activeLoop ==> !r.0.activeLoop && r.0.errorCount == w.errorCount + 1
    ensures OnError(CE.ExceededRetries) in r.1 ==> w.errorCount + 1 >= WS_CONN_ERROR_MAX
    ensures r.1 == (if !w.activeLoop && reason == Abnormal1006 then [Wait(READ_LOOP_DELAY_MAX_MS - WS_CONN_ERROR_WAIT_MS)] else [])
      + (if !w.activeLoop && w.errorCount + 1 >= WS_CONN_ERROR_MAX then [OnError(CE.ExceededRetries)] else [])
      + (if w.isConnected then [OnChange(false)] else [])
      + (if r.0.activeLoop then [Wait(WS_CONN_ERROR_WAIT_MS * w.errorCount)] else [])
  {
    var (w1, retry) :=
      if !w.activeLoop then
        var wait := if reason == Abnormal1006 then [Wait(READ_LOOP_DELAY_MAX_MS - WS_CONN_ERROR_WAIT_MS)] else [];
        var count := w.errorCount + 1;
        if count >= WS_CONN_ERROR_MAX then (w.(errorCount := count, activeLoop := false), wait + [OnError(CE.ExceededRetries)])
        else (w.(errorCount := count), wait + [])
      else (w, []);
    var (w2, change) := if w1.isConnected then (w1.(isConnected := false), [OnChange(false)]) else (w1, []);
    var pause := if w2.activeLoop then [Wait(WS_CONN_ERROR_WAIT_MS * w2.errorCount)] else [];
    (w2, retry + change + pause)
  }

  /** One iteration of `runWebsocketWatcher`. */
  function Step(w: Watcher, a: Attempt, utf8: seq<bv8> -> string, parseJson: string -> Option<Json>): (r: (Watcher, seq<Event>))
  {
    var (w1, ev1) := Attempted(w, a.outcome, utf8, parseJson);
    var (w2, ev2) := Finally(w1, a.closeReason);
    (w2, ev1 + ev2)
  }

  /** Exceptions are classified as the source does: a refused connection and
      an `IllegalStateException` report `FailedToConnect`, anything else
      `None`; a cancellation reports nothing and stops the loop. */
  lemma StepClassifies(w: Watcher, a: Attempt, utf8: seq<bv8> -> string, parseJson: string -> Option<Json>)
    ensures a.outcome == Refused || a.outcome == IllegalStateFailure ==>
      Step(w, a, utf8, parseJson).1[0] == OnError(CE.FailedToConnect)
    ensures a.outcome == OtherFailure ==> Step(w, a, utf8, parseJson).1[0] == OnError(CE.None)
    ensures a.outcome == Cancelled ==> !Step(w, a, utf8, parseJson).0.activeLoop
    ensures a.outcome == Cancelled && !w.isConnected ==> OnError(CE.FailedToConnect) !in Step(w, a, utf8, parseJson).1
  {
  }

  /** Each step keeps the connection notifications alternating and ends
      disconnected. */
  lemma StepAlternates(w: Watcher, a: Attempt, utf8: seq<bv8> -> string, parseJson: string -> Option<Json>)
    ensures Alternates(Step(w, a, utf8, parseJson).1, w.isConnected)
    ensures ConnectedAfter(Step(w, a, utf8, parseJson).1, w.isConnected) == false
    ensures !Step(w, a, utf8, parseJson).0.isConnected
  {
    var (w1, ev1) := Attempted(w, a.outcome, utf8, parseJson);
    var (w2, ev2) := Finally(w1, a.closeReason);
    if a.outcome.Session? {
      var connect := if w.isConnected then [] else [OnChange(true)];
      var recv := ReceiveEvents(Receive(a.outcome.frames, utf8, parseJson));
      ReceiveEventsNeutral(Receive(a.outcome.frames, utf8, parseJson), true);
      AlternatesAppend(connect, recv, w.isConnected);
      assert ConnectedAfter(connect, w.isConnected) == true;
      assert Alternates(ev1, w.isConnected) && ConnectedAfter(ev1, w.isConnected) == true;
    }
    assert ConnectedAfter(ev1, w.isConnected) == w1.isConnected;
    FinallyAlternates(w1, a.closeReason);
    AlternatesAppend(ev1, ev2, w.isConnected);
  }

  lemma FinallyAlternates(w: Watcher, reason: CloseCode)
    ensures Alternates(Finally(w, reason).1, w.isConnected)
    ensures ConnectedAfter(Finally(w, reason).1, w.isConnected) == false
  {
    var ev := Finally(w, reason).1;
    var wait := if !w.activeLoop && reason == Abnormal1006 then [Wait(READ_LOOP_DELAY_MAX_MS - WS_CONN_ERROR_WAIT_MS)] else [];
    var retry := if !w.activeLoop && w.errorCount + 1 >= WS_CONN_ERROR_MAX then [OnError(CE.ExceededRetries)] else [];
    var change := if w.isConnected then [OnChange(false)] else [];
    var pause := if Finally(w, reason).0.activeLoop then [Wait(WS_CONN_ERROR_WAIT_MS * w.errorCount)] else [];
    assert ev == wait + retry + change + pause;
    AlternatesAppend(wait, retry, w.isConnected);
    AlternatesAppend(wait + retry, change, w.isConnected);
    AlternatesAppend(wait + retry + change, pause, w.isConnected);
  }

  /** While the loop stays active nothing is counted: from a zero count a
      step that keeps the loop running keeps the count at zero and its retry
      wait is zero; one that stops it leaves the count at most one. */
  lemma ActiveLoopNeverCounts(w: Watcher, a: Attempt, utf8: seq<bv8> -> string, parseJson: string -> Option<Json>)
    requires w.errorCount == 0
    ensures Step(w, a, utf8, parseJson).0.activeLoop ==> Step(w, a, utf8, parseJson).0.errorCount == 0
    ensures Step(w, a, utf8, parseJson).0.errorCount <= 1
    ensures OnError(CE.ExceededRetries) !in Step(w, a, utf8, parseJson).1
    ensures Step(w, a, utf8, parseJson).0.activeLoop ==> Wait(0) in Step(w, a, utf8, parseJson).1
  {
    var (w1, ev1) := Attempted(w, a.outcome, utf8, parseJson);
    var (w2, ev2) := Finally(w1, a.closeReason);
    assert OnError(CE.ExceededRetries) !in ev1 by {
      if a.outcome.Session? {
        var connect := if w.isConnected then [] else [OnChange(true)];
        var recv := ReceiveEvents(Receive(a.outcome.frames, utf8, parseJson));
        assert ev1 == connect + recv;
        assert forall i :: 0 <= i < |recv| ==> recv[i].OnReceive?;
      }
    }
    assert OnError(CE.ExceededRetries) !in ev2;
    if w2.activeLoop {
      assert ev2[|ev2| - 1] == Wait(0);
    }
  }

  /** `runWebsocketWatcher`: one step per attempt while the loop is
      active; the run ends when the loop stops or the scope is cancelled
      (no more attempts), and the cleanup then stops the loop. From the
      initial state the retry count never passes one, so `ExceededRetries`
      is never reported, and connection changes alternate starting from
      disconnected. */
  method RunWatcher(attempts: seq<Attempt>, utf8: seq<bv8> -> string, parseJson: string -> Option<Json>)
    returns (w: Watcher, trace: seq<Event>)
    ensures !w.activeLoop && !w.isConnected && w.errorCount <= 1
    ensures OnError(CE.ExceededRetries) !in trace
    ensures Alternates(trace, false)
  {
    w := Watcher(true, 0, false);
    trace := [];
    var i := 0;
    while i < |attempts| && w.activeLoop
      invariant 0 <= i <= |attempts|
      invariant w.activeLoop ==> w.errorCount == 0
      invariant w.errorCount <= 1
      invariant !w.isConnected
      invariant OnError(CE.ExceededRetries) !in trace
      invariant Alternates(trace, false) && ConnectedAfter(trace, false) == w.isConnected
    {
      var r := Step(w, attempts[i], utf8, parseJson);
      ActiveLoopNeverCounts(w, attempts[i], utf8, parseJson);
      StepAlternates(w, attempts[i], utf8, parseJson);
      AlternatesAppend(trace, r.1, false);
      w, trace := r.0, trace + r.1;
      i := i + 1;
    }
    w := w.(activeLoop := false);
  }
}
