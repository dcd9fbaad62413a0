/** `Instance`: a running veadotube instance as described by its instance
    file — its id, the client display name and the server address — plus
    the time the file was last seen and the key used for connections. */
module Instances {
  import opened Wrappers
  import opened JvmNumbers
  import opened KotlinText
  import opened InstanceIds

  /** An instance. `fileLastModified` is the only mutable field of the source
      class; every other field is fixed at construction. */
  datatype Instance = Instance(id: InstanceID, name: string, server: string, fileLastModified: Int64)

  /** What the `init` block guarantees of every constructed instance. */
  predicate Valid(inst: Instance) {
    |inst.id.kind| > 0 && !IsBlank(inst.name) && !IsBlank(inst.server)
  }

  /** The primary constructor `Instance(id, name, server)`; failures carry
      the `IllegalArgumentException` message. `fileLastModified` starts at
      `Long.MIN_VALUE`. */
  function NewInstance(id: InstanceID, name: string, server: string): (r: Result<Instance, string>)
    ensures r.Success? <==> |id.kind| > 0 && !IsBlank(name) && !IsBlank(server)
    ensures r.Success? ==> Valid(r.value)
    ensures r.Success? ==> r.value.id == id && r.value.name == name && r.value.server == server
    ensures r.Success? ==> r.value.fileLastModified == LONG_MIN
    ensures |id.kind| == 0 ==> r == Failure("InstanceID is not Valid")
  {
    if |id.kind| == 0 then Failure("InstanceID is not Valid")
    else if IsBlank(name) then Failure("instanceName is blank")
    else if IsBlank(server) then Failure("serverAddress is blank")
    else Success(Instance(id, name, server, LONG_MIN))
  }

  /** The secondary constructor `Instance(id, name, server, lastModified)`:
      the primary one, then `fileLastModified` set. */
  function NewInstanceAt(id: InstanceID, name: string, server: string, lastModified: Int64): (r: Result<Instance, string>)
    ensures r.Success? <==> NewInstance(id, name, server).Success?
    ensures r.Failure? ==> r == NewInstance(id, name, server)
    ensures r.Success? ==> r.value == NewInstance(id, name, server).value.(fileLastModified := lastModified)
  {
    var inst :- NewInstance(id, name, server);
    Success(inst.(fileLastModified := lastModified))
  }

  /** `instanceConnectionID`: `"$name-${server}_${id}"`. */
  function ConnectionId(inst: Instance): (r: string)
    ensures |r| == |inst.name| + |inst.server| + |inst.id.text| + 2
    ensures r[..|inst.name|] == inst.name
    ensures r[|r| - |inst.id.text|..] == ToString(inst.id)
  {
    inst.name + "-" + inst.server + "_" + ToString(inst.id)
  }

  /** Data-class equality: id (by `InstanceID.equals`), name and server;
      `fileLastModified` is not a constructor property and is ignored. */
  predicate SameInstance(a: Instance, b: Instance) {
    SameId(a.id, b.id) && a.name == b.name && a.server == b.server
  }

  /** The connection key does not depend on `fileLastModified`: instances
      built from the same id, name and server share it whenever they were
      seen. */
  lemma ConnectionIdIgnoresTime(a: Instance, b: Instance)
    requires a.id == b.id && a.name == b.name && a.server == b.server
    ensures ConnectionId(a) == ConnectionId(b)
  {
  }

  /** The connection key does depend on the id's text: two instances equal
      as data but whose ids were written differently (hex case, say) get
      different keys. */
  lemma ConnectionIdSeesText(a: Instance, b: Instance)
    requires SameInstance(a, b) && a.id.text != b.id.text
    ensures ConnectionId(a) != ConnectionId(b)
  {
    var ka, kb := ConnectionId(a), ConnectionId(b);
    var p := a.name + "-" + a.server + "_";
    assert ka == p + a.id.text && kb == p + b.id.text;
    assert ka[|p|..] == a.id.text && kb[|p|..] == b.id.text;
  }

  /** Why `getWebSocketUri` throws: an `IllegalArgumentException` carrying
      its message for a blank argument, or a `URISyntaxException` when
      `java.net.URI` rejects the assembled text. */
  datatype UriError = BlankArgument(message: string) | UriSyntax

  /** The static `getWebSocketUri(server, name)`: both must be non-blank
      (server checked first); the text `ws://<server>?n=<encoded name>` must
      then be accepted by `java.net.URI`. `urlEncode` is
      `URLEncoder.encode(name, UTF-8)`; `uriParses` holds when `URI(text)`
      does not throw. */
  function WebSocketUri(server: string, name: string, urlEncode: string -> string,
                        uriParses: string -> bool): (r: Result<string, UriError>)
    ensures r.Success? <==>
      !IsBlank(server) && !IsBlank(name) && uriParses("ws://" + server + "?n=" + urlEncode(name))
    ensures IsBlank(server) ==> r == Failure(BlankArgument("Server can not be empty or blank"))
    ensures !IsBlank(server) && IsBlank(name) ==> r == Failure(BlankArgument("Name can not be empty or blank"))
    ensures !IsBlank(server) && !IsBlank(name) && !uriParses("ws://" + server + "?n=" + urlEncode(name))
      ==> r == Failure(UriSyntax)
    ensures r.Success? ==> r.value == "ws://" + server + "?n=" + urlEncode(name)
  {
    if IsBlank(server) then Failure(BlankArgument("Server can not be empty or blank"))
    else if IsBlank(name) then Failure(BlankArgument("Name can not be empty or blank"))
    else
      var text := "ws://" + server + "?n=" + urlEncode(name);
      if uriParses(text) then Success(text) else Failure(UriSyntax)
  }

  /** What every `java.net.URI` does with a space: rejects the text. */
  ghost predicate RejectsSpaces(uriParses: string -> bool) {
    forall t :: ' ' in t ==> !uriParses(t)
  }

  /** A non-blank server holding a space (`a b`, say) passes the blank
      checks but not the URI parser: the call throws `URISyntaxException`. */
  lemma SpacedServerRejected(server: string, name: string, urlEncode: string -> string,
                             uriParses: string -> bool)
    requires RejectsSpaces(uriParses) && ' ' in server && !IsBlank(server) && !IsBlank(name)
    ensures WebSocketUri(server, name, urlEncode, uriParses) == Failure(UriSyntax)
  {
    var k :| 0 <= k < |server| && server[k] == ' ';
    var text := "ws://" + server + "?n=" + urlEncode(name);
    assert text[5 + k] == ' ';
  }

  /** The server can be read back from the address when it holds no `?`. */
  lemma WebSocketUriServer(server: string, name: string, urlEncode: string -> string,
                           uriParses: string -> bool)
    requires WebSocketUri(server, name, urlEncode, uriParses).Success? && '?' !in server
    ensures var u := WebSocketUri(server, name, urlEncode, uriParses).value;
      u[..5] == "ws://" && IndexOf(u[5..], '?') == |server| && u[5..5 + |server|] == server
  {
    UriPieces(server, "?n=", urlEncode(name));
  }

  lemma UriPieces(server: string, q: string, x: string)
    requires '?' !in server && |q| > 0 && q[0] == '?'
    ensures var u := "ws://" + server + q + x;
      u[..5] == "ws://" && IndexOf(u[5..], '?') == |server| && u[5..5 + |server|] == server
  {
    assert "ws://" + server + q + x == "ws://" + server + (q + x);
    QuerySplit("ws://", server, q + x);
  }

  /** A prefix, a text without '?' and a query starting with '?' are told
      apart by the first '?' after the prefix. */
  lemma QuerySplit(a: string, b: string, c: string)
    requires '?' !in b && |c| > 0 && c[0] == '?'
    ensures var u := a + b + c;
      u[..|a|] == a && IndexOf(u[|a|..], '?') == |b| && u[|a|..|a| + |b|] == b
  {
    var u := a + b + c;
    assert u[|a|..] == b + c;
    IndexOfAppend(b, c, '?');
  }

  /** `getWebSocketUri()`: the instance's own server and name. */
  function InstanceUri(inst: Instance, urlEncode: string -> string, uriParses: string -> bool): (r: Result<string, UriError>)
    ensures Valid(inst) ==> (r.Success? <==> uriParses("ws://" + inst.server + "?n=" + urlEncode(inst.name)))
    ensures Valid(inst) && r.Failure? ==> r == Failure(UriSyntax)
    ensures r.Success? ==> r.value == "ws://" + inst.server + "?n=" + urlEncode(inst.name)
  {
    WebSocketUri(inst.server, inst.name, urlEncode, uriParses)
  }

  /** `getWebSocketUri(name)`: rejects a blank name with its own message,
      before delegating with the instance's server. */
  function InstanceUriFor(inst: Instance, name: string, urlEncode: string -> string,
                          uriParses: string -> bool): (r: Result<string, UriError>)
    ensures IsBlank(name) ==> r == Failure(BlankArgument("Name must not be blank"))
    ensures Valid(inst) ==> (r.Success? <==>
      !IsBlank(name) && uriParses("ws://" + inst.server + "?n=" + urlEncode(name)))
    ensures !IsBlank(name) ==> r == WebSocketUri(inst.server, name, urlEncode, uriParses)
  {
    if IsBlank(name) then Failure(BlankArgument("Name must not be blank"))
    else WebSocketUri(inst.server, name, urlEncode, uriParses)
  }
}
