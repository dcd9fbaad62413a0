/** A client of one connection: the channels it was given, cleaned of blank
    and repeated names, and the connection it sends on until it is closed.
    The listener callbacks a concrete client implements are not modelled. */
module Clients {
  import opened Wrappers
  import opened KotlinText
  import C = Connections
  import RQ = RequestMessages

  datatype Client = Client(connection: Option<C.Connection>, channels: seq<string>)

  /** `filter { it.isNotBlank() }`. */
  function NonBlank(s: seq<string>): (r: seq<string>)
    ensures forall x :: x in r <==> x in s && !IsBlank(x)
    ensures |r| <= |s|
  {
    if |s| == 0 then []
    else if IsBlank(s[0]) then NonBlank(s[1..])
    else [s[0]] + NonBlank(s[1..])
  }

  /** Filtering keeps the relative order of first occurrences. */
  lemma {:induction false} NonBlankOrder(s: seq<string>, x: string, y: string)
    requires x in NonBlank(s) && y in NonBlank(s)
    requires IndexOf(NonBlank(s), x) < IndexOf(NonBlank(s), y)
    ensures IndexOf(s, x) < IndexOf(s, y)
  {
    var f := NonBlank(s);
    assert |s| > 0;
    var t := NonBlank(s[1..]);
    if IsBlank(s[0]) {
      assert f == t;
      IndexOfTail(s, x);
      IndexOfTail(s, y);
      NonBlankOrder(s[1..], x, y);
    } else {
      assert f == [s[0]] + t;
      assert y != s[0];
      IndexOfTail(s, y);
      if x != s[0] {
        IndexOfTail(s, x);
        IndexOfTail(f, x);
        IndexOfTail(f, y);
        assert f[1..] == t;
        NonBlankOrder(s[1..], x, y);
      }
    }
  }

  /** The channel list the constructor keeps: none for a missing or empty
      list, otherwise the non-blank names without repeats. */
  function Channels(clientChannels: Option<seq<string>>): (r: seq<string>)
    ensures clientChannels.None? ==> r == []
    ensures clientChannels.Some? ==> forall x :: x in r <==> x in clientChannels.value && !IsBlank(x)
    ensures forall i, j :: 0 <= i < j < |r| ==> r[i] != r[j]
  {
    if clientChannels.None? || |clientChannels.value| == 0 then []
    else Distinct(NonBlank(clientChannels.value))
  }

  /** The kept channels are in the order their names first occur. */
  lemma ChannelsOrder(s: seq<string>)
    ensures OrderedBy(Channels(Some(s)), s)
  {
    var r := Channels(Some(s));
    if |s| > 0 {
      var f := NonBlank(s);
      DistinctFromOrder(f, []);
      forall i, j | 0 <= i < j < |r| ensures IndexOf(s, r[i]) < IndexOf(s, r[j]) {
        assert IndexOf(f, r[i]) < IndexOf(f, r[j]);
        NonBlankOrder(s, r[i], r[j]);
      }
    }
  }

  /** The first kept channel is the first non-blank name given, and there is
      one exactly when some name is non-blank. */
  lemma FirstChannel(s: seq<string>)
    ensures |Channels(Some(s))| > 0 <==> exists k :: 0 <= k < |s| && !IsBlank(s[k])
    ensures |Channels(Some(s))| > 0 ==>
      var k := IndexOf(s, Channels(Some(s))[0]);
      0 <= k && !IsBlank(s[k]) && forall m :: 0 <= m < k ==> IsBlank(s[m])
  {
    var r := Channels(Some(s));
    if exists k :: 0 <= k < |s| && !IsBlank(s[k]) {
      var k :| 0 <= k < |s| && !IsBlank(s[k]);
      assert s[k] in r;
    }
    if |r| > 0 {
      ChannelsOrder(s);
      var k := IndexOf(s, r[0]);
      forall m | 0 <= m < k ensures IsBlank(s[m]) {
        IndexOfAtMost(s, m);
        assert s[..k][m] == s[m];
        assert s[m] !in r;
      }
    }
  }

  /** An element occurs first no later than at any of its positions. */
  lemma {:induction false} IndexOfAtMost(s: seq<string>, m: nat)
    requires m < |s|
    ensures 0 <= IndexOf(s, s[m]) <= m
  {
    if m > 0 && s[0] != s[m] {
      IndexOfTail(s, s[m]);
      assert s[1..][m - 1] == s[m];
      IndexOfAtMost(s[1..], m - 1);
    }
  }

  /** The primary constructor. */
  function NewClient(conn: C.Connection, clientChannels: Option<seq<string>>): (c: Client)
    ensures c.connection == Some(conn)
    ensures forall x :: x in c.channels ==> !IsBlank(x)
  {
    Client(Some(conn), Channels(clientChannels))
  }

  /** The single-channel constructor: the one name, unless it is blank. */
  function NewClientSingle(conn: C.Connection, channel: string): (c: Client)
    ensures c.connection == Some(conn)
    ensures IsBlank(channel) ==> c.channels == []
    ensures !IsBlank(channel) ==> c.channels == [channel]
  {
    var c := NewClient(conn, Some([channel]));
    assert |c.channels| <= 1;
    assert !IsBlank(channel) ==> channel in c.channels;
    c
  }

  /** `send(data)`: nothing without channels or without a connection;
      otherwise the connection's `send` on the first channel, without
      validation. `None` is the no-op, `Some` the connection's outcome. */
  function Send(c: Client, data: RQ.RequestMessage, transportFails: bool): (r: Option<Result<string, Exception>>)
    ensures r.None? <==> |c.channels| == 0 || c.connection.None?
    ensures r.Some? ==>
      var conn := c.connection.value;
      (r.value.Success? <==>
        !conn.isClosed && conn.activeLoop && conn.sessionActive && !IsBlank(c.channels[0]) && !transportFails)
    ensures r.Some? && r.value.Success? ==> r.value.value == c.channels[0] + ":" + RQ.EncodeRequest(data)
  {
    if |c.channels| == 0 then None
    else match c.connection
      case None => None
      case Some(conn) => Some(C.Send(conn, c.channels[0], data, false, transportFails))
  }

  /** `send(channel, data)`: the connection's `send` on the given channel,
      or nothing once the client is closed. */
  function SendOn(c: Client, channel: string, data: RQ.RequestMessage, transportFails: bool): (r: Option<Result<string, Exception>>)
    ensures r.None? <==> c.connection.None?
    ensures r.Some? && r.value.Success? ==> !IsBlank(channel) && r.value.value == channel + ":" + RQ.EncodeRequest(data)
    ensures r.Some? && IsBlank(channel) ==> r.value.Failure?
  {
    match c.connection
    case None => None
    case Some(conn) => Some(C.Send(conn, channel, data, false, transportFails))
  }

  /** `close()`: the client drops its connection and keeps its channels. */
  function Close(c: Client): (r: Client)
    ensures r.connection.None? && r.channels == c.channels
  {
    c.(connection := None)
  }

  /** A closed client sends nothing, on any channel. */
  lemma ClosedSendsNothing(c: Client, channel: string, data: RQ.RequestMessage, transportFails: bool)
    ensures Send(Close(c), data, transportFails).None?
    ensures SendOn(Close(c), channel, data, transportFails).None?
  {
  }

  /** A constructed client never fails a send for a blank channel: its first
      channel is the first non-blank name it was given, and a healthy
      connection carries the frame on it. */
  lemma ConstructedSend(conn: C.Connection, s: seq<string>, data: RQ.RequestMessage)
    requires exists k :: 0 <= k < |s| && !IsBlank(s[k])
    ensures var c := NewClient(conn, Some(s));
      var r := Send(c, data, false);
      r.Some? && (r.value.Failure? ==> r.value.error == IllegalState) &&
      var k := IndexOf(s, c.channels[0]);
      0 <= k && !IsBlank(s[k]) && (forall m :: 0 <= m < k ==> IsBlank(s[m])) &&
      (!conn.isClosed && conn.activeLoop && conn.sessionActive ==> r == Some(Success(s[k] + ":" + RQ.EncodeRequest(data))))
  {
    FirstChannel(s);
    var c := NewClient(conn, Some(s));
    assert c.channels[0] in c.channels;
  }
}
