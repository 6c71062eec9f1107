/**
 * The browser client of public/js/chirp/index.js (`chirp.createClient`): a
 * write buffer in front of a WebSocket, flushed when the socket opens, with
 * `end`, `destroy` and the host the socket connects to.
 *
 * The socket is reduced to what the client asks of it: `sent` logs every
 * `sock.send` in order, `closeCalls` counts `sock.close()` calls.
 */
module ChirpClient {
  import opened Wrappers

  /** A chunk written to the client (the UI writes JSON text). */
  type Chunk = string

  /** The `fn` handed to `client.connect`, as far as the open handler looks at it. */
  datatype Callback = NoCallback | Text(s: string) | Function(id: nat)

  /** The events the client emits on itself. */
  datatype ClientEvent = ConnectEvent | EndEvent

  /** The TypeError `destroy` throws when there is no socket to close. */
  datatype DestroyError = NoSocket

  /** What the open handler does with the connect callback. */
  datatype CallbackOutcome = Skipped | Invoked(id: nat) | ThrowsTypeError

  /** A JavaScript line terminator, where `.` in a regular expression stops matching. */
  predicate IsLineTerminator(c: char) {
    c == '\n' || c == '\r' || c == '\U{2028}' || c == '\U{2029}'
  }

  /** What is left of the text once `.*` has consumed all it can: the rest from the first line terminator on. */
  function FromLineEnd(s: string): string {
    if s == [] || IsLineTerminator(s[0]) then s else FromLineEnd(s[1..])
  }

  /** `s.replace(/:.*\/, '')`: removes the first `:` and the rest of its line. */
  function StripPort(s: string): string {
    if s == [] then []
    else if s[0] == ':' then FromLineEnd(s[1..])
    else [s[0]] + StripPort(s[1..])
  }

  /**
   * Host derivation keeps the text up to the first `:`; on a one-line host it
   * is that prefix exactly, so no `:` (and hence no port) survives.
   */
  lemma {:induction false} StripPortIsHostName(s: string)
    requires OneLine(s)
    ensures ':' !in StripPort(s)
    ensures StripPort(s) <= s
    ensures |StripPort(s)| < |s| ==> s[|StripPort(s)|] == ':'
    ensures ':' !in s ==> StripPort(s) == s
  {
    if s != [] {
      if s[0] == ':' {
        FromLineEndOfLine(s[1..]);
      } else {
        StripPortIsHostName(s[1..]);
        assert s == [s[0]] + s[1..];
      }
    }
  }

  /** On text without line terminators `.*` consumes everything. */
  lemma {:induction false} FromLineEndOfLine(s: string)
    requires OneLine(s)
    ensures FromLineEnd(s) == []
  {
    if s != [] {
      FromLineEndOfLine(s[1..]);
    }
  }

  /** Text on one line: `.` matches every character of it. */
  predicate OneLine(s: string) {
    forall i :: 0 <= i < |s| ==> !IsLineTerminator(s[i])
  }

  /**
   * The host `createClient` connects to: the given host when it is a string,
   * otherwise `ws://` and the page's host up to its first `:`, so without a
   * port.
   */
  function ClientHost(host: Option<string>, locationHost: string): (r: string)
    ensures host.Some? ==> r == host.value
    ensures host.None? ==> |r| >= 5 && r[..5] == "ws://"
    ensures host.None? && OneLine(locationHost) ==>
      r[5..] <= locationHost && ':' !in r[5..]
      && (|r| - 5 < |locationHost| ==> locationHost[|r| - 5] == ':')
  {
    match host
    case Some(h) => h
    case None =>
      var name := StripPort(locationHost);
      assert ("ws://" + name)[5..] == name;
      if OneLine(locationHost) then
        StripPortIsHostName(locationHost);
        "ws://" + name
      else
        "ws://" + name
  }

  /**
   * The open handler's test of the connect callback as written,
   * `'function' === fn`: true only for the string "function", on which the
   * following `fn.call` throws.
   */
  function ConnectCallbackAsWritten(fn: Callback): (r: CallbackOutcome)
    ensures r != Skipped <==> fn == Text("function")
    ensures !r.Invoked?
  {
    if fn == Text("function") then ThrowsTypeError else Skipped
  }

  /** The evidently intended test, `'function' === typeof fn`: a function callback is invoked. */
  function ConnectCallback(fn: Callback): (r: CallbackOutcome)
    ensures r.Invoked? <==> fn.Function?
    ensures r.Invoked? ==> r.id == fn.id
    ensures !r.ThrowsTypeError?
  {
    if fn.Function? then Invoked(fn.id) else Skipped
  }

  /** As written, a function passed to `connect` is never called; the intended test calls it. */
  lemma CallbackNeverInvoked(id: nat)
    ensures ConnectCallbackAsWritten(Function(id)) == Skipped
    ensures ConnectCallback(Function(id)) == Invoked(id)
  {
  }

  /** The stream `chirp.createClient(host)` returns, with the closure state it keeps. */
  class Client {
    /** Whether the socket has opened (`isReady`). */
    var isReady: bool
    /** Chunks written before the socket could take them (`buffer`). */
    var buffer: seq<Chunk>
    /** `client._ended`: `end` was asked for before the socket was ready. */
    var ended: bool
    var writable: bool
    var readable: bool
    /** The host the socket connects to. */
    var host: string
    /** Whether `connect` created a socket (`sock !== null`). */
    var hasSocket: bool
    /** The callback given to the last `connect`. */
    var onConnect: Callback
    /** Every `sock.send`, in order. */
    var sent: seq<Chunk>
    /** How many times `sock.close()` was called. */
    var closeCalls: nat
    /** The callbacks the open handler invoked, in order. */
    var invoked: seq<nat>
    /** The events emitted on the client, in order. */
    var events: seq<ClientEvent>

    ghost predicate Valid()
      reads this
    {
      isReady ==> hasSocket
    }

    /**
     * The write path is stuck: the socket is open but the buffer was never
     * cleared, so every write is buffered and never sent.
     */
    ghost predicate Stuck()
      reads this
    {
      isReady && buffer != []
    }

    /** `chirp.createClient(host)`, on a page whose location host is `locationHost`. */
    constructor (host: Option<string>, locationHost: string)
      ensures Valid()
      ensures this.host == ClientHost(host, locationHost)
      ensures !isReady && buffer == [] && !ended && writable && readable
      ensures !hasSocket && sent == [] && closeCalls == 0 && invoked == [] && events == []
    {
      this.host := ClientHost(host, locationHost);
      isReady, buffer, ended := false, [], false;
      writable, readable := true, true;
      hasSocket, onConnect := false, NoCallback;
      sent, closeCalls, invoked, events := [], 0, [], [];
    }

    /** `client.connect(fn)`: creates the socket and keeps `fn` for the open handler. */
    method Connect(fn: Callback)
      requires Valid()
      modifies this`hasSocket, this`onConnect
      ensures Valid() && hasSocket && onConnect == fn
    {
      hasSocket, onConnect := true, fn;
    }

    /**
     * `client.write(chunk)`: sends at once only when the socket is open and
     * nothing is buffered; otherwise appends to the buffer.
     */
    method Write(chunk: Chunk)
      requires Valid()
      modifies this`buffer, this`sent
      ensures Valid()
      ensures old(isReady && buffer == []) ==> sent == old(sent) + [chunk] && buffer == old(buffer)
      ensures !old(isReady && buffer == []) ==> buffer == old(buffer) + [chunk] && sent == old(sent)
      ensures old(Stuck()) ==> Stuck()
    {
      if !isReady || |buffer| > 0 {
        buffer := buffer + [chunk];
      } else {
        sent := sent + [chunk];
      }
    }

    /**
     * `client.end(chunk)`: writes the chunk if one is given; before the socket
     * is ready only records that the client ended, otherwise stops writing
     * and closes the socket.
     */
    method End(chunk: Option<Chunk>)
      requires Valid()
      modifies this`buffer, this`sent, this`ended, this`writable, this`closeCalls
      ensures Valid()
      ensures chunk.None? ==> buffer == old(buffer) && sent == old(sent)
      ensures chunk.Some? && old(isReady && buffer == []) ==> sent == old(sent) + [chunk.value] && buffer == old(buffer)
      ensures chunk.Some? && !old(isReady && buffer == []) ==> buffer == old(buffer) + [chunk.value] && sent == old(sent)
      ensures !isReady ==> ended && writable == old(writable) && closeCalls == old(closeCalls)
      ensures isReady ==> ended == old(ended) && !writable && closeCalls == old(closeCalls) + 1
      ensures old(Stuck()) ==> Stuck()
    {
      if chunk.Some? {
        Write(chunk.value);
      }
      if !isReady {
        ended := true;
        return;
      }
      writable := false;
      closeCalls := closeCalls + 1;
    }

    /**
     * The socket's open handler: marks the client ready, runs the connect
     * callback, sends every buffered chunk in buffer order without clearing
     * the buffer, emits `connect`, and finishes an `end` that was asked for
     * before the socket was ready.
     */
    method Open()
      requires Valid() && hasSocket
      modifies this`isReady, this`sent, this`invoked, this`events, this`writable, this`closeCalls
      ensures Valid() && isReady
      ensures sent == old(sent) + buffer
      ensures invoked == old(invoked) + (if onConnect.Function? then [onConnect.id] else [])
      ensures events == old(events) + [ConnectEvent]
      ensures ended ==> !writable && closeCalls == old(closeCalls) + 1
      ensures !ended ==> writable == old(writable) && closeCalls == old(closeCalls)
      ensures buffer != [] ==> Stuck()
    {
      isReady := true;
      var outcome := ConnectCallback(onConnect);
      if outcome.Invoked? {
        invoked := invoked + [outcome.id];
      }
      var log, i, len := sent, 0, |buffer|;
      while i < len
        invariant 0 <= i <= len
        invariant log == old(sent) + buffer[..i]
      {
        log := log + [buffer[i]];
        i := i + 1;
      }
      assert buffer[..len] == buffer;
      sent := log;
      events := events + [ConnectEvent];
      if ended {
        // `client.end()` with no chunk, the socket now being ready
        writable := false;
        closeCalls := closeCalls + 1;
      }
    }

    /** The socket's close handler: emits `end` and marks the client neither writable nor readable. */
    method Closed()
      modifies this`events, this`writable, this`readable
      ensures events == old(events) + [EndEvent] && !writable && !readable
    {
      events := events + [EndEvent];
      writable := false;
      readable := false;
    }

    /**
     * `client.destroy()`: records the end, stops writing and empties the
     * buffer, then closes the socket; with no socket yet the close throws.
     */
    method Destroy() returns (r: Result<(), DestroyError>)
      requires Valid()
      modifies this`ended, this`writable, this`buffer, this`closeCalls
      ensures Valid()
      ensures ended && !writable && buffer == [] && !Stuck()
      ensures r.Ok? <==> hasSocket
      ensures closeCalls == old(closeCalls) + (if hasSocket then 1 else 0)
    {
      ended := true;
      writable := false;  // the source clears `writable` twice in a row
      buffer := [];
      if !hasSocket {
        return Err(NoSocket);
      }
      closeCalls := closeCalls + 1;
      r := Ok(());
    }
  }
}
