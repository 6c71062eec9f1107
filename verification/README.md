# chirp in Dafny

A model of the core of chirp, a small WebSocket chat. The model has three parts:

- **The server broadcast conduit** of `lib/stream.js` (module `Conduit`). This is a pool of connected peers, each tagged with a session id. It keeps an append-only replay stash, fans a chunk out to every peer, and has a readable side that queues every non-null chunk written to it.
- **The browser client** of `public/js/chirp/index.js`:
  - `createClient` (module `ChirpClient`): the write buffer in front of the socket and its flush when the socket opens, with `end`, `destroy` and the host the socket connects to.
  - `applyFilters`, `use`, the `data` handler and `Message` (module `ChirpFilters`).
- **The pieces bundled in `public/js/chirp.js`** that the client relies on:
  - the component module loader (`Loader`): `require.resolve`, `normalize`, `register`, `alias`, and `relative` with its `localRequire.resolve` and `lastIndexOf`;
  - component-emitter with component-indexof (`Emitter`);
  - the minstache helpers `escape`, `section`, `assertProperty` and `parse` (`Minstache`).

Code that changes state in place is modelled as classes whose methods change their fields:

- the conduit's closure (`Conduit.Broadcaster`);
- the client's closure (`ChirpClient.Client`);
- a `chirp` instance's filter list (`ChirpFilters.Chirp`);
- the loader's registry maps (`Loader.Registry`);
- an emitter's callback table (`Emitter.EventEmitter`).

Each explicit loop of the source is a loop in a method, proved against a specification function (the close handler's `pool.filter` is not one of them: it is the recursive function `Conduit.Without`, assigned in one step):

- the replay loop;
- `send`'s fan-out;
- the flush;
- `applyFilters`;
- `normalize`;
- `resolve`'s candidate loop;
- `lastIndexOf`;
- `indexOf`;
- `emit`'s loop over its copy.

The pure helpers are functions:

- host derivation;
- `Message`;
- `escape`, `section`, `assertProperty` and `parse`.

Some parts of the outside world are replaced by explicit state:

- **Conduit sends.** Every `ws.send` lands in one log, `sent`, of (socket handle, frame) pairs. What one peer received is the projection `Outbox(sent, h)`.
- **Deferred sends.** A send deferred through `debounce` is an entry in the `pending` list until `Tick` delivers the oldest one.
- **Session ids.** The id `sid()` draws at random is a parameter of `Connect`.
- **Client socket.** On the client, the socket is its log of sends and a count of `close()` calls.

`Conduit.Consistent` is the conduit's invariant. It is preserved by `Connect`, `Close`, `Send` and `Tick`, and it states:

- the handshake is the first frame every socket was sent;
- pool handles are distinct;
- while no two connections shared a session id, the pool size is connects minus successful closes.

Three behaviours of the code are easy to misread, and the model follows the code in each:

- A message received from a socket goes only to the conduit's readable side (`stream.write`).
- The open handler sends the buffered chunks but never empties `buffer`. Once a non-empty buffer has been flushed, every later `write` is buffered and never sent. `ChirpClient.Client.Stuck` is this state, and `Write`, `End` and `Open` prove that it persists.
- `normalize` pops `curr` for every `..`, wherever it stands in the path. A `..` after a kept segment still removes a segment of `curr`, not the kept one.

## Model

| member | source | states |
|---|---|---|
| Conduit.WithoutMembers | lib/stream.js:67-73 | The close filter keeps exactly the peers whose sid differs. It shrinks the pool iff the sid is present, and returns the pool unchanged when it is absent. |
| Conduit.WithoutAppend | lib/stream.js:69-71 | The filter keeps the surviving peers in their order: it distributes over concatenation. |
| Conduit.WithoutRemovesOne | lib/stream.js:67-73 | With distinct sids, closing a present sid removes exactly one peer, and the sids stay distinct. |
| Conduit.WithoutDistinctHandles | lib/stream.js:69-71 | Filtering keeps the sockets in the pool distinct. |
| Conduit.ReplayFollowsStash | lib/stream.js:57-61 | Replay schedules one send per stashed payload for the new socket, in stash order, and nothing for any other socket. An empty stash schedules nothing. |
| Conduit.FanoutSends | lib/stream.js:77-81 | `send` makes one send per pool member, in pool order, each carrying the identical chunk. |
| Conduit.FanoutTargetsPool | lib/stream.js:77-81 | Every send of a fan-out goes to a pool member and carries the chunk. |
| Conduit.FanoutReachesEachOnce | lib/stream.js:77-81 | With distinct handles, each pool member receives the chunk exactly once and no one else receives anything. |
| Conduit.AppendPeer | lib/stream.js:52-54 | Appending a newly accepted socket keeps handles distinct, and keeps sids distinct when its sid is new. |
| Conduit.ConnectConsistent | lib/stream.js:52-61 | A connection preserves the invariant. The new socket has been sent exactly its handshake, and exactly the stash is scheduled for it. |
| Conduit.SendConsistent | lib/stream.js:77-81 | A fan-out preserves the invariant. It adds the chunk once to each pool member's outbox and nothing to anyone else's. |
| Conduit.TickConsistent | lib/stream.js:11-18 | A deferred send firing preserves the invariant. It adds its payload to its own socket's outbox only, so the handshake stays first. |
| Conduit.ScheduleReplay | lib/stream.js:57-61 | The replay loop builds `Replay(h, stash)`: element `i` is the send of stash item `i` to `h`. |
| Conduit.Broadcaster.constructor | lib/stream.js:34-40 | `stream(opts)` starts with an empty pool, an empty stash and nothing queued, and is consistent. |
| Conduit.Broadcaster.Write | lib/stream.js:42-44 | Every non-null chunk is queued on the readable side in call order; `null` is dropped. |
| Conduit.Broadcaster.End | lib/stream.js:46-50 | `end` queues the end-of-stream marker. |
| Conduit.Broadcaster.Stash | lib/stream.js:83-85 | The stash only grows at its end. |
| Conduit.Broadcaster.Connect | lib/stream.js:52-61 | The peer is appended at the end of the pool, which keeps its order. It is sent its handshake, and the handshake is its whole outbox so far, ahead of any replay. The stash is scheduled for it in order. The invariant holds. |
| Conduit.Broadcaster.Receive | lib/stream.js:63-65 | A message from a socket is queued on the readable side. |
| Conduit.Broadcaster.Close | lib/stream.js:67-73 | The pool becomes the order-preserving filter on the closing sid. The assertion fails iff that sid is absent. With distinct sids, the pool shrinks by exactly one. The invariant, pool size equal to connects minus closes, is kept. |
| Conduit.Broadcaster.Send | lib/stream.js:77-81 | `send` adds exactly one send of the chunk to every pool member's outbox, leaves the pool unchanged, and keeps the invariant. |
| Conduit.Broadcaster.Tick | lib/stream.js:11-18 | The oldest deferred send is delivered to its socket only, and the invariant is kept. |
| ChirpClient.StripPortIsHostName | public/js/chirp/index.js:145 | On a one-line host, `replace(/:.*/, '')` leaves the prefix before the first `:`, so no port survives. |
| ChirpClient.ClientHost | public/js/chirp/index.js:144-147 | A string host is used as given. Otherwise the result is `ws://` followed by the page host up to its first `:`. |
| ChirpClient.ConnectCallbackAsWritten | public/js/chirp/index.js:158 | As written, the callback test holds only for the string "function", on which the call throws. A function callback is never invoked. |
| ChirpClient.ConnectCallback | public/js/chirp/index.js:158 | Corrected test: the callback is invoked iff it is a function. |
| ChirpClient.CallbackNeverInvoked | public/js/chirp/index.js:153-158 | A function passed to `connect` is skipped as written and invoked once corrected. |
| ChirpClient.Client.constructor | public/js/chirp/index.js:138-150 | `createClient` starts not ready, with an empty buffer, readable and writable, no socket, and the derived host. |
| ChirpClient.Client.Connect | public/js/chirp/index.js:153-154 | `connect` creates the socket and keeps the callback. |
| ChirpClient.Client.Write | public/js/chirp/index.js:183-189 | `write` sends at once iff the socket is ready and the buffer is empty. Otherwise it appends to the buffer and sends nothing. A stuck client stays stuck. |
| ChirpClient.Client.End | public/js/chirp/index.js:191-203 | `end` writes a given chunk first. Before the socket is ready it only sets `_ended`; once ready it clears `writable` and closes the socket. |
| ChirpClient.Client.Open | public/js/chirp/index.js:156-165 | The open handler sends every buffered chunk in order and does not clear the buffer, so a non-empty buffer leaves the client stuck. It invokes the callback when `typeof fn` is `function` (the corrected test of the Findings row) and emits `connect`. A pending end is finished by clearing `writable` and closing the socket. |
| ChirpClient.Client.Closed | public/js/chirp/index.js:175-179 | Closing emits `end` and makes the client neither writable nor readable. |
| ChirpClient.Client.Destroy | public/js/chirp/index.js:206-212 | `destroy` sets `_ended`, clears `writable`, empties the buffer (so the client is not stuck) and closes the socket. Without a socket it throws. |
| ChirpFilters.RunChainShape | public/js/chirp/index.js:16-25 | Filters run in list order and at most all run. A completed chain ran every filter. A stopped chain stopped at a filter that did not call `next`. |
| ChirpFilters.RunChainAppend | public/js/chirp/index.js:16-25 | A later filter runs only if every earlier one called `next`, and it gets the data the last of them passed on. |
| ChirpFilters.ApplyFilters | public/js/chirp/index.js:16-25 | The shift loop over a copy of the list runs the chain exactly as `RunChain` does. The caller's list is a value and stays unchanged. |
| ChirpFilters.RenderRunsLast | public/js/chirp/index.js:87-94 | The render filter appended after the registered ones runs iff the registered chain completed, and then on the data it passed on. |
| ChirpFilters.SidAfterAsWritten | public/js/chirp/index.js:84-85 | As written, a sid that arrives is never stored; the stored sid changes only to `undefined`. |
| ChirpFilters.SidAfter | public/js/chirp/index.js:84-85 | Corrected test: a sid that arrives is stored, and otherwise the stored one is kept. |
| ChirpFilters.HandshakeSidLost | public/js/chirp/index.js:84-85 | The `{sid}` handshake leaves the client without a sid as written, and with it once corrected. |
| ChirpFilters.Chirp.constructor | public/js/chirp/index.js:77 | A new instance has no filters. |
| ChirpFilters.Chirp.Use | public/js/chirp/index.js:274-278 | `use` appends a function to `filters`. Anything else gives `TypeError` and leaves `filters` unchanged. |
| ChirpFilters.Chirp.OnData | public/js/chirp/index.js:83-95 | An arriving `sid` is recorded (the corrected test of the Findings row). A message is rendered iff `message` and `owner` are truthy and every registered filter called `next`. It is rendered as a `Message` holding the `owner`, `message` and `timestamp` of the data they passed on. `filters` stays unchanged. |
| Loader.Split | public/js/chirp.js:96-97 | `split('/')` yields at least one piece, and no piece contains `/`. |
| Loader.JoinSplit | public/js/chirp.js:107 | Joining the pieces of a split gives the text back. |
| Loader.SplitJoin | public/js/chirp.js:107 | Splitting a join of slash-free segments gives the segments back. |
| Loader.KeptSegments | public/js/chirp.js:99-105 | Kept segments come from the path, and none is `..`, `.` or empty. |
| Loader.NormalizedSegments | public/js/chirp.js:91-108 | Provided the result has at least one segment (`curr` keeps one after the pops, or the path keeps one), the normalized result splits into the prefix of `curr` that is one segment shorter per `..` (empty once `curr` runs out, since popping an empty array leaves it empty), followed by the kept segments in order. |
| Loader.ParentDirectory | public/js/chirp.js:146 | `normalize(parent, '..')` is the parent without its last segment. |
| Loader.Normalize | public/js/chirp.js:91-108 | A path not starting with `.` is returned unchanged. Otherwise the loop computes `Normalized`: every `..` pops `curr`, `.` and empty segments are skipped, and the rest are kept. |
| Loader.Candidates | public/js/chirp.js:65-73 | The five names tried are, in order, the path with one leading `/` removed, then that name followed by `.js`, `.json`, `/index.js` and `/index.json`. |
| Loader.LookupFirst | public/js/chirp.js:75-79 | The first candidate that is a module answers with itself, or the first that is an alias answers with its target. |
| Loader.LookupNone | public/js/chirp.js:75-80 | Resolution fails iff no candidate is a module or an alias. |
| Loader.LookupRegistered | public/js/chirp.js:75-79 | When every alias targets a module, whatever resolves is a registered module. |
| Loader.LastIndex | public/js/chirp.js:152-158 | It gives the last index holding the value, or -1 when there is none. |
| Loader.LastIndexOf | public/js/chirp.js:152-158 | The backwards `while (i--)` scan finds the last index, and returns -1 iff the value is absent. |
| Loader.DepsRootSegments | public/js/chirp.js:181-184 | A bare name goes under the parent's segments up to one past the nearest `deps`. Without a `deps` segment, it goes under the parent's first segment. |
| Loader.LocalResolve | public/js/chirp.js:173-186 | A `/` path loses its slash, a `.` path is normalized against the parent's directory, and other names go into the nearest `deps` directory. |
| Loader.Registry.constructor | public/js/chirp.js:42-48 | The module and alias maps start empty. |
| Loader.Registry.Register | public/js/chirp.js:118-120 | `register` adds or replaces the module. |
| Loader.Registry.Alias | public/js/chirp.js:130-135 | `alias` fails iff `from` is not registered. Otherwise it points `to` at `from` and leaves the modules unchanged. Every alias keeps naming a module. |
| Loader.Registry.Resolve | public/js/chirp.js:64-80 | The candidate loop with early return answers with the ordered lookup. Any answer names a registered module. |
| Loader.Registry.Locate | public/js/chirp.js:10-22 | `require` either finds the resolved name or fails. The error names the original path, or `path` when there is none, and the parent, or `root`. |
| Loader.Registry.Exists | public/js/chirp.js:192-194 | `exists` holds iff the locally resolved name is a registered module. |
| Loader.RegisteredResolves | public/js/chirp.js:64-80 | A path that names a registered module, after one leading `/` is removed, resolves to that module. |
| Loader.AliasResolves | public/js/chirp.js:130-135 | After `alias(from, to)`, resolving `to` gives `from`, provided `to` is not itself a module and does not start with `/` (which resolve strips). |
| Emitter.TargetsAt | public/js/chirp.js:338-340 | The i-th call of an emission goes to the function of the i-th callback in the copy. |
| Emitter.FirstIndex | public/js/chirp.js:198-206 | It gives the first index of the value, or -1 iff the value is absent. |
| Emitter.IndexOf | public/js/chirp.js:198-206 | The scan returns the first index, or -1. |
| Emitter.RemoveFirstCount | public/js/chirp.js:318-319 | Removing a callback takes out exactly one occurrence when there is one, and nothing else. |
| Emitter.RemoveFirstSplice | public/js/chirp.js:318-319 | `splice(i, 1)` at the first index is the removal, and a missing callback leaves the list alone. |
| Emitter.OffKey | public/js/chirp.js:318 | A plain callback is looked up by `fn._off` when `once` set it and by itself otherwise. A `once` wrapper is its own key. |
| Emitter.OffMapWellPlaced | public/js/chirp.js:307-320 | `off` keeps every `once` wrapper in its own event's list. |
| Emitter.StaleOffKeepsPlain | public/js/chirp.js:281 | Once a function's `once` wrapper is gone, `off(event, fn)` looks for the stale `_off` and leaves a plain registration of `fn` in place. |
| Emitter.EmitStep | public/js/chirp.js:336-341 | One step of the emission loop. A wrapper takes itself off the live list without disturbing the copy, and the call goes to its function. |
| Emitter.MidwayEnds | public/js/chirp.js:336-341 | An emission starts from the table as it was and ends with the event's `once` wrappers gone. |
| Emitter.OffMapCount | public/js/chirp.js:317-320 | `off(event, fn)` removes one occurrence of the key from that event and leaves every other event alone. |
| Emitter.EventEmitter.constructor | public/js/chirp.js:227-229 | An emitter starts with no callbacks. |
| Emitter.EventEmitter.On | public/js/chirp.js:255-260 | `on` appends to the event's list, creating it if needed. `listeners` then ends with the callback and `hasListeners` holds. |
| Emitter.EventEmitter.Once | public/js/chirp.js:272-284 | `once` registers a fresh wrapper for the function and records it as `fn._off`. |
| Emitter.EventEmitter.Off | public/js/chirp.js:307-320 | `off(event, fn)` takes the first occurrence of `fn._off` (or of `fn` when unset) off the event's list. A missing key or list changes nothing. |
| Emitter.EventEmitter.OffEvent | public/js/chirp.js:307-315 | `off(event)` deletes that event's list and leaves the others unchanged. |
| Emitter.EventEmitter.OffAll | public/js/chirp.js:301-305 | `off()` clears every list. |
| Emitter.EventEmitter.Emit | public/js/chirp.js:331-344 | Every callback in the list when the emission began is called once, in registration order. The `once` wrappers are gone afterwards and the other lists are unchanged. |
| Minstache.ReplaceAllChars | public/js/chirp.js:772-775 | A global replace leaves no raw target character unless the replacement brings one, and adds no character that neither side has. |
| Minstache.EscapeSafe | public/js/chirp.js:770-776 | Escaped output contains no raw `"`, `<` or `>`. |
| Minstache.EscapeAppend | public/js/chirp.js:770-776 | Escaping distributes over concatenation. |
| Minstache.EscapeOne | public/js/chirp.js:770-776 | Escaping `&` first means no entity is escaped again: one character becomes exactly its own entity. |
| Minstache.EscapeIsPerChar | public/js/chirp.js:770-776 | The four chained replaces equal escaping each character on its own. |
| Minstache.UnescapeEscape | public/js/chirp.js:770-776 | Escaping loses nothing: decoding the four entities gives the text back. |
| Minstache.AllPropertyChars | public/js/chirp.js:717 | `[\w.]` matches every character of the name. |
| Minstache.AssertProperty | public/js/chirp.js:716-718 | It accepts iff the name is non-empty and all of it is letters, digits, `_` or `.`. Otherwise it fails, naming the property. |
| Minstache.AcceptedPropertyIsInert | public/js/chirp.js:716-718 | An accepted name has no quote, backslash, space or newline, and escaping leaves it unchanged. |
| Minstache.Section | public/js/chirp.js:754-759 | A function property is called with the block. For a value, the section renders the block iff the value's truthiness, flipped when `negate` is set, holds, and nothing otherwise. |
| Minstache.SectionExactlyOne | public/js/chirp.js:754-759 | For a value, `{{#prop}}` keeps a non-empty block iff the value is truthy and `{{^prop}}` iff it is not. Exactly one of them renders it. |
| Minstache.Parse | public/js/chirp.js:728-730 | The split yields at least one piece. |
| Minstache.Delims | public/js/chirp.js:728-730 | Every cut is at `{{` or `}}`. |
| Minstache.ParseRejoin | public/js/chirp.js:728-730 | `parse` loses nothing. There is one piece more than delimiters, and rejoining gives the template. |
| Minstache.ParseHead | public/js/chirp.js:728-730 | The first piece is a prefix of the template. |
| Minstache.ParseClean | public/js/chirp.js:728-730 | No piece contains a delimiter. |
| Minstache.ParseLeftmost | public/js/chirp.js:728-730 | The split cuts at the leftmost delimiter. The first piece contains no `{{` or `}}`. It is the whole template iff there is no delimiter, and otherwise it is followed by the delimiter at its end, and the rest is the split of what follows that delimiter. |

## Left out

- The `ws` WebSocket server, the browser `WebSocket`, and the `through` stream library are replaced by the send log, the close counter and the readable queue. Their event delivery and buffering are not modelled.
- Conduit.Broadcaster.End: does not model `sock.send(chunk)` and `sock.close()` on the server object, which are calls into the `ws` library.
- `sid()` draws from `Math.random`. The id is a parameter of `Connect`, and distinct ids are tracked by the ghost flag `collided`, not assumed.
- Timers (`setTimeout` in `debounce`, `defer`) are not modelled. Deferred sends are delivered in scheduling order by `Tick`, not by wall-clock time.
- Conduit.Broadcaster.Close: the pool-size property (connects minus closes) is stated only while no two connections shared a sid. After a collision, one close can remove several peers.
- `JSON.stringify`/`JSON.parse` of frames and messages are not modelled, and neither is the `error` event of a parse failure. Frames are datatypes and messages arrive as already-parsed objects.
- `Message` with a non-object argument (the `TypeError` branch) is left out: the data handler always passes an object.
- The DOM, jQuery, domready, `chirp.ready`, `chirp.prototype.write`/`toNode`, `prompt`/`auth`, `localStorage` and the click handler are not modelled.
- ChirpClient.Client.Open: the open handler's `fn.call(client, sock)` arguments and the `connect` event's socket argument are not modelled. Only which callback is invoked and which event is emitted are.
- ChirpClient.Client.Open: follows the corrected callback test of the Findings row (`typeof fn`). As written, a function callback is never invoked, and the string `"function"` as callback throws a `TypeError` after `isReady` is set, before the flush, the `connect` event and the pending `end()`.
- ChirpFilters.Chirp.OnData: records the sid with the corrected test of the Findings row. As written, an arriving sid is never stored, and data without one sets the stored sid to `undefined`.
- ChirpFilters.ApplyFilters: a filter is a function of the data to its next step, so a filter that calls `next` asynchronously, or more than once, is not modelled.
- Emitter.EventEmitter.Emit: callbacks other than a `once` wrapper's own `off` are assumed not to call back into the emitter during an emission.
- Emitter.EventEmitter.On: a `once` wrapper registered by hand on an event other than its own is excluded by the precondition.
- `fn._off` is a property of the shared function object in the source. Here it is the emitter's `offTag` map, so two emitters sharing a function do not see each other's tags.
- `Emitter(obj)`/`mixin`, and the arguments `emit` passes on, are not modelled.
- The node `EventEmitter` shim bundled in `public/js/chirp.js` is not part of this model.
- Running a module (`module.exports`, `module.call`, `require.relative` of the resolved name) is not modelled. Loader.Registry.Locate covers only the lookup and the error.
- Loader.Registry.Locate: an `orig` or `parent` that is `undefined` is modelled as the empty string, the other falsy value those `||` defaults react to.
- minstache `compile`, `indent` and the rendering through `new Function` are not modelled. Minstache.Escape works on strings and leaves out the `String(html)` conversion of non-strings.
- ChirpClient.ClientHost: when the page host contains a line terminator, only the `ws://` prefix is stated. `.` stops at the terminator there.
- Numbers are integers (`JsValues.Num`). Floating point and `NaN` truthiness are not modelled.

## Findings

| source | as written | input that shows it | evidently intended | confidence | as-written member | corrected member |
|---|---|---|---|---|---|---|
| public/js/chirp/index.js:158 | `'function' === fn` compares the callback itself with a string, so a function callback is never called | `client.connect(function (sock) { ... })` | `'function' === typeof fn` | high, not executed | ChirpClient.ConnectCallbackAsWritten, ChirpClient.CallbackNeverInvoked | ChirpClient.ConnectCallback |
| public/js/chirp/index.js:84-85 | `undefined === data.sid` stores the sid only when none arrived, so the server's `{sid}` handshake is never recorded | the handshake `{"sid": "3f2a"}` with no stored sid | `undefined !== data.sid` | high, not executed | ChirpFilters.SidAfterAsWritten, ChirpFilters.HandshakeSidLost | ChirpFilters.SidAfter |
