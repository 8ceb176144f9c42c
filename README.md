# NAO remote client: a verified Dafny model

This project models the core of the C# client that a controller uses to drive a
NAO robot over a TCP connection (repository cartheur/aiventure-nao), together
with the JSON value type its messages use.

- **NaoRemoteModule** is the connection. Each remote call takes the next call
  id and the next of 50 reusable waiters, sends a JSON request, and blocks until
  the receive loop has stored a result or an error under that id. Subscribing
  to an event name with no subscribers yet sends one "subs" request. Removing
  its last subscriber sends one "unsu" request. Both of these round trips happen
  while the lock on the handler table is held.
- **The receive loop** (SockLoop) decodes each read of at most 1024 bytes as
  ASCII and splits it on ";;;". It routes "resu" frames to the waiting caller
  and "evnt" frames to the subscribers of the event name, in order. The first
  exception abandons the rest of that read.
- **NaoEventData** wraps an event's payload text. It decodes the text on first
  use and keeps the value once it is non-null.
- **JsonData** is the mapper's generic JSON value. It holds a type tag, one
  payload field per kind of value, and an ordered dictionary for objects (a map
  plus an entry list in insertion order, kept in step by every modelled
  operation). It also caches
  its serialised text.

## Layout

| file | module | contents |
|---|---|---|
| wrappers.dfy | Wrappers | `Option`, `Result`, `Outcome` (null, a value or a thrown exception) |
| ints.dfy | Ints | `int32`, `int64` |
| codec.dfy | Codec | `JsonMapper.ToObject<List<T>>(text)[0]`, with the mapper as a parameter |
| frames.dfy | Frames | ASCII decoding, the ";;;" split, and its round trip |
| handlers.dfy | Handlers | the subscriber lists: add unless present, remove the first occurrence |
| routing.dfy | Routing | a pure specification of routing the frames of one read |
| remote.dfy | Remote | `class RemoteModule`: the C# fields `_active`, `_poolWaiter` (an `array<bool>` of signalled flags), `_poolWaiterIndex`, `_callCounter`, `_pendingWaiter`, `_pendingResults`, `_pendingErrors` and `_eventHandlers`, plus `receiving`, `roundTrip`, `sent` and `invoked`, which record what the explicit steps need (connection, held lock, requests written, subscriber calls); `_ipAddress`, `_remoteEp`, `_sockThread`, `_sender` and `_bytes` have no field |
| json_object.dfy | JsonObject | the ordered-dictionary invariant and the lemmas its updates keep |
| json_text.dfy | JsonText | invariant-culture decimal text of integers, with a parser that inverts it |
| json_data.dfy | Json | `class JsonData` |
| event_data.dfy | Events | `class EventData<V>` |

### How the model works

- **Blocking calls in steps.** Each blocking call is split into explicit steps:
  - `BeginEval` allocates the id and waiter and logs the request in `sent`
    when the connection delivers it;
  - `ReceiveChunk` does one iteration of the receive loop;
  - `FinishEval` answers `Blocked` and `FinishRoundTrip` answers `AckPending` while the caller's waiter is not signalled.
- **Handler-table lock.** The `roundTrip` field is the handler-table lock held
  over a subscribe/unsubscribe round trip. A second Subscribe or Unsubscribe
  during one returns `LockBusy`, meaning "would wait".
- **Receive-loop specification.** `ReceiveChunk` is proved equal to the pure
  function `Routing.RouteFrames` on the part of the state the loop touches.
  The properties of the loop are proved as lemmas about that function.
- **Code outside this model becomes parameters.** This covers the JSON text
  parser and writer, IP address parsing, the socket, and the decoder of
  `ToObject<List<T>>`.

## Model

| member | source | states |
|---|---|---|
| Codec.DecodeFirst | NaoRemote/NaoRemoteModule.cs:119 | success exactly when the decoder yields a non-empty list, and then the value is element 0; an empty list is its own error |
| Frames.AsciiDecode | NaoRemote/NaoRemoteModule.cs:239-240 | one character per byte received; bytes below 0x80 map to themselves, others to '?' |
| Frames.FirstDelimiter | NaoRemote/NaoRemoteModule.cs:242-243 | the leftmost occurrence of ";;;" at or after a position, or none |
| Frames.Segments | NaoRemote/NaoRemoteModule.cs:242-243 | the pieces between non-overlapping leftmost delimiters: joined with ";;;" they give back the text, none contains the delimiter, and every piece but the last, followed by ";;;", has its leftmost delimiter at its end |
| Frames.SegmentsUnique | NaoRemote/NaoRemoteModule.cs:242-243 | any split with those three properties is the one Segments returns, so the split is unique |
| Frames.NonEmpty | NaoRemote/NaoRemoteModule.cs:243 | RemoveEmptyEntries: no empty piece is kept, a string is kept exactly when it is a non-empty piece, and the result is no longer than the input |
| Frames.NonEmptyCount | NaoRemote/NaoRemoteModule.cs:243 | every non-empty piece is kept as many times as it occurs: the multiset of the result is the input's with "" removed |
| Frames.NonEmptyAppend | NaoRemote/NaoRemoteModule.cs:243 | filtering a concatenation is the concatenation of the filtered parts, so the kept pieces stay in their order |
| Frames.NonEmptySingle | NaoRemote/NaoRemoteModule.cs:243 | a single piece is kept exactly when it is not empty |
| Frames.NonEmptyCons | NaoRemote/NaoRemoteModule.cs:243 | a piece in front of a list is kept, ahead of the kept rest, exactly when it is not empty |
| Frames.SplitFrames | NaoRemote/NaoRemoteModule.cs:242-243 | every frame of a read is non-empty and contains no delimiter |
| Frames.SegmentsAfterFrame | NaoRemote/NaoRemoteModule.cs:242-243 | a well-formed frame followed by ";;;" is split off as one piece |
| Frames.SegmentsOfTerminated | NaoRemote/NaoRemoteModule.cs:242-243 | frames each followed by ";;;" split into those frames plus one empty trailing piece |
| Frames.NonEmptyOfFrames | NaoRemote/NaoRemoteModule.cs:243 | dropping empty pieces removes exactly the trailing empty piece |
| Frames.SplitTerminated | NaoRemote/NaoRemoteModule.cs:242-243 | round trip: splitting what the peer writes (each frame followed by ";;;") gives back exactly its frames, in order |
| Frames.TwoFramesWithTrailingDelimiter | NaoRemote/NaoRemoteModule.cs:242-243 | "a;;;b;;;" is read as exactly the two frames a and b |
| Handlers.AddHandler | NaoRemote/NaoRemoteModule.cs:133-137 | the handler is in the list afterwards; the list changes iff it was absent, and then only by appending; no duplicates are introduced |
| Handlers.RemoveHandler | NaoRemote/NaoRemoteModule.cs:189 | List.Remove: an absent handler leaves the list as it was; a present one makes it exactly one shorter |
| Handlers.IndexOf | NaoRemote/NaoRemoteModule.cs:189 | the first-occurrence search behind List.Remove (used by RemoveHandlerCutsFirst): an index holding the handler, with no occurrence before it |
| Handlers.RemoveHandlerCutsFirst | NaoRemote/NaoRemoteModule.cs:189 | for a present handler, the result is the list with its first occurrence (List.IndexOf) cut out and everything else in order |
| Handlers.RemoveHandlerMembers | NaoRemote/NaoRemoteModule.cs:189 | removal never adds a handler and keeps every other one |
| Handlers.RemoveHandlerDistinct | NaoRemote/NaoRemoteModule.cs:189 | on a duplicate-free list, removal drops exactly that handler, shortens the list by one and keeps it duplicate-free |
| Handlers.RemoveLast | NaoRemote/NaoRemoteModule.cs:189-190 | the list becomes empty exactly when the handler was its only element |
| Routing.TextField | NaoRemote/NaoRemoteModule.cs:247 | (definition) `(string)response[key]`: the field when it is present and a string, otherwise the exception (`None`) |
| Routing.IntField | NaoRemote/NaoRemoteModule.cs:249 | (definition) `(int)response[key]`: the field when it is present and held as Int, otherwise the exception (`None`) |
| Routing.FanOut | NaoRemote/NaoRemoteModule.cs:265-269 | one call per subscriber, in list order, each with the event's name and payload |
| Routing.Resolve | NaoRemote/NaoRemoteModule.cs:254-255 | succeeds exactly when a waiter is bound to the id; then only that pool slot is signalled and only that binding is removed, every other binding and slot is kept; without one nothing changes; results, errors and subscriber calls are never touched |
| Routing.RouteResponse | NaoRemote/NaoRemoteModule.cs:249-256 | (definition) read "id" and "stat", store "res" or "err" under the id, then Resolve; a missing or mistyped field throws; properties in Routing.ResponseWritesOneMap |
| Routing.RouteEvent | NaoRemote/NaoRemoteModule.cs:257-272 | (definition) read "name" and "val", then FanOut to the subscribers of the name if it has any; properties in Routing.EventReachesSubscribersInOrder |
| Routing.RouteFrame | NaoRemote/NaoRemoteModule.cs:246-272 | routing one frame never binds a new waiter or rebinds one, keeps the pool size and only appends subscriber calls |
| Routing.UnroutedFrameChangesNothing | NaoRemote/NaoRemoteModule.cs:246-257 | a frame that is neither "resu" nor "evnt" leaves the state as it was; the read goes on exactly when the frame parsed and its "type" is a string |
| Routing.RouteFrames | NaoRemote/NaoRemoteModule.cs:244-273 | the same for all frames of a read, which stop at the first frame that throws |
| Routing.ResponseWritesOneMap | NaoRemote/NaoRemoteModule.cs:247-256 | a response writes the result map when stat is "1" and the error map otherwise, then wakes and unbinds the id's waiter; an unknown id keeps the stored entry and ends the read |
| Routing.EventReachesSubscribersInOrder | NaoRemote/NaoRemoteModule.cs:257-271 | an event calls each subscriber of its name once, in order, and changes nothing else |
| Routing.OtherFrameLeavesCallAlone | NaoRemote/NaoRemoteModule.cs:244-256 | one frame that is no response for call c leaves c bound to its waiter, unsignalled, with its result and error entries unchanged, and keeps pending calls on distinct waiters |
| Routing.OthersLeavePendingCallAlone | NaoRemote/NaoRemoteModule.cs:244-256 | while no two pending calls share a waiter, frames that are no response for call c leave c bound to its waiter, unsignalled, with its result and error entries unchanged |
| Remote.NextSlot | NaoRemote/NaoRemoteModule.cs:96 | the round-robin successor of a pool slot stays in the pool and wraps from 49 to 0 |
| Remote.TakeResult | NaoRemote/NaoRemoteModule.cs:115-119 | "null" gives default(T) without decoding; any other text gives element 0 of the decoded list, or the decoding fault |
| Remote.RemoteModule.constructor | NaoRemote/NaoRemoteModule.cs:34-49 | inactive; 50 unsignalled waiters; index and counter 0; all tables empty |
| Remote.RemoteModule.Connect | NaoRemote/NaoRemoteModule.cs:51-74 | already active: true, nothing changes; otherwise the flag is set, and stays set, before parsing or connecting can fail; only a successful connect starts the receive loop |
| Remote.RemoteModule.Disconnect | NaoRemote/NaoRemoteModule.cs:75-84 | returns whether it was active; afterwards inactive and not receiving |
| Remote.RemoteModule.AllocateCall | NaoRemote/NaoRemoteModule.cs:91-98 | the id is the old counter, so it is fresh (above every pending and sent id); the counter increments; the waiter at the index is bound to the id; the index advances round-robin |
| Remote.RemoteModule.BeginEval | NaoRemote/NaoRemoteModule.cs:85-108 | allocates as AllocateCall does; on a connected socket that delivers the request, exactly one eval request with that id, post "1"/"0", the method and the argument text is appended to what was sent; otherwise the call throws with the allocation kept (id bound to its waiter) and nothing sent |
| Remote.RemoteModule.FinishEval | NaoRemote/NaoRemoteModule.cs:109-124 | blocked until the waiter is signalled; then it resets the waiter and removes and returns the result (converted), or else removes and raises the error, or else fails on the missing entry |
| Remote.RemoteModule.Subscribe | NaoRemote/NaoRemoteModule.cs:126-168 | lock busy: nothing changes; known name: the handler is appended unless present and nothing is sent; new name: a fresh id is allocated, and on a delivering connection exactly one subs request is sent and the lock is held, otherwise the call throws with nothing sent, the lock free and the table unchanged |
| Remote.RemoteModule.StartRoundTrip | NaoRemote/NaoRemoteModule.cs:151-168 | the next call id and pool slot are taken and the id is bound to that slot; on a delivering connection exactly one subs or unsu request for the name is appended to what was sent and the handler-table lock records the round trip; otherwise nothing is sent and the lock stays free; nothing else changes |
| Remote.RemoteModule.Unsubscribe | NaoRemote/NaoRemoteModule.cs:179-219 | absent name or handler: nothing changes; not the last handler: only the list shrinks; the last handler: the entry is dropped and a fresh id allocated, then exactly one unsu request is sent on a delivering connection, or the call throws with nothing sent and the entry already gone |
| Remote.RemoteModule.FinishRoundTrip | NaoRemote/NaoRemoteModule.cs:169-175 | blocked until signalled; then the waiter is reset, the lock released, and the acknowledgement removed, after which a subscription registers [action]; a missing acknowledgement throws and registers nothing |
| Remote.RemoteModule.ReceiveChunk | NaoRemote/NaoRemoteModule.cs:229-279 | one iteration of the receive loop equals RouteFrames on the decoded, split read; nothing else changes; nothing happens when the loop is not running |
| Remote.RemoteModule.HandleFrame | NaoRemote/NaoRemoteModule.cs:246-272 | one frame equals RouteFrame |
| Remote.RemoteModule.HandleResponse | NaoRemote/NaoRemoteModule.cs:247-256 | a "resu" frame equals RouteResponse |
| Remote.RemoteModule.Wake | NaoRemote/NaoRemoteModule.cs:254-255 | an id with a waiter: that pool slot is signalled and the binding released, as the routing specification's response step says; an id without one ends the read and changes nothing |
| Remote.RemoteModule.HandleEvent | NaoRemote/NaoRemoteModule.cs:257-271 | an "evnt" frame equals RouteEvent: the subscribers are called in order |
| Remote.SharedWaiterIffCongruent | NaoRemote/NaoRemoteModule.cs:92-97 | every pending call waits on slot id mod 50, so two pending calls share a waiter exactly when their ids differ by a multiple of 50 |
| Remote.SharedWaiterReachable | NaoRemote/NaoRemoteModule.cs:92-97 | from a new module, allocating call 0, answering calls 1 to 49 and allocating call 50 leaves only calls 0 and 50 pending, both on waiter 0 |
| JsonText.Natural | NaoRemote/Json/JsonData.cs:956-960 | digits only, at least one, no leading zero |
| JsonText.ParseNatural | NaoRemote/Json/JsonData.cs:956-960 | a text parses exactly when it is all digits |
| JsonText.Decimal | NaoRemote/Json/JsonData.cs:956-960 | (definition) a minus sign for negatives, then the digits; properties in JsonText.DecimalRoundTrip and JsonText.DecimalInjective |
| JsonText.NaturalRoundTrip | NaoRemote/Json/JsonData.cs:956-960 | parsing the digits of n gives n |
| JsonText.DecimalRoundTrip | NaoRemote/Json/JsonData.cs:956-960 | parsing the invariant-culture text of an integer gives it back |
| JsonText.DecimalInjective | NaoRemote/Json/JsonData.cs:956-960 | the text starts with '-' exactly for negatives, and distinct integers have distinct texts |
| JsonObject.IndexOfKey | NaoRemote/Json/JsonData.cs:284-291 | the first entry holding the key |
| JsonObject.PutEntry | NaoRemote/Json/JsonData.cs:282-294 | (definition) the entry list after setting a property: an existing key's entry is replaced where it stands, a new key is appended; properties in JsonObject.PutKeepsSync |
| JsonObject.DropEntry | NaoRemote/Json/JsonData.cs:521-528 | (definition) the entry list after removing a key: its first entry is cut out; properties in JsonObject.DropKeepsSync |
| JsonObject.SetValueAt | NaoRemote/Json/JsonData.cs:322-326 | (definition) the entry list after assigning at an index: the key there stays; properties in JsonObject.SetValueAtKeepsSync |
| JsonObject.UniqueIndex | NaoRemote/Json/JsonData.cs:284-291 | with distinct keys, the entry the search loop stops at is that first entry |
| JsonObject.SetValueAtKeepsSync | NaoRemote/Json/JsonData.cs:322-326 | assigning at an index keeps map and entry list in step and keeps the key order |
| JsonObject.PutKeepsSync | NaoRemote/Json/JsonData.cs:282-296 | setting a property keeps map and entry list in step; an existing key keeps its place, a new key goes last |
| JsonObject.DropKeepsSync | NaoRemote/Json/JsonData.cs:519-528 | removing a property keeps map and list in step; the list gets one shorter and the remaining keys keep their order; an absent key changes nothing |
| JsonObject.SyncSize | NaoRemote/Json/JsonData.cs:33-36 | the dictionary's count equals the length of the entry list |
| Json.DoubleEquals | NaoRemote/Json/JsonData.cs:863 | (definition) `Double.Equals` on bit patterns: equal bits, two NaNs, or two zeros; properties in Json.DoubleEqualsIsEquivalence |
| Json.DoubleEqualsIsEquivalence | NaoRemote/Json/JsonData.cs:862-863 | Double.Equals is reflexive (NaN included), symmetric and transitive, and equates +0 and -0 |
| Json.JsonData.constructor | NaoRemote/Json/JsonData.cs:335-337 | an uninitialised value with default payloads |
| Json.JsonData.FromBoolean | NaoRemote/Json/JsonData.cs:339-343 | a Boolean value that converts back to the same bool |
| Json.JsonData.FromDouble | NaoRemote/Json/JsonData.cs:345-349 | a Double value that converts back to the same double |
| Json.JsonData.FromInt | NaoRemote/Json/JsonData.cs:351-355 | an Int value that converts back to the same int |
| Json.JsonData.FromLong | NaoRemote/Json/JsonData.cs:357-361 | a Long value that converts back to the same long |
| Json.JsonData.FromString | NaoRemote/Json/JsonData.cs:403-407 | a String value that converts back to the same (possibly null) string |
| Json.JsonData.IsCollection | NaoRemote/Json/JsonData.cs:699-708 | (definition) what `EnsureCollection` accepts without throwing: an array or an object |
| Json.JsonData.Count | NaoRemote/Json/JsonData.cs:33-36 | defined exactly for arrays and objects; for an object it equals the length of the entry list |
| Json.JsonData.EnsureDictionary | NaoRemote/Json/JsonData.cs:710-723 | object: unchanged; uninitialised: becomes an empty object; otherwise InvalidOperation with nothing changed |
| Json.JsonData.EnsureList | NaoRemote/Json/JsonData.cs:725-737 | array: unchanged; uninitialised: becomes an empty array; otherwise InvalidOperation with nothing changed |
| Json.JsonData.GetProperty | NaoRemote/Json/JsonData.cs:269-273 | an object yields the property or KeyNotFound; uninitialised becomes an empty object and misses; other kinds throw |
| Json.JsonData.SetProperty | NaoRemote/Json/JsonData.cs:275-299 | map and entry list both get the property (in place for an existing key, appended for a new one); the cached text is dropped; non-objects throw with nothing changed |
| Json.JsonData.PutInEntryList | NaoRemote/Json/JsonData.cs:282-294 | the entry list becomes PutEntry of the old one: the scan replaces the entry of an existing key where it stands, a new key is appended |
| Json.JsonData.GetItem | NaoRemote/Json/JsonData.cs:304-312 | defined exactly for indexes below Count; an object's entry value is the map's value for that entry's key |
| Json.JsonData.SetItem | NaoRemote/Json/JsonData.cs:314-330 | an in-range index is replaced, keeping the key and Count, and reads back as the new value; out of range throws with nothing changed, and so do non-collections |
| Json.JsonData.DictionaryAdd | NaoRemote/Json/JsonData.cs:487-498 | a new key is appended to both map and list; a duplicate throws with nothing changed |
| Json.JsonData.DictionaryRemove | NaoRemote/Json/JsonData.cs:517-531 | the key leaves the map and its entry leaves the list; an absent key is no error; the cached text is dropped either way |
| Json.JsonData.DropFromEntryList | NaoRemote/Json/JsonData.cs:521-528 | the entry list becomes DropEntry of the old one: the first entry with the key is removed, a list without it is unchanged |
| Json.JsonData.DictionaryClear | NaoRemote/Json/JsonData.cs:500-505 | an empty object afterwards, with the cached text dropped |
| Json.JsonData.ListClear | NaoRemote/Json/JsonData.cs:634-638 | an empty array afterwards, with the cached text dropped |
| Json.JsonData.Clear | NaoRemote/Json/JsonData.cs:820-832 | collections become empty (Count 0) and keep their kind; any other value is not touched |
| Json.JsonData.Add | NaoRemote/Json/JsonData.cs:812-818 | appends to an array and returns the new element's index; the cached text is dropped even when the call throws |
| Json.JsonData.GetBoolean | NaoRemote/Json/JsonData.cs:542-548 | the payload exactly when the tag is Boolean, InvalidOperation otherwise |
| Json.JsonData.GetDouble | NaoRemote/Json/JsonData.cs:550-556 | the payload exactly when the tag is Double, InvalidOperation otherwise |
| Json.JsonData.GetInt | NaoRemote/Json/JsonData.cs:558-564 | the payload exactly when the tag is Int, InvalidOperation otherwise |
| Json.JsonData.GetLong | NaoRemote/Json/JsonData.cs:566-572 | the payload exactly when the tag is Long, InvalidOperation otherwise |
| Json.JsonData.GetString | NaoRemote/Json/JsonData.cs:574-580 | the payload exactly when the tag is String, InvalidOperation otherwise |
| Json.JsonData.SetBoolean | NaoRemote/Json/JsonData.cs:582-587 | reads back through GetBoolean; the other payloads stay; the cached text is dropped |
| Json.JsonData.SetDouble | NaoRemote/Json/JsonData.cs:589-594 | reads back through GetDouble; the other payloads stay; the cached text is dropped |
| Json.JsonData.SetInt | NaoRemote/Json/JsonData.cs:596-601 | reads back through GetInt; the other payloads stay; the cached text is dropped |
| Json.JsonData.SetLong | NaoRemote/Json/JsonData.cs:603-608 | reads back through GetLong; the other payloads stay; the cached text is dropped |
| Json.JsonData.SetString | NaoRemote/Json/JsonData.cs:610-615 | reads back through GetString; the other payloads stay; the cached text is dropped |
| Json.JsonData.SetJsonType | NaoRemote/Json/JsonData.cs:877-918 | the same tag changes nothing; a new tag resets only that kind's payload (a new collection is empty) and keeps the cached text |
| Json.JsonData.Equals | NaoRemote/Json/JsonData.cs:834-870 | null or a different tag: false; two uninitialised values: true; objects and arrays only with themselves; strings, ints, longs and booleans by value (doubles by Double.Equals); a null string payload throws; a value equals itself unless that throws |
| Json.JsonData.ToString | NaoRemote/Json/JsonData.cs:943-970 | integers render as a decimal that parses back to the payload; a string renders as itself, null as null |
| Json.JsonData.ToJson | NaoRemote/Json/JsonData.cs:920-933 | the cached text if any; otherwise the writer's output, which becomes the cache |
| Json.ToBoolean | NaoRemote/Json/JsonData.cs:438-444 | null throws NullReference; otherwise it agrees with GetBoolean, with InvalidCast instead of InvalidOperation |
| Json.ToDouble | NaoRemote/Json/JsonData.cs:446-452 | null throws NullReference; otherwise it agrees with GetDouble, with InvalidCast instead of InvalidOperation |
| Json.ToInt | NaoRemote/Json/JsonData.cs:454-460 | null throws NullReference; otherwise it agrees with GetInt, with InvalidCast instead of InvalidOperation |
| Json.ToLong | NaoRemote/Json/JsonData.cs:462-468 | null throws NullReference; otherwise it agrees with GetLong, with InvalidCast instead of InvalidOperation |
| Json.ToText | NaoRemote/Json/JsonData.cs:470-476 | null throws NullReference; otherwise it agrees with GetString, with InvalidCast instead of InvalidOperation |
| Events.EventData.constructor | NaoRemote/NaoEventData.cs:14-17 | keeps the payload text, nothing decoded yet |
| Events.EventData.Extract | NaoRemote/NaoEventData.cs:19-24 | a cached value is returned without decoding; otherwise element 0 of the decoded payload, cached when non-null; a failure caches nothing |
| Events.ExtractTwice | NaoRemote/NaoEventData.cs:19-24 | once an extraction yields a value, the next one yields the same value whatever decoder it is given |

## Left out

- Sockets, threads and blocking. Receiving is a method called with the bytes
  of one read. Waiting is the `Blocked`/`AckPending` outcome. Send byte counts,
  UTF-8 encoding of requests, and the exceptions of `Thread.Abort` and
  `Socket.Disconnect` are not modelled.
- Why a request cannot be written. A throwing `JsonMapper.ToJson` or
  `Socket.Send` on a connected socket is the `delivered` parameter of
  `BeginEval`, `Subscribe` and `Unsubscribe`; a socket that was never
  connected or was disconnected is read from the module's state. What happens
  after the failure (allocation kept, nothing sent, the exception returned)
  is modelled.
- The request JSON text. A request is logged as a `Request` value; the JSON
  writer is not part of this model.
- The JSON mapper. Frames are parsed by a `FrameParser` parameter, and payloads
  and results are decoded by a `ListDecoder` parameter.
- Remote.RemoteModule.AllocateCall: the call counter is unbounded and does not
  model the 32-bit wrap-around of `_callCounter++`.
- The IP address and port 9559. The outcome of parsing and connecting is the
  `ConnectAttempt` parameter of `Connect`.
- `_active`, `_sender` and the receive buffer are static, so they are shared by
  every instance. The model gives each instance its own.
- Routing.OthersLeavePendingCallAlone: it assumes no two pending calls share a
  waiter. The pool index advances on every allocation, whether or not earlier
  calls have finished, so two pending calls share a waiter whenever their ids
  differ by a multiple of 50 (Remote.SharedWaiterIffCongruent), which can
  happen with only two calls pending (Remote.SharedWaiterReachable). A
  response for one of them then wakes the other caller, which may find no
  entry for its id. That case is not proved isolated.
- The receive loop's `lock (_eventHandlers)` on "evnt" frames. During a
  subscribe/unsubscribe round trip, the receive loop would wait for that lock
  while the subscriber waits for its acknowledgement. The model does not model
  that contention.
- Subscriber code. Handlers are identified by a number and their calls are
  logged as `Invocation` values. Exceptions and re-entrant calls from them are
  not modelled.
- Events.EventData.Extract: the C# method is generic per call. Calling it with
  a different T after a value is cached throws InvalidCastException. The model
  fixes one value type per instance. The cast of null to a value type is also
  not modelled.
- Double arithmetic and text. A double is its IEEE 754 bit pattern, with
  `Double.Equals` written out on those bits. `ToString` of a double is
  represented by the bits, because the invariant-culture round-trip format is
  not modelled.
- Json.JsonData.Equals: objects and arrays compare by instance, since the C#
  compares dictionary and list references and no two instances share one.
- `ToJson(JsonWriter)` and the serialisation itself. `ToJson()` takes the
  writer's output as a parameter.
- The `JsonData(object)` constructor, `ToJsonData`, and the implicit
  conversions. They wrap .NET primitives reached through reflection and
  `object`; values are passed as `JsonData` references instead.
- `IList.Insert`, `IList.Remove`, `IList.RemoveAt`, `IOrderedDictionary.Insert`,
  `IOrderedDictionary.RemoveAt` and the `IOrderedDictionary` indexer. They are
  outside the modelled core.
- `IOrderedDictionary.Insert` (NaoRemote/Json/JsonData.cs:677-687) breaks the
  map/list invariant: it sets the property through the string indexer, which
  already adds or replaces its entry, and then inserts a second entry for the
  same key. The invariant `InSync` is therefore a property of the modelled
  operations only, not of every JsonData the C# class can reach.
- `IDictionary.Keys`/`Values`, `Contains`, `IndexOf`, `CopyTo` and the
  enumerators. They are outside the modelled core.
- The Is* properties and `GetJsonType`. They are plain tag reads
  (`jsonType == ...`), used directly in the contracts.
- Null arguments. A null key or property name (ArgumentNullException) is not
  modelled; keys are strings.
