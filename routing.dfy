/** What the receive loop does with the frames of one read (SockLoop's body):
    each frame is parsed as a JSON object and routed on its "type" field.
    A "resu" frame stores a result or an error for its call id and wakes the
    waiter bound to that id; an "evnt" frame is handed to every subscriber of
    its name, in registration order. The first exception in a frame ends the
    processing of the whole read: the try block encloses the loop over frames. */
module Routing {
  import opened Wrappers
  import opened Handlers
  import opened Ints

  /** A field of a parsed frame as the loop reads it: a JSON string, a JSON
      number held as Int, or anything else (null, long, double, bool, array,
      object). */
  datatype Field = Text(s: string) | Number(n: int32) | OtherValue

  /** A frame parsed by JsonMapper.ToObject, when it is a JSON object. */
  type FrameObject = map<string, Field>

  /** The JSON mapper is not part of this model: `None` stands for every frame
      on which ToObject throws or that is not an object, so that the first
      indexer read throws. */
  type FrameParser = string -> Option<FrameObject>

  /** `(string)response[key]`: the indexer throws KeyNotFoundException for a
      missing key, the cast throws unless the value is a string. */
  function TextField(obj: FrameObject, key: string): Option<string> {
    if key in obj && obj[key].Text? then Some(obj[key].s) else None
  }

  /** `(int)response[key]`: throws unless the value is held as Int. */
  function IntField(obj: FrameObject, key: string): Option<int32> {
    if key in obj && obj[key].Number? then Some(obj[key].n) else None
  }

  /** One call of a subscriber: `handler(eventName, new NaoEventData(payload))`. */
  datatype Invocation = Invocation(handler: Handler, eventName: string, payload: string)

  /** The state the receive loop writes: `_pendingWaiter` (call id to pool
      slot), `_pendingResults`, `_pendingErrors`, the signalled flag of every
      pool waiter, and the calls made to subscribers so far. */
  datatype RoutingState = RoutingState(
    waiter: map<int, nat>,
    results: map<int, string>,
    errors: map<int, string>,
    signaled: seq<bool>,
    invoked: seq<Invocation>)

  /** Every bound waiter is a slot of the pool. */
  ghost predicate SlotsInPool(r: RoutingState) {
    forall c :: c in r.waiter ==> r.waiter[c] < |r.signaled|
  }

  /** No two pending calls share a waiter. The pool index advances on every
      allocation, finished or not, so this fails as soon as two pending ids
      differ by a multiple of 50 (see Remote.SharedWaiterIffCongruent). */
  ghost predicate DistinctSlots(w: map<int, nat>) {
    forall c, d :: c in w && d in w && c != d ==> w[c] != w[d]
  }

  /** The state after a routing step, and whether the step completed without
      an exception. */
  datatype Step = Step(routing: RoutingState, ok: bool)

  /** The subscriber calls for one event, one per handler, in list order. */
  function FanOut(hs: seq<Handler>, name: string, payload: string): (calls: seq<Invocation>)
    ensures |calls| == |hs|
    ensures forall j :: 0 <= j < |hs| ==> calls[j] == Invocation(hs[j], name, payload)
  {
    if hs == [] then [] else [Invocation(hs[0], name, payload)] + FanOut(hs[1..], name, payload)
  }

  /** `_pendingWaiter[c].Set(); _pendingWaiter.Remove(c);`: the indexer throws
      when no waiter is bound to `c`, after the result or error was stored. */
  function Resolve(r: RoutingState, c: int): (step: Step)
    requires SlotsInPool(r)
    ensures step.ok <==> c in r.waiter
    ensures !step.ok ==> step.routing == r
    ensures c !in step.routing.waiter
    ensures forall d :: d in r.waiter && d != c ==> d in step.routing.waiter && step.routing.waiter[d] == r.waiter[d]
    ensures |step.routing.signaled| == |r.signaled|
    ensures step.ok ==> step.routing.signaled[r.waiter[c]]
    ensures forall j :: 0 <= j < |r.signaled| && (!step.ok || j != r.waiter[c]) ==> step.routing.signaled[j] == r.signaled[j]
    ensures step.routing.results == r.results && step.routing.errors == r.errors && step.routing.invoked == r.invoked
  {
    if c !in r.waiter then Step(r, false)
    else Step(r.(signaled := r.signaled[r.waiter[c] := true], waiter := r.waiter - {c}), true)
  }

  /** A "resu" frame: read "id" and "stat", then store "res" when stat is "1"
      and "err" otherwise, then wake and release the waiter. */
  function RouteResponse(r: RoutingState, obj: FrameObject): Step
    requires SlotsInPool(r)
  {
    match IntField(obj, "id")
    case None => Step(r, false)
    case Some(c) =>
      match TextField(obj, "stat")
      case None => Step(r, false)
      case Some(stat) =>
        if stat == "1" then
          match TextField(obj, "res")
          case None => Step(r, false)
          case Some(res) => Resolve(r.(results := r.results[c as int := res]), c as int)
        else
          match TextField(obj, "err")
          case None => Step(r, false)
          case Some(err) => Resolve(r.(errors := r.errors[c as int := err]), c as int)
  }

  /** An "evnt" frame: read "name" and "val", then call every subscriber of
      the name, if it has any. */
  function RouteEvent(r: RoutingState, table: map<string, seq<Handler>>, obj: FrameObject): Step {
    match TextField(obj, "name")
    case None => Step(r, false)
    case Some(name) =>
      match TextField(obj, "val")
      case None => Step(r, false)
      case Some(payload) =>
        if name in table then Step(r.(invoked := r.invoked + FanOut(table[name], name, payload)), true)
        else Step(r, true)
  }

  /** One frame: a frame whose type is neither "resu" nor "evnt" is ignored. */
  function RouteFrame(r: RoutingState, table: map<string, seq<Handler>>, frame: string, parse: FrameParser): (step: Step)
    requires SlotsInPool(r)
    ensures SlotsInPool(step.routing) && |step.routing.signaled| == |r.signaled|
    ensures forall c :: c in step.routing.waiter ==> c in r.waiter && step.routing.waiter[c] == r.waiter[c]
    ensures |r.invoked| <= |step.routing.invoked| && step.routing.invoked[..|r.invoked|] == r.invoked
  {
    match parse(frame)
    case None => Step(r, false)
    case Some(obj) =>
      match TextField(obj, "type")
      case None => Step(r, false)
      case Some(kind) =>
        if kind == "resu" then RouteResponse(r, obj)
        else if kind == "evnt" then RouteEvent(r, table, obj)
        else Step(r, true)
  }

  /** The frames of one read, in order, up to and including the first one that
      throws. */
  function RouteFrames(r: RoutingState, table: map<string, seq<Handler>>, frames: seq<string>, parse: FrameParser): (r': RoutingState)
    requires SlotsInPool(r)
    ensures SlotsInPool(r') && |r'.signaled| == |r.signaled|
    ensures forall c :: c in r'.waiter ==> c in r.waiter && r'.waiter[c] == r.waiter[c]
    ensures |r.invoked| <= |r'.invoked| && r'.invoked[..|r.invoked|] == r.invoked
    decreases |frames|
  {
    if frames == [] then r
    else
      var step := RouteFrame(r, table, frames[0], parse);
      if step.ok then RouteFrames(step.routing, table, frames[1..], parse) else step.routing
  }

  /** The frame is a response for call `c`. */
  predicate RespondsTo(parse: FrameParser, frame: string, c: int) {
    parse(frame).Some? && TextField(parse(frame).value, "type") == Some("resu")
    && IntField(parse(frame).value, "id").Some? && IntField(parse(frame).value, "id").value as int == c
  }

  /** A response writes exactly one of the two maps for its id, the result map
      when "stat" is "1" and the error map otherwise, and then releases and
      wakes the waiter bound to the id; for an id with no waiter the read ends
      with the entry stored and nothing woken. */
  lemma ResponseWritesOneMap(r: RoutingState, table: map<string, seq<Handler>>, frame: string, parse: FrameParser, c: int, stat: string, text: string)
    requires SlotsInPool(r) && RespondsTo(parse, frame, c)
    requires TextField(parse(frame).value, "stat") == Some(stat)
    requires TextField(parse(frame).value, if stat == "1" then "res" else "err") == Some(text)
    ensures var step := RouteFrame(r, table, frame, parse);
      && step.ok == (c in r.waiter)
      && step.routing.results == (if stat == "1" then r.results[c := text] else r.results)
      && step.routing.errors == (if stat == "1" then r.errors else r.errors[c := text])
      && step.routing.waiter == r.waiter - {c}
      && step.routing.signaled == (if c in r.waiter then r.signaled[r.waiter[c] := true] else r.signaled)
      && step.routing.invoked == r.invoked
  {
  }

  /** An event reaches every subscriber of its name once, in registration
      order, and changes nothing else. */
  lemma EventReachesSubscribersInOrder(r: RoutingState, table: map<string, seq<Handler>>, frame: string, parse: FrameParser, name: string, payload: string)
    requires SlotsInPool(r)
    requires parse(frame).Some? && TextField(parse(frame).value, "type") == Some("evnt")
    requires TextField(parse(frame).value, "name") == Some(name)
    requires TextField(parse(frame).value, "val") == Some(payload)
    ensures var step := RouteFrame(r, table, frame, parse);
      && step.ok
      && step.routing == r.(invoked := r.invoked + if name in table then FanOut(table[name], name, payload) else [])
  {
  }

  /** A frame that is neither a response nor an event changes nothing: one
      whose "type" is another string is skipped and the read goes on; one
      that does not parse, or whose "type" is missing or not a string, throws
      and ends the read. */
  lemma UnroutedFrameChangesNothing(r: RoutingState, table: map<string, seq<Handler>>, frame: string, parse: FrameParser)
    requires SlotsInPool(r)
    requires parse(frame).None? || TextField(parse(frame).value, "type") !in {Some("resu"), Some("evnt")}
    ensures var step := RouteFrame(r, table, frame, parse);
      && step.routing == r
      && step.ok == (parse(frame).Some? && TextField(parse(frame).value, "type").Some?)
  {
  }

  /** One frame that carries no response for `c` leaves `c` pending on its own
      waiter, unsignalled, with its result and error entries as they were. */
  lemma OtherFrameLeavesCallAlone(r: RoutingState, table: map<string, seq<Handler>>, frame: string, parse: FrameParser, c: int)
    requires SlotsInPool(r) && DistinctSlots(r.waiter)
    requires c in r.waiter && !r.signaled[r.waiter[c]]
    requires !RespondsTo(parse, frame, c)
    ensures var s := RouteFrame(r, table, frame, parse).routing;
      && c in s.waiter && s.waiter[c] == r.waiter[c] && !s.signaled[r.waiter[c]]
      && (c in s.results <==> c in r.results) && (c in r.results ==> s.results[c] == r.results[c])
      && (c in s.errors <==> c in r.errors) && (c in r.errors ==> s.errors[c] == r.errors[c])
      && DistinctSlots(s.waiter)
  {
  }

  /** Correlation isolation: while no two pending calls share a waiter, frames
      that carry no response for `c` leave `c` pending on its own waiter,
      unsignalled, and leave its result and error entries as they were. */
  lemma {:induction false} OthersLeavePendingCallAlone(r: RoutingState, table: map<string, seq<Handler>>, frames: seq<string>, parse: FrameParser, c: int)
    requires SlotsInPool(r) && DistinctSlots(r.waiter)
    requires c in r.waiter && !r.signaled[r.waiter[c]]
    requires forall k :: 0 <= k < |frames| ==> !RespondsTo(parse, frames[k], c)
    ensures var r' := RouteFrames(r, table, frames, parse);
      && c in r'.waiter && r'.waiter[c] == r.waiter[c] && !r'.signaled[r.waiter[c]]
      && (c in r'.results <==> c in r.results) && (c in r.results ==> r'.results[c] == r.results[c])
      && (c in r'.errors <==> c in r.errors) && (c in r.errors ==> r'.errors[c] == r.errors[c])
    decreases |frames|
  {
    if frames != [] {
      var step := RouteFrame(r, table, frames[0], parse);
      OtherFrameLeavesCallAlone(r, table, frames[0], parse, c);
      if step.ok {
        OthersLeavePendingCallAlone(step.routing, table, frames[1..], parse, c);
      }
    }
  }
}
