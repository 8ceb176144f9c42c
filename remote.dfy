/** NaoRemoteModule: the client side of a remote-call connection. A call
    takes the next call id and the next of 50 reusable waiters, sends a request
    and blocks on its waiter; the receive loop stores the response under the
    id and wakes the waiter; the caller then takes the result or the error.
    Subscribing to an event name that has no subscribers yet, and unsubscribing
    its last subscriber, make one such round trip while holding the lock on the
    handler table.

    The blocking rendezvous is split into explicit steps: a call is begun
    (id and waiter allocated, request appended to the log `sent` when
    the connection takes it), frames are
    received (`ReceiveChunk`), and the call is finished (`FinishEval`,
    `FinishRoundTrip`), which reports `Blocked` while its waiter is not signalled. */
module Remote {
  import opened Wrappers
  import opened Handlers
  import opened Routing
  import opened Frames
  import opened Codec

  /** Number of waiters in the pool. */
  const PoolSize: nat := 50

  /** A request as the module hands it to the JSON writer and the socket. */
  datatype Request =
    | EvalRequest(id: nat, moduleName: string, post: string, methodName: string, args: string)
    | SubscribeRequest(id: nat, eventName: string)
    | UnsubscribeRequest(id: nat, eventName: string)

  /** What a blocked caller holds on to: its call id and the pool slot of its waiter. */
  datatype Ticket = Ticket(id: nat, slot: nat)

  /** How `Eval<T>` ends once its waiter is signalled, or `Blocked` before. */
  datatype EvalOutcome<V> =
    | Blocked
    | Returned(value: Option<V>)
    | DecodeError(fault: DecodeFault)
    | RemoteError(message: string)
    | MissingEntry

  /** A subscribe or unsubscribe round trip in progress; while there is one,
      its caller holds the lock on the handler table. */
  datatype RoundTrip =
    | SubscribeTrip(eventName: string, action: Handler, ticket: Ticket)
    | UnsubscribeTrip(eventName: string, ticket: Ticket)

  /** What SubscribeToEvent or UnsubscribeToEvent did at once. */
  datatype TableChange =
    | LockBusy | Unchanged | Changed | AwaitingAck(id: nat)
    /** The request could not be written after call `id` was allocated: the
        exception leaves the lock, and the id stays bound to its waiter. */
    | SendFailed(id: nat)

  /** How a subscribe or unsubscribe round trip ends. `AckMissing` is the
      KeyNotFoundException of `_pendingResults[c]` when the peer answered with
      an error. */
  datatype AckOutcome = AckPending | Acknowledged | AckMissing

  /** What the environment does with a connection attempt: IPAddress.Parse
      and Socket.Connect are not part of this model. */
  datatype ConnectAttempt = Reachable | Unparsable | Unreachable

  /** FormatException from IPAddress.Parse, or the NaoRobotException that wraps
      a failed Socket.Connect. */
  datatype ConnectFault = BadAddress | TransportFailed

  /** `(x + 1) % 50`: the round-robin successor of a pool slot. */
  function NextSlot(i: nat): (j: nat)
    requires i < PoolSize
    ensures j < PoolSize
    ensures j == if i == PoolSize - 1 then 0 else i + 1
  {
    (i + 1) % PoolSize
  }

  /** What a success frame's "res" text gives the caller of `Eval<T>`: the
      literal "null" is `default(T)` without calling the decoder; any other
      text is decoded as a list and its element 0 is returned. */
  function TakeResult<V>(text: string, decode: ListDecoder<V>, zero: Option<V>): (o: EvalOutcome<V>)
    ensures o.Returned? || o.DecodeError?
    ensures text == "null" ==> o == Returned(zero)
    ensures text != "null" ==> (o.Returned? <==> decode(text).Some? && |decode(text).value| > 0)
    ensures text != "null" && o.Returned? ==> o.value == decode(text).value[0]
  {
    if text == "null" then Returned(zero)
    else
      match DecodeFirst(decode, text)
      case Success(v) => Returned(v)
      case Failure(f) => DecodeError(f)
  }

  class RemoteModule {
    /** `_active`: set by Connect, cleared by Disconnect. */
    var active: bool
    /** The socket is connected and the receive thread has been started and
        not aborted. `Socket.Send` throws otherwise: before the first Connect
        `_sender` is null, after a failed Connect it was never connected, and
        after Disconnect it is disconnected. */
    var receiving: bool
    /** `_poolWaiter`: whether each of the 50 ManualResetEvents is signalled. */
    const poolWaiter: array<bool>
    var poolWaiterIndex: nat
    var callCounter: nat
    /** `_pendingWaiter`: call id to the pool slot of its waiter. */
    var pendingWaiter: map<int, nat>
    var pendingResults: map<int, string>
    var pendingErrors: map<int, string>
    /** `_eventHandlers`: event name to its subscribers, in registration order. */
    var eventHandlers: map<string, seq<Handler>>
    /** The handler-table lock, held over a subscribe/unsubscribe round trip. */
    var roundTrip: Option<RoundTrip>
    /** Every request written to the socket, in order. */
    var sent: seq<Request>
    /** Every call made to a subscriber, in order. */
    var invoked: seq<Invocation>

    ghost predicate Valid()
      reads this
    {
      && poolWaiter.Length == PoolSize
      && poolWaiterIndex == callCounter % PoolSize
      && (forall c :: c in pendingWaiter ==> 0 <= c < callCounter && pendingWaiter[c] == c % PoolSize)
      && (forall i :: 0 <= i < |sent| ==> sent[i].id < callCounter)
      && (forall i, j :: 0 <= i < j < |sent| ==> sent[i].id < sent[j].id)
      && TableValid(eventHandlers)
      && (roundTrip.Some? ==>
            && roundTrip.value.eventName !in eventHandlers
            && roundTrip.value.ticket.id < callCounter
            && roundTrip.value.ticket.slot < PoolSize)
      && (receiving ==> active)
    }

    /** The part of the state the receive loop reads and writes. */
    function View(): RoutingState
      reads this, poolWaiter
    {
      RoutingState(pendingWaiter, pendingResults, pendingErrors, poolWaiter[..], invoked)
    }

    constructor ()
      ensures Valid() && fresh(poolWaiter)
      ensures !active && !receiving
      ensures poolWaiterIndex == 0 && callCounter == 0
      ensures forall i :: 0 <= i < PoolSize ==> !poolWaiter[i]
      ensures pendingWaiter == map[] && pendingResults == map[] && pendingErrors == map[]
      ensures eventHandlers == map[] && roundTrip == None && sent == [] && invoked == []
    {
      var pool := new bool[PoolSize];
      for i := 0 to PoolSize
        invariant forall j :: 0 <= j < i ==> !pool[j]
      {
        pool[i] := false;
      }
      active, receiving := false, false;
      poolWaiter := pool;
      poolWaiterIndex, callCounter := 0, 0;
      pendingWaiter, pendingResults, pendingErrors := map[], map[], map[];
      eventHandlers, roundTrip := map[], None;
      sent, invoked := [], [];
    }

    /** Connect: a no-op success when already active. Otherwise the flag is
        set before the address is parsed, and stays set when parsing or the
        transport connect fails. */
    method Connect(attempt: ConnectAttempt) returns (r: Result<bool, ConnectFault>)
      requires Valid()
      modifies this
      ensures Valid()
      ensures old(active) ==> r == Success(true) && receiving == old(receiving)
      ensures !old(active) ==> active
      ensures !old(active) ==> receiving == (attempt == Reachable)
      ensures !old(active) && attempt == Reachable ==> r == Success(true)
      ensures !old(active) && attempt == Unparsable ==> r == Failure(BadAddress)
      ensures !old(active) && attempt == Unreachable ==> r == Failure(TransportFailed)
      ensures old(active) ==> active
      ensures poolWaiterIndex == old(poolWaiterIndex) && callCounter == old(callCounter)
      ensures pendingWaiter == old(pendingWaiter) && pendingResults == old(pendingResults) && pendingErrors == old(pendingErrors)
      ensures eventHandlers == old(eventHandlers) && roundTrip == old(roundTrip)
      ensures sent == old(sent) && invoked == old(invoked)
    {
      if active {
        return Success(true);
      }
      active := true;
      match attempt
      case Unparsable =>
        r := Failure(BadAddress);
      case Unreachable =>
        r := Failure(TransportFailed);
      case Reachable =>
        receiving := true;
        r := Success(true);
    }

    /** Disconnect: false when not active; otherwise clears the flag, stops
        the receive thread and returns true. */
    method Disconnect() returns (wasActive: bool)
      requires Valid()
      modifies this
      ensures Valid()
      ensures wasActive == old(active)
      ensures !active && !receiving
      ensures !old(active) ==> receiving == old(receiving)
      ensures poolWaiterIndex == old(poolWaiterIndex) && callCounter == old(callCounter)
      ensures pendingWaiter == old(pendingWaiter) && pendingResults == old(pendingResults) && pendingErrors == old(pendingErrors)
      ensures eventHandlers == old(eventHandlers) && roundTrip == old(roundTrip)
      ensures sent == old(sent) && invoked == old(invoked)
    {
      if !active {
        return false;
      }
      active, receiving := false, false;
      return true;
    }

    /** The critical section under `lock (_poolWaiter)`: the current counter
        is the new call id, the counter is incremented, the waiter at the pool
        index is bound to the id and the index advances round-robin. The id is
        fresh: above every id pending or already sent. */
    method AllocateCall() returns (t: Ticket)
      requires Valid()
      modifies this
      ensures Valid()
      ensures t.id == old(callCounter) && callCounter == old(callCounter) + 1
      ensures t.slot == old(poolWaiterIndex) && t.slot < PoolSize
      ensures poolWaiterIndex == NextSlot(old(poolWaiterIndex))
      ensures pendingWaiter == old(pendingWaiter)[t.id := t.slot]
      ensures t.id !in old(pendingWaiter)
      ensures forall i :: 0 <= i < |sent| ==> sent[i].id < t.id
      ensures active == old(active) && receiving == old(receiving)
      ensures pendingResults == old(pendingResults) && pendingErrors == old(pendingErrors)
      ensures eventHandlers == old(eventHandlers) && roundTrip == old(roundTrip)
      ensures sent == old(sent) && invoked == old(invoked)
    {
      t := Ticket(callCounter, poolWaiterIndex);
      callCounter := callCounter + 1;
      poolWaiterIndex := NextSlot(poolWaiterIndex);
      pendingWaiter := pendingWaiter[t.id := t.slot];
    }

    /** The first half of `Eval<T>`: allocate, then send
        `{type:"eval", id, modu, post:"1"/"0", meth, args}` where `args` is
        the JSON text of the argument array. `delivered` is what the JSON
        writer and the connected socket do with the request: false when
        `JsonMapper.ToJson` or `Send` throws. The request goes out only on an
        open connection that delivers it; otherwise the call throws (`!ok`)
        with its id and waiter allocated and nothing sent. */
    method BeginEval(moduleName: string, usePost: bool, methodName: string, argsJson: string, delivered: bool) returns (t: Ticket, ok: bool)
      requires Valid()
      modifies this
      ensures Valid()
      ensures t.id == old(callCounter) && callCounter == old(callCounter) + 1
      ensures t.slot == old(poolWaiterIndex) && t.slot < PoolSize
      ensures poolWaiterIndex == NextSlot(old(poolWaiterIndex))
      ensures pendingWaiter == old(pendingWaiter)[t.id := t.slot]
      ensures ok == (old(receiving) && delivered)
      ensures ok ==> sent == old(sent) + [EvalRequest(t.id, moduleName, if usePost then "1" else "0", methodName, argsJson)]
      ensures !ok ==> sent == old(sent)
      ensures active == old(active) && receiving == old(receiving)
      ensures pendingResults == old(pendingResults) && pendingErrors == old(pendingErrors)
      ensures eventHandlers == old(eventHandlers) && roundTrip == old(roundTrip) && invoked == old(invoked)
    {
      t := AllocateCall();
      ok := receiving && delivered;
      if ok {
        sent := sent + [EvalRequest(t.id, moduleName, if usePost then "1" else "0", methodName, argsJson)];
      }
    }

    /** The second half of `Eval<T>`: blocked until the waiter is signalled;
        then the waiter is reset and the result for the id, if present, is
        removed and converted; otherwise the error for the id is removed and
        raised; with neither, `_pendingErrors[c]` throws. */
    method FinishEval<V>(t: Ticket, decode: ListDecoder<V>, zero: Option<V>) returns (o: EvalOutcome<V>)
      requires Valid() && t.slot < PoolSize
      modifies this, poolWaiter
      ensures Valid()
      ensures !old(poolWaiter[t.slot]) ==> o == Blocked && poolWaiter[..] == old(poolWaiter[..])
      ensures old(poolWaiter[t.slot]) ==> poolWaiter[..] == old(poolWaiter[..])[t.slot := false]
      ensures !old(poolWaiter[t.slot]) || t.id !in (old(pendingResults).Keys + old(pendingErrors).Keys) ==>
        pendingResults == old(pendingResults) && pendingErrors == old(pendingErrors)
      ensures old(poolWaiter[t.slot]) && t.id in old(pendingResults) ==>
        && o == TakeResult(old(pendingResults)[t.id], decode, zero)
        && pendingResults == old(pendingResults) - {t.id}
        && pendingErrors == old(pendingErrors)
      ensures old(poolWaiter[t.slot]) && t.id !in old(pendingResults) && t.id in old(pendingErrors) ==>
        && o == RemoteError(old(pendingErrors)[t.id])
        && pendingErrors == old(pendingErrors) - {t.id}
        && pendingResults == old(pendingResults)
      ensures old(poolWaiter[t.slot]) && t.id !in old(pendingResults) && t.id !in old(pendingErrors) ==> o == MissingEntry
      ensures active == old(active) && receiving == old(receiving)
      ensures poolWaiterIndex == old(poolWaiterIndex) && callCounter == old(callCounter) && pendingWaiter == old(pendingWaiter)
      ensures eventHandlers == old(eventHandlers) && roundTrip == old(roundTrip)
      ensures sent == old(sent) && invoked == old(invoked)
    {
      if !poolWaiter[t.slot] {
        return Blocked;
      }
      poolWaiter[t.slot] := false;
      if t.id in pendingResults {
        var result := pendingResults[t.id];
        pendingResults := pendingResults - {t.id};
        o := TakeResult(result, decode, zero);
      } else if t.id in pendingErrors {
        var error := pendingErrors[t.id];
        pendingErrors := pendingErrors - {t.id};
        o := RemoteError(error);
      } else {
        o := MissingEntry;
      }
    }

    /** The round-trip block shared by SubscribeToEvent and
        UnsubscribeToEvent: allocate a call, send `{type:"subs"|"unsu", id,
        evt}`, and keep the handler-table lock until the acknowledgement.
        When the request cannot be written (`delivered` as in BeginEval, or
        no open connection), the exception releases the lock and the
        allocation stays. */
    method StartRoundTrip(name: string, subscribe: bool, action: Handler, delivered: bool) returns (t: Ticket, ok: bool)
      requires Valid() && roundTrip.None? && name !in eventHandlers
      modifies this
      ensures Valid()
      ensures t == Ticket(old(callCounter), old(poolWaiterIndex))
      ensures callCounter == old(callCounter) + 1 && poolWaiterIndex == NextSlot(old(poolWaiterIndex))
      ensures pendingWaiter == old(pendingWaiter)[t.id := t.slot]
      ensures ok == (old(receiving) && delivered)
      ensures ok ==> sent == old(sent) + [if subscribe then SubscribeRequest(t.id, name) else UnsubscribeRequest(t.id, name)]
      ensures ok ==> roundTrip == Some(if subscribe then SubscribeTrip(name, action, t) else UnsubscribeTrip(name, t))
      ensures !ok ==> sent == old(sent) && roundTrip == None
      ensures active == old(active) && receiving == old(receiving) && eventHandlers == old(eventHandlers)
      ensures pendingResults == old(pendingResults) && pendingErrors == old(pendingErrors) && invoked == old(invoked)
    {
      t := AllocateCall();
      ok := receiving && delivered;
      if !ok {
        return;
      }
      if subscribe {
        sent := sent + [SubscribeRequest(t.id, name)];
        roundTrip := Some(SubscribeTrip(name, action, t));
      } else {
        sent := sent + [UnsubscribeRequest(t.id, name)];
        roundTrip := Some(UnsubscribeTrip(name, t));
      }
    }

    /** SubscribeToEvent. With the handler-table lock taken by a round trip in
        progress, the call has to wait (`LockBusy`). For a name already in the
        table the handler is appended unless present, and nothing is sent. For
        a new name one `{type:"subs", id, evt}` request is sent with a fresh id
        and the lock stays held until the acknowledgement is taken; when it
        cannot be sent, the call throws with the id allocated and the table
        as it was. */
    method Subscribe(name: string, action: Handler, delivered: bool) returns (o: TableChange)
      requires Valid()
      modifies this
      ensures Valid()
      ensures old(roundTrip).Some? ==>
        && o == LockBusy
        && eventHandlers == old(eventHandlers) && roundTrip == old(roundTrip) && sent == old(sent)
        && callCounter == old(callCounter) && pendingWaiter == old(pendingWaiter)
      ensures old(roundTrip).None? && name in old(eventHandlers) ==>
        && eventHandlers == old(eventHandlers)[name := AddHandler(old(eventHandlers)[name], action)]
        && o == (if action in old(eventHandlers)[name] then Unchanged else Changed)
        && roundTrip == None && sent == old(sent)
        && callCounter == old(callCounter) && pendingWaiter == old(pendingWaiter)
      ensures old(roundTrip).None? && name !in old(eventHandlers) ==>
        && eventHandlers == old(eventHandlers)
        && callCounter == old(callCounter) + 1
        && pendingWaiter == old(pendingWaiter)[old(callCounter) := old(poolWaiterIndex)]
      ensures old(roundTrip).None? && name !in old(eventHandlers) && old(receiving) && delivered ==>
        && o == AwaitingAck(old(callCounter))
        && sent == old(sent) + [SubscribeRequest(old(callCounter), name)]
        && roundTrip == Some(SubscribeTrip(name, action, Ticket(old(callCounter), old(poolWaiterIndex))))
      ensures old(roundTrip).None? && name !in old(eventHandlers) && !(old(receiving) && delivered) ==>
        o == SendFailed(old(callCounter)) && sent == old(sent) && roundTrip == None
      ensures !(o.AwaitingAck? || o.SendFailed?) ==> poolWaiterIndex == old(poolWaiterIndex)
      ensures o.AwaitingAck? || o.SendFailed? ==> poolWaiterIndex == NextSlot(old(poolWaiterIndex))
      ensures active == old(active) && receiving == old(receiving)
      ensures pendingResults == old(pendingResults) && pendingErrors == old(pendingErrors) && invoked == old(invoked)
    {
      if roundTrip.Some? {
        return LockBusy;
      }
      if name in eventHandlers {
        var actions := eventHandlers[name];
        o := if action in actions then Unchanged else Changed;
        eventHandlers := eventHandlers[name := AddHandler(actions, action)];
      } else {
        var t, ok := StartRoundTrip(name, true, action, delivered);
        o := if ok then AwaitingAck(t.id) else SendFailed(t.id);
      }
    }

    /** UnsubscribeToEvent. An absent name or an unregistered handler changes
        nothing and sends nothing. Removing a handler that is not the last one
        only shortens the list. Removing the last one drops the table entry,
        sends one `{type:"unsu", id, evt}` request with a fresh id and keeps
        the lock until the acknowledgement is taken; when the request cannot
        be sent, the call throws after the entry was dropped and the id
        allocated. */
    method Unsubscribe(name: string, action: Handler, delivered: bool) returns (o: TableChange)
      requires Valid()
      modifies this
      ensures Valid()
      ensures old(roundTrip).Some? ==>
        && o == LockBusy
        && eventHandlers == old(eventHandlers) && roundTrip == old(roundTrip) && sent == old(sent)
        && callCounter == old(callCounter) && pendingWaiter == old(pendingWaiter)
      ensures old(roundTrip).None? && (name !in old(eventHandlers) || action !in old(eventHandlers)[name]) ==>
        && o == Unchanged
        && eventHandlers == old(eventHandlers) && roundTrip == None && sent == old(sent)
        && callCounter == old(callCounter) && pendingWaiter == old(pendingWaiter)
      ensures old(roundTrip).None? && name in old(eventHandlers) && action in old(eventHandlers)[name]
              && old(eventHandlers)[name] != [action] ==>
        && o == Changed
        && eventHandlers == old(eventHandlers)[name := RemoveHandler(old(eventHandlers)[name], action)]
        && roundTrip == None && sent == old(sent)
        && callCounter == old(callCounter) && pendingWaiter == old(pendingWaiter)
      ensures old(roundTrip).None? && name in old(eventHandlers) && old(eventHandlers)[name] == [action] ==>
        && eventHandlers == old(eventHandlers) - {name}
        && callCounter == old(callCounter) + 1
        && pendingWaiter == old(pendingWaiter)[old(callCounter) := old(poolWaiterIndex)]
      ensures old(roundTrip).None? && name in old(eventHandlers) && old(eventHandlers)[name] == [action]
              && old(receiving) && delivered ==>
        && o == AwaitingAck(old(callCounter))
        && sent == old(sent) + [UnsubscribeRequest(old(callCounter), name)]
        && roundTrip == Some(UnsubscribeTrip(name, Ticket(old(callCounter), old(poolWaiterIndex))))
      ensures old(roundTrip).None? && name in old(eventHandlers) && old(eventHandlers)[name] == [action]
              && !(old(receiving) && delivered) ==>
        o == SendFailed(old(callCounter)) && sent == old(sent) && roundTrip == None
      ensures !(o.AwaitingAck? || o.SendFailed?) ==> poolWaiterIndex == old(poolWaiterIndex)
      ensures o.AwaitingAck? || o.SendFailed? ==> poolWaiterIndex == NextSlot(old(poolWaiterIndex))
      ensures active == old(active) && receiving == old(receiving)
      ensures pendingResults == old(pendingResults) && pendingErrors == old(pendingErrors) && invoked == old(invoked)
    {
      if roundTrip.Some? {
        return LockBusy;
      }
      if name !in eventHandlers || action !in eventHandlers[name] {
        return Unchanged;
      }
      var actions := eventHandlers[name];
      var rest := RemoveHandler(actions, action);
      RemoveHandlerDistinct(actions, action);
      RemoveLast(actions, action);
      if rest != [] {
        assert TableValid(eventHandlers[name := rest]);
        eventHandlers := eventHandlers[name := rest];
        o := Changed;
      } else {
        assert actions == [action];
        assert TableValid(eventHandlers - {name});
        eventHandlers := eventHandlers - {name};
        var t, ok := StartRoundTrip(name, false, action, delivered);
        o := if ok then AwaitingAck(t.id) else SendFailed(t.id);
      }
    }

    /** The end of a subscribe or unsubscribe round trip: blocked until the
        waiter is signalled; then the waiter is reset and the acknowledgement
        is removed from the results. A subscription then registers the table
        entry [action]. If the peer answered with an error, `_pendingResults[c]`
        throws: nothing is registered and the error entry stays. Either way
        the lock is released. */
    method FinishRoundTrip() returns (o: AckOutcome)
      requires Valid() && roundTrip.Some?
      modifies this, poolWaiter
      ensures Valid()
      ensures var t := old(roundTrip).value.ticket;
        && (!old(poolWaiter[t.slot]) ==>
              o == AckPending && roundTrip == old(roundTrip) && poolWaiter[..] == old(poolWaiter[..])
              && pendingResults == old(pendingResults) && eventHandlers == old(eventHandlers))
        && (old(poolWaiter[t.slot]) ==>
              roundTrip == None && poolWaiter[..] == old(poolWaiter[..])[t.slot := false])
        && (old(poolWaiter[t.slot]) && t.id in old(pendingResults) ==>
              && o == Acknowledged
              && pendingResults == old(pendingResults) - {t.id}
              && eventHandlers == match old(roundTrip).value
                                  case SubscribeTrip(name, action, _) => old(eventHandlers)[name := [action]]
                                  case UnsubscribeTrip(_, _) => old(eventHandlers))
        && (old(poolWaiter[t.slot]) && t.id !in old(pendingResults) ==>
              o == AckMissing && pendingResults == old(pendingResults) && eventHandlers == old(eventHandlers))
      ensures active == old(active) && receiving == old(receiving)
      ensures poolWaiterIndex == old(poolWaiterIndex) && callCounter == old(callCounter) && pendingWaiter == old(pendingWaiter)
      ensures pendingErrors == old(pendingErrors) && sent == old(sent) && invoked == old(invoked)
    {
      var trip := roundTrip.value;
      var t := trip.ticket;
      if !poolWaiter[t.slot] {
        return AckPending;
      }
      poolWaiter[t.slot] := false;
      roundTrip := None;
      if t.id !in pendingResults {
        return AckMissing;
      }
      pendingResults := pendingResults - {t.id};
      if trip.SubscribeTrip? {
        eventHandlers := eventHandlers[trip.eventName := [trip.action]];
      }
      o := Acknowledged;
    }

    /** One iteration of SockLoop: while the receive thread runs, one read of
        at most 1024 bytes is decoded, split into frames, and the frames are
        routed in order until one throws. */
    method ReceiveChunk(bytes: seq<byte>, parse: FrameParser) returns (ran: bool)
      requires Valid() && |bytes| <= ReceiveBufferSize
      modifies this, poolWaiter
      ensures Valid()
      ensures ran == old(receiving)
      ensures !ran ==> (poolWaiter[..] == old(poolWaiter[..]) && pendingWaiter == old(pendingWaiter)
        && pendingResults == old(pendingResults) && pendingErrors == old(pendingErrors) && invoked == old(invoked))
      ensures ran ==> old(SlotsInPool(View())) && View() == RouteFrames(old(View()), old(eventHandlers), SplitFrames(AsciiDecode(bytes)), parse)
      ensures active == old(active) && receiving == old(receiving)
      ensures poolWaiterIndex == old(poolWaiterIndex) && callCounter == old(callCounter)
      ensures eventHandlers == old(eventHandlers) && roundTrip == old(roundTrip) && sent == old(sent)
    {
      if !receiving {
        return false;
      }
      ran := true;
      var frames := SplitFrames(AsciiDecode(bytes));
      ghost var table := eventHandlers;
      ghost var start := View();
      ghost var target := RouteFrames(start, table, frames, parse);
      var i := 0;
      while i < |frames|
        invariant 0 <= i <= |frames|
        invariant Valid() && SlotsInPool(View())
        invariant RouteFrames(View(), table, frames[i..], parse) == target
        invariant active == old(active) && receiving == old(receiving)
        invariant poolWaiterIndex == old(poolWaiterIndex) && callCounter == old(callCounter)
        invariant eventHandlers == table && roundTrip == old(roundTrip) && sent == old(sent)
      {
        var ok := HandleFrame(frames[i], parse);
        assert frames[i..][0] == frames[i] && frames[i..][1..] == frames[i + 1..];
        if !ok {
          assert View() == target;
          return;
        }
        i := i + 1;
      }
    }

    /** The body of the frame loop for one frame. */
    method HandleFrame(frame: string, parse: FrameParser) returns (ok: bool)
      requires Valid() && SlotsInPool(View())
      modifies this, poolWaiter
      ensures Valid() && SlotsInPool(View())
      ensures Step(View(), ok) == RouteFrame(old(View()), eventHandlers, frame, parse)
      ensures active == old(active) && receiving == old(receiving)
      ensures poolWaiterIndex == old(poolWaiterIndex) && callCounter == old(callCounter)
      ensures eventHandlers == old(eventHandlers) && roundTrip == old(roundTrip) && sent == old(sent)
    {
      var parsed := parse(frame);
      if parsed.None? {
        return false;
      }
      var obj := parsed.value;
      var kind := TextField(obj, "type");
      if kind.None? {
        return false;
      }
      if kind.value == "resu" {
        ok := HandleResponse(obj);
      } else if kind.value == "evnt" {
        ok := HandleEvent(obj);
      } else {
        ok := true;
      }
    }

    /** A "resu" frame. */
    method HandleResponse(obj: FrameObject) returns (ok: bool)
      requires Valid() && SlotsInPool(View())
      modifies this, poolWaiter
      ensures Valid() && SlotsInPool(View())
      ensures Step(View(), ok) == RouteResponse(old(View()), obj)
      ensures active == old(active) && receiving == old(receiving)
      ensures poolWaiterIndex == old(poolWaiterIndex) && callCounter == old(callCounter)
      ensures eventHandlers == old(eventHandlers) && roundTrip == old(roundTrip) && sent == old(sent)
    {
      var id := IntField(obj, "id");
      if id.None? {
        return false;
      }
      var c := id.value as int;
      var stat := TextField(obj, "stat");
      if stat.None? {
        return false;
      }
      if stat.value == "1" {
        var res := TextField(obj, "res");
        if res.None? {
          return false;
        }
        pendingResults := pendingResults[c := res.value];
      } else {
        var err := TextField(obj, "err");
        if err.None? {
          return false;
        }
        pendingErrors := pendingErrors[c := err.value];
      }
      ok := Wake(c);
    }

    /** `_pendingWaiter[c].Set(); _pendingWaiter.Remove(c);` */
    method Wake(c: int) returns (ok: bool)
      requires Valid() && SlotsInPool(View())
      modifies this, poolWaiter
      ensures Valid() && SlotsInPool(View())
      ensures Step(View(), ok) == Resolve(old(View()), c)
      ensures active == old(active) && receiving == old(receiving)
      ensures poolWaiterIndex == old(poolWaiterIndex) && callCounter == old(callCounter)
      ensures eventHandlers == old(eventHandlers) && roundTrip == old(roundTrip) && sent == old(sent)
    {
      if c !in pendingWaiter {
        return false;
      }
      poolWaiter[pendingWaiter[c]] := true;
      pendingWaiter := pendingWaiter - {c};
      return true;
    }

    /** An "evnt" frame: the subscribers of its name are called one by one. */
    method HandleEvent(obj: FrameObject) returns (ok: bool)
      requires Valid() && SlotsInPool(View())
      modifies this
      ensures Valid() && SlotsInPool(View())
      ensures Step(View(), ok) == RouteEvent(old(View()), eventHandlers, obj)
      ensures active == old(active) && receiving == old(receiving)
      ensures poolWaiterIndex == old(poolWaiterIndex) && callCounter == old(callCounter)
      ensures eventHandlers == old(eventHandlers) && roundTrip == old(roundTrip) && sent == old(sent)
    {
      var name := TextField(obj, "name");
      if name.None? {
        return false;
      }
      var payload := TextField(obj, "val");
      if payload.None? {
        return false;
      }
      if name.value in eventHandlers {
        var actions := eventHandlers[name.value];
        var calls := [];
        for j := 0 to |actions|
          invariant |calls| == j
          invariant forall k :: 0 <= k < j ==> calls[k] == Invocation(actions[k], name.value, payload.value)
        {
          calls := calls + [Invocation(actions[j], name.value, payload.value)];
        }
        assert calls == FanOut(actions, name.value, payload.value);
        invoked := invoked + calls;
      }
      return true;
    }
  }

  /** Every pending call waits on the pool slot of its id modulo 50, however
      many earlier calls have finished: two pending calls share a waiter
      exactly when their ids differ by a multiple of 50. */
  lemma SharedWaiterIffCongruent(m: RemoteModule)
    requires m.Valid()
    ensures DistinctSlots(m.pendingWaiter) <==>
      forall c, d :: c in m.pendingWaiter && d in m.pendingWaiter && c != d ==> c % PoolSize != d % PoolSize
  {
  }

  /** Two pending calls can share a waiter: call 0 stays pending while calls
      1 to 49 are answered, and call 50 then gets call 0's waiter. */
  method SharedWaiterReachable() returns (m: RemoteModule)
    ensures m.Valid() && m.pendingWaiter == map[0 := 0, 50 := 0]
    ensures !DistinctSlots(m.pendingWaiter)
  {
    m := new RemoteModule();
    var first := m.AllocateCall();
    var i := 1;
    while i < PoolSize
      invariant 1 <= i <= PoolSize
      invariant fresh(m) && fresh(m.poolWaiter)
      invariant m.Valid() && m.callCounter == i && m.pendingWaiter == map[0 := 0]
    {
      var t := m.AllocateCall();
      var ok := m.Wake(t.id);
      i := i + 1;
    }
    var last := m.AllocateCall();
    assert m.pendingWaiter[0] == m.pendingWaiter[50];
  }
}
