/**
  Message routing between a receiver application and its senders. Channels are heap objects that
  delete themselves when their session closes; the heap is explicit, so that every use of an
  object has to be shown to come before its deletion. Addresses may be used again.
 */
module Channels {
  import opened Bytes

  type Id = string
  /** An address. */
  type Ref = nat

  /** The receiver's wildcard: every sender. */
  const EVERYONE: Id := "*:*"

  /** What a receiver channel is told. */
  datatype Notice = SenderConnected(id: Id) | SenderDisconnected(id: Id) | Message(id: Id, data: Text)

  /**
    A channel and what has been sent on its session. A session that is not open any more is
    closing; when it has closed, the channel is deleted.
   */
  datatype Channel =
    | SenderChannel(senderId: Id, receiver: Option<Ref>, open: bool, heard: seq<Text>)
    | ReceiverChannel(channelId: Id, senders: map<Id, Ref>, told: seq<Notice>)

  type Store = map<Ref, Channel>

  datatype State = State(store: Store, receivers: map<Id, Ref>)

  /** What can happen. A new channel is allocated at an address not in use. */
  datatype Event =
    | ReceiverConnects(channelId: Id, at: Ref)
    | SenderConnects(channelId: Id, senderId: Id, at: Ref)
    | Closes(at: Ref)
    | SenderSays(at: Ref, data: Text)
    | ReceiverSays(at: Ref, to: Id, data: Text)

  /** The transport and the allocator keep to this. */
  predicate Possible(s: State, e: Event)
  {
    match e
    case ReceiverConnects(_, at) => at !in s.store
    case SenderConnects(_, _, at) => at !in s.store
    case Closes(at) => at in s.store
    case SenderSays(at, _) => at in s.store && s.store[at].SenderChannel?
    case ReceiverSays(at, _, _) => at in s.store && s.store[at].ReceiverChannel?
  }

  predicate IsSender(store: Store, r: Ref) { r in store && store[r].SenderChannel? }

  predicate IsReceiver(store: Store, r: Ref) { r in store && store[r].ReceiverChannel? }

  // ---------------------------------------------------------------- what each event does

  function Tell(store: Store, r: Ref, n: Notice): Store
    requires IsReceiver(store, r)
  {
    store[r := store[r].(told := store[r].told + [n])]
  }

  function Joined(store: Store, r: Ref, id: Id, x: Ref): Store
    requires IsReceiver(store, r)
  {
    store[r := store[r].(senders := store[r].senders[id := x])]
  }

  function Left(store: Store, r: Ref, id: Id): Store
    requires IsReceiver(store, r)
  {
    store[r := store[r].(senders := store[r].senders - {id})]
  }

  function Hear(c: Channel, data: Text): Channel
  {
    if c.SenderChannel? then c.(heard := c.heard + [data]) else c
  }

  /** The sender's session is closing and the sender has forgotten its receiver. */
  function Shut(c: Channel): Channel
  {
    if c.SenderChannel? then c.(receiver := None, open := false) else c
  }

  function AllHear(store: Store, who: set<Ref>, data: Text): Store
  {
    map r | r in store :: if r in who then Hear(store[r], data) else store[r]
  }

  function AllShut(store: Store, who: set<Ref>): Store
  {
    map r | r in store :: if r in who then Shut(store[r]) else store[r]
  }

  /** The state after an event, or None where a null or deleted object would be used. */
  function Step(s: State, e: Event): Option<State>
  {
    match e
    case ReceiverConnects(c, at) =>
      if c in s.receivers then Some(s)
      else Some(State(s.store[at := ReceiverChannel(c, map[], [])], s.receivers[c := at]))
    case SenderConnects(c, id, at) =>
      if c !in s.receivers then Some(s)
      else
        var r := s.receivers[c];
        if !IsReceiver(s.store, r) || r == at then None
        else if id in s.store[r].senders then Some(s)
        else
          var added := Joined(s.store[at := SenderChannel(id, Some(r), true, [])], r, id, at);
          Some(s.(store := Tell(added, r, SenderConnected(id))))
    case Closes(at) =>
      if at !in s.store then None
      else if s.store[at].SenderChannel? then SenderCloses(s, at)
      else ReceiverCloses(s, at)
    case SenderSays(at, data) =>
      if !IsSender(s.store, at) || s.store[at].receiver == None then None
      else
        var r := s.store[at].receiver.value;
        if !IsReceiver(s.store, r) then None
        else Some(s.(store := Tell(s.store, r, Message(s.store[at].senderId, data))))
    case ReceiverSays(at, to, data) =>
      if !IsReceiver(s.store, at) then None
      else
        var senders := s.store[at].senders;
        var who := if to == EVERYONE then senders.Values else if to in senders then {senders[to]} else {};
        if forall x :: x in who ==> IsSender(s.store, x) then Some(s.(store := AllHear(s.store, who, data))) else None
  }

  function SenderCloses(s: State, at: Ref): Option<State>
    requires IsSender(s.store, at)
  {
    match s.store[at].receiver
    case None => Some(s.(store := s.store - {at}))
    case Some(r) =>
      if !IsReceiver(s.store, r) then None
      else
        var id := s.store[at].senderId;
        var left := if id in s.store[r].senders then Left(Tell(s.store, r, SenderDisconnected(id)), r, id) else s.store;
        Some(s.(store := left - {at}))
  }

  function ReceiverCloses(s: State, at: Ref): Option<State>
    requires IsReceiver(s.store, at)
  {
    var who := s.store[at].senders.Values;
    if forall x :: x in who ==> IsSender(s.store, x) then
      Some(State(AllShut(s.store, who) - {at}, s.receivers - {s.store[at].channelId}))
    else None
  }

  // ---------------------------------------------------------------- the invariant

  /** What the receiver knows from its notices: who is connected, as long as they make sense. */
  function Mirror(told: seq<Notice>): Option<set<Id>>
  {
    if told == [] then Some({})
    else
      var n := told[|told| - 1];
      match Mirror(told[..|told| - 1])
      case None => None
      case Some(known) =>
        match n
        case SenderConnected(id) => if id in known then None else Some(known + {id})
        case SenderDisconnected(id) => if id in known then Some(known - {id}) else None
        case Message(id, _) => if id in known then Some(known) else None
  }

  /** Registered under its own id, and each of its senders points back at it. */
  predicate ReceiverSound(s: State, r: Ref)
    requires IsReceiver(s.store, r)
  {
    && s.store[r].channelId in s.receivers && s.receivers[s.store[r].channelId] == r
    && (forall id :: id in s.store[r].senders ==> BackPointer(s.store, r, id, s.store[r].senders[id]))
    && Mirror(s.store[r].told) == Some(s.store[r].senders.Keys)
  }

  predicate BackPointer(store: Store, r: Ref, id: Id, x: Ref)
  {
    IsSender(store, x) && store[x].senderId == id && store[x].receiver == Some(r)
  }

  /** Open while it has a receiver, which is live and lists it; no receiver while it is closing. */
  predicate SenderSound(store: Store, x: Ref)
    requires IsSender(store, x)
  {
    && (store[x].open <==> store[x].receiver.Some?)
    && (store[x].receiver.Some? ==> ListedBy(store, store[x].receiver.value, store[x].senderId, x))
  }

  predicate ListedBy(store: Store, r: Ref, id: Id, x: Ref)
  {
    IsReceiver(store, r) && id in store[r].senders && store[r].senders[id] == x
  }

  predicate ChannelSound(s: State, r: Ref)
    requires r in s.store
  {
    if s.store[r].ReceiverChannel? then ReceiverSound(s, r) else SenderSound(s.store, r)
  }

  predicate Registered(s: State, c: Id)
    requires c in s.receivers
  {
    IsReceiver(s.store, s.receivers[c]) && s.store[s.receivers[c]].channelId == c
  }

  predicate Sound(s: State)
  {
    && (forall c :: c in s.receivers ==> Registered(s, c))
    && (forall r :: r in s.store ==> ChannelSound(s, r))
  }

  lemma MirrorGrows(told: seq<Notice>, n: Notice)
    requires Mirror(told).Some?
    ensures var known := Mirror(told).value;
            && (n.SenderConnected? && n.id !in known ==> Mirror(told + [n]) == Some(known + {n.id}))
            && (n.SenderDisconnected? && n.id in known ==> Mirror(told + [n]) == Some(known - {n.id}))
            && (n.Message? && n.id in known ==> Mirror(told + [n]) == Some(known))
  {
    assert (told + [n])[..|told|] == told;
  }

  lemma ReceiverConnectsIsSafe(s: State, c: Id, at: Ref)
    requires Sound(s) && at !in s.store && c !in s.receivers
    ensures Sound(Step(s, ReceiverConnects(c, at)).value)
  {
    var t := Step(s, ReceiverConnects(c, at)).value;
    assert t.store[at].senders.Keys == {};
    forall r | r in t.store
      ensures ChannelSound(t, r)
    {
      assert r != at ==> ChannelSound(s, r);
    }
  }

  lemma SenderConnectsIsSafe(s: State, c: Id, id: Id, at: Ref)
    requires Sound(s) && at !in s.store
    ensures Step(s, SenderConnects(c, id, at)).Some?
    ensures Sound(Step(s, SenderConnects(c, id, at)).value)
  {
    hide Mirror;
    if c in s.receivers {
      assert Registered(s, c);
      var r := s.receivers[c];
      assert ChannelSound(s, r);
      if id !in s.store[r].senders {
        var t := Step(s, SenderConnects(c, id, at)).value;
        forall x | x in t.store
          ensures ChannelSound(t, x)
        {
          JoiningIsSafe(s, r, id, at, t, x);
        }
      }
    }
  }

  lemma JoiningIsSafe(s: State, r: Ref, id: Id, at: Ref, t: State, x: Ref)
    requires Sound(s) && at !in s.store && IsReceiver(s.store, r) && id !in s.store[r].senders
    requires t.receivers == s.receivers && t.store.Keys == s.store.Keys + {at}
    requires t.store[at] == SenderChannel(id, Some(r), true, [])
    requires t.store[r] == s.store[r].(senders := s.store[r].senders[id := at],
                                       told := s.store[r].told + [SenderConnected(id)])
    requires forall y :: y in s.store && y != r ==> t.store[y] == s.store[y]
    requires x in t.store
    ensures ChannelSound(t, x)
  {
    assert ChannelSound(s, r);
    if x == r {
      MirrorGrows(s.store[r].told, SenderConnected(id));
      assert t.store[r].senders.Keys == s.store[r].senders.Keys + {id};
    } else if x != at {
      assert ChannelSound(s, x);
    }
  }

  lemma SenderSaysIsSafe(s: State, at: Ref, data: Text)
    requires Sound(s) && IsSender(s.store, at) && s.store[at].open
    ensures Step(s, SenderSays(at, data)).Some?
    ensures Sound(Step(s, SenderSays(at, data)).value)
  {
    assert ChannelSound(s, at);
    var r := s.store[at].receiver.value;
    assert ChannelSound(s, r);
    var t := Step(s, SenderSays(at, data)).value;
    MirrorGrows(s.store[r].told, Message(s.store[at].senderId, data));
    forall x | x in t.store
      ensures ChannelSound(t, x)
    {
      assert ChannelSound(s, x);
    }
  }

  lemma ReceiverSaysIsSafe(s: State, at: Ref, to: Id, data: Text)
    requires Sound(s) && IsReceiver(s.store, at)
    ensures Step(s, ReceiverSays(at, to, data)).Some?
    ensures Sound(Step(s, ReceiverSays(at, to, data)).value)
  {
    hide Mirror;
    assert ChannelSound(s, at);
    var t := Step(s, ReceiverSays(at, to, data)).value;
    forall x | x in t.store
      ensures ChannelSound(t, x)
    {
      assert ChannelSound(s, x);
    }
  }

  lemma SenderClosesIsSafe(s: State, at: Ref)
    requires Sound(s) && IsSender(s.store, at)
    ensures Step(s, Closes(at)).Some?
    ensures Sound(Step(s, Closes(at)).value)
  {
    hide Mirror;
    assert ChannelSound(s, at);
    var t := Step(s, Closes(at)).value;
    forall x | x in t.store
      ensures ChannelSound(t, x)
    {
      if s.store[at].receiver.Some? {
        LeavingIsSafe(s, s.store[at].receiver.value, at, t, x);
      } else {
        assert ChannelSound(s, x);
      }
    }
    assert forall c :: c in s.receivers ==> Registered(s, c);
  }

  lemma LeavingIsSafe(s: State, r: Ref, at: Ref, t: State, x: Ref)
    requires Sound(s) && IsSender(s.store, at) && s.store[at].receiver == Some(r) && IsReceiver(s.store, r)
    requires t.receivers == s.receivers && t.store.Keys == s.store.Keys - {at}
    requires t.store[r] == s.store[r].(senders := s.store[r].senders - {s.store[at].senderId},
                                       told := s.store[r].told + [SenderDisconnected(s.store[at].senderId)])
    requires forall y :: y in t.store && y != r ==> t.store[y] == s.store[y]
    requires x in t.store
    ensures ChannelSound(t, x)
  {
    assert ChannelSound(s, r) && ChannelSound(s, at) && ChannelSound(s, x);
    if x == r {
      var id := s.store[at].senderId;
      MirrorGrows(s.store[r].told, SenderDisconnected(id));
      assert t.store[r].senders.Keys == s.store[r].senders.Keys - {id};
    }
  }

  lemma ReceiverClosesIsSafe(s: State, at: Ref)
    requires Sound(s) && IsReceiver(s.store, at)
    ensures Step(s, Closes(at)).Some?
    ensures Sound(Step(s, Closes(at)).value)
  {
    hide Mirror;
    assert ChannelSound(s, at);
    var t := Step(s, Closes(at)).value;
    forall x | x in t.store
      ensures ChannelSound(t, x)
    {
      OrphanedIsSafe(s, at, t, x);
    }
    forall c | c in t.receivers
      ensures Registered(t, c)
    {
      StillRegistered(s, at, t, c);
    }
  }

  lemma OrphanedIsSafe(s: State, at: Ref, t: State, x: Ref)
    requires Sound(s) && IsReceiver(s.store, at)
    requires t == State(AllShut(s.store, s.store[at].senders.Values) - {at}, s.receivers - {s.store[at].channelId})
    requires x in t.store
    ensures ChannelSound(t, x)
  {
    hide Mirror;
    assert ChannelSound(s, at) && ChannelSound(s, x);
    if s.store[x].ReceiverChannel? {
      forall id | id in s.store[x].senders
        ensures BackPointer(t.store, x, id, s.store[x].senders[id])
      {
        assert BackPointer(s.store, x, id, s.store[x].senders[id]);
      }
    }
  }

  lemma StillRegistered(s: State, at: Ref, t: State, c: Id)
    requires Sound(s) && IsReceiver(s.store, at)
    requires t == State(AllShut(s.store, s.store[at].senders.Values) - {at}, s.receivers - {s.store[at].channelId})
    requires c in t.receivers
    ensures Registered(t, c)
  {
    hide Mirror;
    assert ChannelSound(s, at) && Registered(s, c);
  }

  /**
    From a sound state, an event uses a null or deleted object exactly when it is a message on the
    session of a sender that is closing; and otherwise the state stays sound.
   */
  lemma StepIsSafe(s: State, e: Event)
    requires Sound(s) && Possible(s, e)
    ensures Step(s, e) == None <==> e.SenderSays? && !s.store[e.at].open
    ensures Step(s, e).Some? ==> Sound(Step(s, e).value)
  {
    match e
    case ReceiverConnects(c, at) =>
      if c !in s.receivers {
        ReceiverConnectsIsSafe(s, c, at);
      }
    case SenderConnects(c, id, at) => SenderConnectsIsSafe(s, c, id, at);
    case Closes(at) =>
      if s.store[at].SenderChannel? {
        SenderClosesIsSafe(s, at);
      } else {
        ReceiverClosesIsSafe(s, at);
      }
    case SenderSays(at, data) =>
      assert ChannelSound(s, at);
      if s.store[at].open {
        SenderSaysIsSafe(s, at, data);
      }
    case ReceiverSays(at, to, data) => ReceiverSaysIsSafe(s, at, to, data);
  }

  // ---------------------------------------------------------------- the server

  class WebsocketServer {
    var store: Store
    var receivers: map<Id, Ref>

    function AsState(): State
      reads this
    {
      State(store, receivers)
    }

    ghost predicate Valid()
      reads this
    {
      Sound(AsState())
    }

    constructor ()
      ensures Valid() && AsState() == State(map[], map[])
    {
      store, receivers := map[], map[];
    }

    method OnReceiverConnected(channelId: Id, at: Ref) returns (added: bool)
      requires Valid() && at !in store
      modifies this
      ensures Valid() && Step(old(AsState()), ReceiverConnects(channelId, at)) == Some(AsState())
      ensures added <==> channelId !in old(receivers)
    {
      StepIsSafe(AsState(), ReceiverConnects(channelId, at));
      added := channelId !in receivers;
      if added {
        store := store[at := ReceiverChannel(channelId, map[], [])];
        receivers := receivers[channelId := at];
      }
    }

    /** A session that is refused is closed. */
    method OnSenderConnected(channelId: Id, senderId: Id, at: Ref) returns (refused: bool)
      requires Valid() && at !in store
      modifies this`store
      ensures refused <==> channelId !in receivers || Lists(old(store)[receivers[channelId]], senderId)
      ensures Valid() && Step(old(AsState()), SenderConnects(channelId, senderId, at)) == Some(AsState())
    {
      StepIsSafe(AsState(), SenderConnects(channelId, senderId, at));
      refused := true;
      if channelId in receivers {
        var added := AddSenderChannel(receivers[channelId], senderId, at);
        refused := !added;
      }
    }

    /** The map entry for an id, found by walking through the map. */
    method GetSenderChannel(r: Ref, senderId: Id) returns (x: Option<Ref>)
      requires IsReceiver(store, r)
      ensures x == if senderId in store[r].senders then Some(store[r].senders[senderId]) else None
    {
      var senders := store[r].senders;
      var rest := senders.Keys;
      while rest != {}
        invariant rest <= senders.Keys
        invariant senderId in senders ==> senderId in rest
      {
        var id :| id in rest;
        if id == senderId {
          return Some(senders[id]);
        }
        rest := rest - {id};
      }
      x := None;
    }

    method AddSenderChannel(r: Ref, senderId: Id, at: Ref) returns (added: bool)
      requires IsReceiver(store, r) && at !in store
      modifies this`store
      ensures added <==> senderId !in old(store)[r].senders
      ensures store == if !added then old(store) else
                Tell(Joined(old(store)[at := SenderChannel(senderId, Some(r), true, [])], r, senderId, at),
                     r, SenderConnected(senderId))
    {
      var x := GetSenderChannel(r, senderId);
      added := x == None;
      if added {
        store := store[at := SenderChannel(senderId, Some(r), true, [])];
        store := Joined(store, r, senderId, at);
        store := Tell(store, r, SenderConnected(senderId));
      }
    }

    method RemoveSenderChannel(r: Ref, senderId: Id) returns (removed: bool)
      requires IsReceiver(store, r)
      modifies this`store
      ensures removed <==> senderId in old(store)[r].senders
      ensures store == if !removed then old(store) else
                Left(Tell(old(store), r, SenderDisconnected(senderId)), r, senderId)
    {
      var x := GetSenderChannel(r, senderId);
      removed := x != None;
      if removed {
        store := Tell(store, r, SenderDisconnected(senderId));
        store := Left(store, r, senderId);
      }
    }

    method RemoveReceiverChannel(channelId: Id)
      modifies this`receivers
      ensures receivers == old(receivers) - {channelId}
    {
      receivers := receivers - {channelId};
    }

    /** A session has closed: its channel leaves the graph and deletes itself. */
    method OnClose(at: Ref)
      requires Valid() && at in store
      modifies this
      ensures Valid() && Step(old(AsState()), Closes(at)) == Some(AsState())
      ensures at !in store
    {
      StepIsSafe(AsState(), Closes(at));
      if store[at].SenderChannel? {
        assert ChannelSound(AsState(), at);
        if store[at].receiver != None {
          var removed := RemoveSenderChannel(store[at].receiver.value, store[at].senderId);
        }
      } else {
        var channelId := store[at].channelId;
        CloseSenders(at);
        RemoveReceiverChannel(channelId);
      }
      store := store - {at};
    }

    /** Every sender of a receiver forgets it and begins to close, in whatever order the map has. */
    method CloseSenders(at: Ref)
      requires IsReceiver(store, at)
      requires forall x :: x in store[at].senders.Values ==> IsSender(store, x)
      modifies this`store
      ensures store == AllShut(old(store), old(store)[at].senders.Values)
    {
      var senders := store[at].senders;
      var rest := senders.Keys;
      ghost var done: set<Ref> := {};
      while rest != {}
        invariant rest <= senders.Keys
        invariant store == AllShut(old(store), done)
        invariant done <= senders.Values
        invariant forall id :: id in senders && id !in rest ==> senders[id] in done
      {
        var id :| id in rest;
        var x := senders[id];
        assert IsSender(old(store), x);
        store := store[x := Shut(store[x])];
        done := done + {x};
        rest := rest - {id};
      }
      assert done == senders.Values;
    }

    method OnSenderMessage(at: Ref, data: Text)
      requires Valid() && IsSender(store, at) && store[at].open
      modifies this`store
      ensures Valid() && Step(old(AsState()), SenderSays(at, data)) == Some(AsState())
    {
      StepIsSafe(AsState(), SenderSays(at, data));
      assert ChannelSound(AsState(), at);
      store := Tell(store, store[at].receiver.value, Message(store[at].senderId, data));
    }

    method OnReceiverMessage(at: Ref, to: Id, data: Text)
      requires Valid() && IsReceiver(store, at)
      modifies this`store
      ensures Valid() && Step(old(AsState()), ReceiverSays(at, to, data)) == Some(AsState())
    {
      StepIsSafe(AsState(), ReceiverSays(at, to, data));
      assert ChannelSound(AsState(), at);
      if to == EVERYONE {
        SendToAll(at, data);
      } else {
        var x := GetSenderChannel(at, to);
        if x != None {
          store := store[x.value := Hear(store[x.value], data)];
        }
        assert store == AllHear(old(store), if x == None then {} else {x.value}, data);
      }
    }

    method SendToAll(at: Ref, data: Text)
      requires IsReceiver(store, at)
      requires forall x :: x in store[at].senders.Values ==> IsSender(store, x)
      requires forall i, j :: i in store[at].senders && j in store[at].senders && i != j ==>
                 store[at].senders[i] != store[at].senders[j]
      modifies this`store
      ensures store == AllHear(old(store), old(store)[at].senders.Values, data)
    {
      var senders := store[at].senders;
      var rest := senders.Keys;
      ghost var done: set<Ref> := {};
      while rest != {}
        invariant rest <= senders.Keys
        invariant store == AllHear(old(store), done, data)
        invariant done <= senders.Values
        invariant forall id :: id in senders ==> (id !in rest <==> senders[id] in done)
      {
        var id :| id in rest;
        var x := senders[id];
        assert IsSender(old(store), x);
        store := store[x := Hear(store[x], data)];
        done := done + {x};
        rest := rest - {id};
      }
      assert done == senders.Values;
    }
  }

  // ---------------------------------------------------------------- runs

  /** A message is delivered only on a session that is open. */
  predicate Deliverable(s: State, e: Event)
  {
    Possible(s, e) && (e.SenderSays? ==> s.store[e.at].open)
  }

  /** The state after a run, as long as every event could happen and no bad object was used. */
  function Run(s: State, events: seq<Event>): Option<State>
    decreases |events|
  {
    if events == [] then Some(s)
    else match Step(s, events[0])
      case None => None
      case Some(t) => Run(t, events[1..])
  }

  predicate Orderly(s: State, events: seq<Event>)
    decreases |events|
  {
    events != [] ==>
      && Deliverable(s, events[0])
      && (Step(s, events[0]).Some? ==> Orderly(Step(s, events[0]).value, events[1..]))
  }

  /** Over every run, no null or deleted channel is ever used, and the graph stays sound. */
  lemma {:induction false} RunIsSafe(s: State, events: seq<Event>)
    requires Sound(s) && Orderly(s, events)
    ensures Run(s, events).Some? && Sound(Run(s, events).value)
    decreases |events|
  {
    if events != [] {
      StepIsSafe(s, events[0]);
      RunIsSafe(Step(s, events[0]).value, events[1..]);
    }
  }

  // ---------------------------------------------------------------- what each event changes

  /** The channel that an event opens. */
  predicate Opens(s: State, e: Event, y: Ref)
  {
    || (e.ReceiverConnects? && e.at == y && e.channelId !in s.receivers)
    || (e.SenderConnects? && e.at == y && e.channelId in s.receivers
        && s.receivers[e.channelId] in s.store && !Lists(s.store[s.receivers[e.channelId]], e.senderId))
  }

  predicate Lists(c: Channel, id: Id) { c.ReceiverChannel? && id in c.senders }

  /**
    A channel id stands for a receiver after an event exactly when it did before and the receiver
    did not close, or when the receiver has just connected under an id that was free.
   */
  lemma RegisteredExactlyWhen(s: State, e: Event, c: Id, r: Ref)
    requires Sound(s) && Deliverable(s, e)
    ensures Step(s, e).Some?
    ensures var t := Step(s, e).value;
            c in t.receivers && t.receivers[c] == r <==>
              || (c in s.receivers && s.receivers[c] == r && e != Closes(r))
              || (e == ReceiverConnects(c, r) && c !in s.receivers)
  {
    hide Sound;
    StepIsSafe(s, e);
    if e.Closes? {
      RegisteredAfterClosing(s, e.at, c, r);
    } else {
      RegisteredOtherwise(s, e, c, r);
    }
  }

  lemma RegisteredAfterClosing(s: State, at: Ref, c: Id, r: Ref)
    requires Sound(s) && at in s.store
    requires Step(s, Closes(at)).Some?
    ensures var t := Step(s, Closes(at)).value;
            c in t.receivers && t.receivers[c] == r <==> c in s.receivers && s.receivers[c] == r && at != r
  {
    hide Mirror;
    assert ChannelSound(s, at);
    assert c in s.receivers ==> Registered(s, c);
  }

  lemma RegisteredOtherwise(s: State, e: Event, c: Id, r: Ref)
    requires Deliverable(s, e) && Step(s, e).Some? && !e.Closes?
    ensures var t := Step(s, e).value;
            c in t.receivers && t.receivers[c] == r <==>
              || (c in s.receivers && s.receivers[c] == r)
              || (e == ReceiverConnects(c, r) && c !in s.receivers)
  {
  }

  /** Which channels there are after an event, and what a new one is. */
  lemma LiveExactlyWhen(s: State, e: Event, y: Ref)
    requires Sound(s) && Deliverable(s, e)
    ensures Step(s, e).Some?
    ensures var t := Step(s, e).value;
            && (y in t.store <==> (y in s.store && e != Closes(y)) || Opens(s, e, y))
            && (Opens(s, e, y) && e.ReceiverConnects? ==> t.store[y] == ReceiverChannel(e.channelId, map[], []))
            && (Opens(s, e, y) && e.SenderConnects? ==>
                  t.store[y] == SenderChannel(e.senderId, Some(s.receivers[e.channelId]), true, []))
  {
    hide Sound;
    StepIsSafe(s, e);
    match e
    case ReceiverConnects(_, _) =>
    case SenderConnects(c, id, at) => LiveAfterJoining(s, c, id, at, y);
    case Closes(at) => LiveAfterClosing(s, at, y);
    case SenderSays(_, _) =>
    case ReceiverSays(_, _, _) =>
  }

  lemma LiveAfterJoining(s: State, c: Id, id: Id, at: Ref, y: Ref)
    requires Sound(s) && at !in s.store && Step(s, SenderConnects(c, id, at)).Some?
    ensures var e, t := SenderConnects(c, id, at), Step(s, SenderConnects(c, id, at)).value;
            && (y in t.store <==> y in s.store || Opens(s, e, y))
            && (Opens(s, e, y) ==> t.store[y] == SenderChannel(id, Some(s.receivers[c]), true, []))
  {
    hide Mirror;
    assert c in s.receivers ==> Registered(s, c);
  }

  lemma LiveAfterClosing(s: State, at: Ref, y: Ref)
    requires Sound(s) && at in s.store && Step(s, Closes(at)).Some?
    ensures y in Step(s, Closes(at)).value.store <==> y in s.store && y != at
  {
    hide Mirror;
    assert ChannelSound(s, at);
  }

  /** What an event tells a receiver. */
  function News(s: State, e: Event, r: Ref): seq<Notice>
    requires IsReceiver(s.store, r)
  {
    match e
    case SenderConnects(c, id, _) =>
      if c == s.store[r].channelId && id !in s.store[r].senders then [SenderConnected(id)] else []
    case Closes(x) =>
      if IsSender(s.store, x) && s.store[x].receiver == Some(r) then [SenderDisconnected(s.store[x].senderId)] else []
    case SenderSays(x, data) =>
      if IsSender(s.store, x) && s.store[x].receiver == Some(r) then [Message(s.store[x].senderId, data)] else []
    case _ => []
  }

  /** A receiver keeps its id while it lives, and is told exactly the news. */
  lemma ReceiverExactly(s: State, e: Event, r: Ref)
    requires Sound(s) && Deliverable(s, e) && IsReceiver(s.store, r) && e != Closes(r)
    ensures Step(s, e).Some?
    ensures var t := Step(s, e).value;
            && IsReceiver(t.store, r) && t.store[r].channelId == s.store[r].channelId
            && t.store[r].told == s.store[r].told + News(s, e, r)
  {
    hide Sound;
    StepIsSafe(s, e);
    assert s.store[r].told + [] == s.store[r].told;
    match e
    case ReceiverConnects(_, _) =>
    case SenderConnects(c, id, at) => ToldOfJoining(s, c, id, at, r);
    case Closes(at) => ToldOfClosing(s, at, r);
    case SenderSays(at, data) => SenderIsRouted(s, at, data, r);
    case ReceiverSays(_, _, _) =>
  }

  lemma ToldOfJoining(s: State, c: Id, id: Id, at: Ref, r: Ref)
    requires Sound(s) && at !in s.store && IsReceiver(s.store, r) && Step(s, SenderConnects(c, id, at)).Some?
    ensures var t := Step(s, SenderConnects(c, id, at)).value;
            && IsReceiver(t.store, r) && t.store[r].channelId == s.store[r].channelId
            && t.store[r].told == s.store[r].told + News(s, SenderConnects(c, id, at), r)
  {
    hide Mirror;
    assert s.store[r].told + [] == s.store[r].told;
    assert ChannelSound(s, r);
    assert c in s.receivers ==> Registered(s, c);
  }

  lemma ToldOfClosing(s: State, at: Ref, r: Ref)
    requires Sound(s) && at in s.store && IsReceiver(s.store, r) && at != r && Step(s, Closes(at)).Some?
    ensures var t := Step(s, Closes(at)).value;
            && IsReceiver(t.store, r) && t.store[r].channelId == s.store[r].channelId
            && t.store[r].told == s.store[r].told + News(s, Closes(at), r)
  {
    hide Mirror;
    assert s.store[r].told + [] == s.store[r].told;
    assert ChannelSound(s, at);
  }

  /**
    A sender keeps its name while it lives; it loses its receiver, and its session begins to close,
    exactly when that receiver closes; it hears exactly what its receiver says to it or to everyone.
   */
  lemma SenderExactly(s: State, e: Event, x: Ref)
    requires Sound(s) && Deliverable(s, e) && IsSender(s.store, x) && e != Closes(x)
    ensures Step(s, e).Some? && IsSender(Step(s, e).value.store, x)
    ensures var c, d := s.store[x], Step(s, e).value.store[x];
            var orphaned := c.receiver.Some? && e == Closes(c.receiver.value);
            && d.senderId == c.senderId
            && d.receiver == (if orphaned then None else c.receiver)
            && d.open == (c.open && !orphaned)
            && d.heard == c.heard +
               if e.ReceiverSays? && c.receiver == Some(e.at) && (e.to == "*:*" || e.to == c.senderId) then [e.data]
               else []
  {
    hide Sound;
    StepIsSafe(s, e);
    assert s.store[x].heard + [] == s.store[x].heard;
    match e
    case ReceiverConnects(_, _) =>
    case SenderConnects(_, _, _) =>
    case Closes(at) => SenderAfterClosing(s, at, x);
    case SenderSays(at, data) => SenderIsRouted(s, at, data, x);
    case ReceiverSays(at, to, data) => ReceiverIsRouted(s, at, to, data, x);
  }

  lemma SenderAfterClosing(s: State, at: Ref, x: Ref)
    requires Sound(s) && at in s.store && IsSender(s.store, x) && at != x && Step(s, Closes(at)).Some?
    ensures var t := Step(s, Closes(at)).value;
            && IsSender(t.store, x)
            && t.store[x] == if s.store[x].receiver == Some(at) then s.store[x].(receiver := None, open := false)
                             else s.store[x]
  {
    hide Mirror;
    assert ChannelSound(s, at) && ChannelSound(s, x);
  }

  /** One event, and then a run. */
  lemma Goes(s: State, e: Event, t: State, events: seq<Event>, u: State)
    requires Deliverable(s, e) && Step(s, e) == Some(t) && Orderly(t, events) && Run(t, events) == Some(u)
    ensures Orderly(s, [e] + events) && Run(s, [e] + events) == Some(u)
  {
    assert ([e] + events)[0] == e && ([e] + events)[1..] == events;
  }

  /** One receiver and one sender. */
  function Talk(told: seq<Notice>, heard: seq<Text>): State
  {
    State(map[0 := ReceiverChannel("c", map["s" := 1], told), 1 := SenderChannel("s", Some(0), true, heard)],
          map["c" := 0])
  }

  lemma TalkBegins()
    ensures var s := State(map[0 := ReceiverChannel("c", map[], [])], map["c" := 0]);
            && Step(State(map[], map[]), ReceiverConnects("c", 0)) == Some(s)
            && Step(s, SenderConnects("c", "s", 1)) == Some(Talk([SenderConnected("s")], []))
  {
    var s := State(map[0 := ReceiverChannel("c", map[], [])], map["c" := 0]);
    assert map[]["s" := 1] == map["s" := 1];
    assert [] + [SenderConnected("s")] == [SenderConnected("s")];
    assert Step(s, SenderConnects("c", "s", 1)).value.store == Talk([SenderConnected("s")], []).store;
  }

  lemma SenderTalks(told: seq<Notice>, heard: seq<Text>, data: Text)
    ensures Step(Talk(told, heard), SenderSays(1, data)) == Some(Talk(told + [Message("s", data)], heard))
  {
    var s := Talk(told, heard);
    assert Step(s, SenderSays(1, data)).value.store == Talk(told + [Message("s", data)], heard).store;
  }

  lemma ReceiverTalks(told: seq<Notice>, heard: seq<Text>, to: Id, data: Text)
    requires to == "s" || to == "*:*"
    ensures Step(Talk(told, heard), ReceiverSays(0, to, data)) == Some(Talk(told, heard + [data]))
  {
    var s := Talk(told, heard);
    assert s.store[0].senders.Values == {1} by { assert s.store[0].senders["s"] == 1; }
    assert Step(s, ReceiverSays(0, to, data)).value.store == Talk(told, heard + [data]).store;
  }

  /** A receiver connects, a sender connects, and it is listed and its notice told; each hears the other. */
  lemma FirstConversation(hello: Text, answer: Text, all: Text)
    ensures var events := [ReceiverConnects("c", 0)] + ([SenderConnects("c", "s", 1)] + ([SenderSays(1, hello)] +
              ([ReceiverSays(0, "s", answer)] + ([ReceiverSays(0, "*:*", all)] + []))));
            && Orderly(State(map[], map[]), events)
            && Run(State(map[], map[]), events) == Some(State(
                 map[0 := ReceiverChannel("c", map["s" := 1], [SenderConnected("s"), Message("s", hello)]),
                     1 := SenderChannel("s", Some(0), true, [answer, all])],
                 map["c" := 0]))
  {
    hide Step;
    var told := [SenderConnected("s"), Message("s", hello)];
    var s5 := Talk(told, [answer, all]);
    TalkBegins();
    SenderTalks([SenderConnected("s")], [], hello);
    ReceiverTalks(told, [], "s", answer);
    ReceiverTalks(told, [answer], "*:*", all);
    assert [SenderConnected("s")] + [Message("s", hello)] == told && [] + [answer] == [answer];
    assert [answer] + [all] == [answer, all];
    var last := [ReceiverSays(0, "*:*", all)] + [];
    Goes(Talk(told, [answer]), ReceiverSays(0, "*:*", all), s5, [], s5);
    Goes(Talk(told, []), ReceiverSays(0, "s", answer), Talk(told, [answer]), last, s5);
    last := [ReceiverSays(0, "s", answer)] + last;
    Goes(Talk([SenderConnected("s")], []), SenderSays(1, hello), Talk(told, []), last, s5);
    last := [SenderSays(1, hello)] + last;
    var s1 := State(map[0 := ReceiverChannel("c", map[], [])], map["c" := 0]);
    Goes(s1, SenderConnects("c", "s", 1), Talk([SenderConnected("s")], []), last, s5);
    last := [SenderConnects("c", "s", 1)] + last;
    Goes(State(map[], map[]), ReceiverConnects("c", 0), s1, last, s5);
  }

  /**
    A sender is in the map of a receiver after an event exactly when it was there before and
    neither closed, or when it has just connected to that receiver under a free name.
   */
  lemma ListedExactlyWhen(s: State, e: Event, r: Ref, id: Id, x: Ref)
    requires Sound(s) && Deliverable(s, e) && IsReceiver(s.store, r)
    ensures Step(s, e).Some?
    ensures ListedBy(Step(s, e).value.store, r, id, x) <==>
              || (ListedBy(s.store, r, id, x) && e != Closes(x) && e != Closes(r))
              || (e == SenderConnects(s.store[r].channelId, id, x) && id !in s.store[r].senders)
  {
    hide Sound;
    StepIsSafe(s, e);
    match e
    case ReceiverConnects(_, _) =>
    case SenderConnects(c, i, at) => ListedAfterConnecting(s, c, i, at, r, id, x);
    case Closes(at) => ListedAfterClosing(s, at, r, id, x);
    case SenderSays(at, _) =>
    case ReceiverSays(at, _, _) =>
  }

  lemma ListedAfterConnecting(s: State, c: Id, i: Id, at: Ref, r: Ref, id: Id, x: Ref)
    requires Sound(s) && at !in s.store && IsReceiver(s.store, r)
    requires Step(s, SenderConnects(c, i, at)).Some?
    ensures ListedBy(Step(s, SenderConnects(c, i, at)).value.store, r, id, x) <==>
              || ListedBy(s.store, r, id, x)
              || (c == s.store[r].channelId && i == id && at == x && id !in s.store[r].senders)
  {
    assert ChannelSound(s, r);
    assert c in s.receivers ==> Registered(s, c);
  }

  lemma ListedAfterClosing(s: State, at: Ref, r: Ref, id: Id, x: Ref)
    requires Sound(s) && at in s.store && IsReceiver(s.store, r)
    requires Step(s, Closes(at)).Some?
    ensures ListedBy(Step(s, Closes(at)).value.store, r, id, x) <==>
              ListedBy(s.store, r, id, x) && at != x && at != r
  {
    assert ChannelSound(s, r) && ChannelSound(s, at);
  }

  /** So a sender stays where it is over any run in which neither it nor its receiver closes. */
  lemma {:induction false} StaysListed(s: State, events: seq<Event>, r: Ref, id: Id, x: Ref)
    requires Sound(s) && Orderly(s, events) && ListedBy(s.store, r, id, x)
    requires Closes(x) !in events && Closes(r) !in events
    ensures Run(s, events).Some? && ListedBy(Run(s, events).value.store, r, id, x)
    decreases |events|
  {
    if events != [] {
      StepIsSafe(s, events[0]);
      ListedExactlyWhen(s, events[0], r, id, x);
      StaysListed(Step(s, events[0]).value, events[1..], r, id, x);
    }
  }

  predicate IsLeftover(store: Store, x: Ref) { IsSender(store, x) && store[x].receiver == None }

  lemma LeftoverStays(s: State, e: Event, x: Ref)
    requires Sound(s) && Deliverable(s, e) && IsLeftover(s.store, x) && e != Closes(x)
    ensures Step(s, e).Some? && IsLeftover(Step(s, e).value.store, x)
  {
    hide Sound;
    StepIsSafe(s, e);
    match e
    case ReceiverConnects(_, _) =>
    case SenderConnects(c, i, at) =>
    case Closes(at) => LeftoverAfterClosing(s, at, x);
    case SenderSays(at, _) =>
    case ReceiverSays(at, _, _) =>
  }

  lemma LeftoverAfterClosing(s: State, at: Ref, x: Ref)
    requires Sound(s) && at in s.store && IsLeftover(s.store, x) && at != x
    requires Step(s, Closes(at)).Some?
    ensures IsLeftover(Step(s, Closes(at)).value.store, x)
  {
  }

  /**
    A sender left over from a receiver that has closed: whatever happens meanwhile, even a new
    receiver with the same channel id and a new sender with the same name, its own closing
    changes no other channel.
   */
  lemma {:induction false} LeftoverIsHarmless(s: State, events: seq<Event>, x: Ref)
    requires Sound(s) && Orderly(s, events) && IsLeftover(s.store, x) && Closes(x) !in events
    ensures Run(s, events).Some?
    ensures var t := Run(s, events).value;
            Step(t, Closes(x)) == Some(t.(store := t.store - {x}))
    decreases |events|
  {
    if events != [] {
      StepIsSafe(s, events[0]);
      LeftoverStays(s, events[0], x);
      LeftoverIsHarmless(Step(s, events[0]).value, events[1..], x);
    }
  }

  /** When a receiver closes, exactly its own senders are left over. */
  lemma ClosingLeavesSenders(s: State, r: Ref, x: Ref)
    requires Sound(s) && IsReceiver(s.store, r) && IsSender(s.store, x)
    ensures Step(s, Closes(r)).Some? && IsSender(Step(s, Closes(r)).value.store, x)
    ensures IsLeftover(Step(s, Closes(r)).value.store, x) <==>
              IsLeftover(s.store, x) || s.store[x].receiver == Some(r)
    ensures s.store[x].receiver != Some(r) ==> Step(s, Closes(r)).value.store[x] == s.store[x]
  {
    StepIsSafe(s, Closes(r));
    assert ChannelSound(s, r) && ChannelSound(s, x);
  }

  // ---------------------------------------------------------------- routing

  /** A sender's message reaches the receiver it points back to, under its own name, and nobody else. */
  lemma SenderIsRouted(s: State, at: Ref, data: Text, y: Ref)
    requires Sound(s) && IsSender(s.store, at) && s.store[at].open && y in s.store
    ensures Step(s, SenderSays(at, data)).Some?
    ensures var t := Step(s, SenderSays(at, data)).value;
            && t.receivers == s.receivers && t.store.Keys == s.store.Keys
            && t.store[y] == if s.store[at].receiver != Some(y) then s.store[y] else
                 s.store[y].(told := s.store[y].told + [Message(s.store[at].senderId, data)])
  {
    StepIsSafe(s, SenderSays(at, data));
    assert ChannelSound(s, at);
  }

  /** A receiver's message reaches, once each, its own senders that are named by it, and nobody else. */
  lemma ReceiverIsRouted(s: State, at: Ref, to: Id, data: Text, y: Ref)
    requires Sound(s) && IsReceiver(s.store, at) && y in s.store
    ensures Step(s, ReceiverSays(at, to, data)).Some?
    ensures var t := Step(s, ReceiverSays(at, to, data)).value;
            && t.receivers == s.receivers && t.store.Keys == s.store.Keys
            && t.store[y] ==
               if
                 && IsSender(s.store, y) && s.store[y].receiver == Some(at)
                 && (to == EVERYONE || to == s.store[y].senderId)
               then s.store[y].(heard := s.store[y].heard + [data]) else s.store[y]
  {
    StepIsSafe(s, ReceiverSays(at, to, data));
    assert ChannelSound(s, at) && ChannelSound(s, y);
  }

  /** What a receiver has been told since it connected is always exactly who is in its map. */
  lemma NoticesMirrorSenders(events: seq<Event>, r: Ref)
    requires Orderly(State(map[], map[]), events)
    ensures var t := Run(State(map[], map[]), events);
            t.Some? && (IsReceiver(t.value.store, r) ==>
              Mirror(t.value.store[r].told) == Some(t.value.store[r].senders.Keys))
  {
    RunIsSafe(State(map[], map[]), events);
    var t := Run(State(map[], map[]), events).value;
    assert r in t.store ==> ChannelSound(t, r);
  }
}
