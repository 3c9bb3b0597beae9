/**
  Sender and receiver sessions. A session lives until its own timer fires, ten seconds after it
  was last triggered, and then deletes itself; the manager only forgets it. The heap is explicit,
  so that every use of a session has to be shown to come before its deletion.
 */
module Sessions {
  import opened Bytes

  type Token = string
  type AppId = string
  type Ref = nat
  type Listener = nat

  const TIMEOUT := 10

  datatype Kind = Sender | Receiver

  datatype Session = Session(kind: Kind, token: Token, appId: AppId, closed: bool, deadline: Option<nat>)

  /** What listeners are told; Listening marks that a listener has been set. */
  datatype Notice =
    | Listening(who: Listener)
    | Connected(token: Token)
    | Disconnected(token: Token)
    | ReceiverGone(appId: AppId)

  type Store = map<Ref, Session>

  /**
    The manager's own fields are senders, receiver and listener. The rest is the heap, the clock
    and the history: the tokens ever generated, those of deleted sessions, and every notice given.
   */
  datatype State = State(senders: map<Token, Ref>, receiver: Option<Ref>, listener: Option<Listener>,
                         store: Store, now: nat, used: set<Token>, deleted: seq<Token>, log: seq<Notice>)

  const START := State(map[], None, None, map[], 0, {}, [], [])

  /** What can happen. The order in which a listener hears of the senders is the order of the map. */
  datatype Event =
    | CreateSender(appId: AppId, token: Token, at: Ref)
    | TouchSender(token: Token)
    | DisconnectSender(token: Token)
    | CreateReceiver(appId: AppId, token: Token, at: Ref)
    | TouchReceiver(appId: AppId)
    | DisconnectReceiver(appId: AppId)
    | SetListener(listener: Option<Listener>, order: seq<Token>)
    | Fires(at: Ref)
    | Tick

  predicate Once(t: seq<Token>) { forall i, j :: 0 <= i < j < |t| ==> t[i] != t[j] }

  /** Each sender once, in some order. */
  ghost predicate Lists(order: seq<Token>, tokens: set<Token>)
  {
    Once(order) && forall t :: t in order <==> t in tokens
  }

  /** Tokens are generated only once, new objects are where none is, and no timer fires early. */
  ghost predicate Possible(s: State, e: Event)
  {
    match e
    case CreateSender(_, token, at) => token !in s.used && at !in s.store
    case CreateReceiver(_, token, at) => token !in s.used && at !in s.store
    case SetListener(_, order) => Lists(order, s.senders.Keys)
    case Fires(at) => at in s.store && s.store[at].deadline.Some? && s.store[at].deadline.value <= s.now
    case _ => true
  }

  // ---------------------------------------------------------------- what each event does

  function Tell(s: State, n: Notice): State
  {
    if s.listener == None then s else s.(log := s.log + [n])
  }

  function Connections(order: seq<Token>): (n: seq<Notice>)
    ensures |n| == |order| && forall i :: 0 <= i < |n| ==> n[i] == Connected(order[i])
  {
    seq(|order|, i requires 0 <= i < |order| => Connected(order[i]))
  }

  function Triggered(s: State, at: Ref): State
    requires at in s.store
  {
    s.(store := s.store[at := s.store[at].(deadline := Some(s.now + TIMEOUT))])
  }

  /** The state with a new session. */
  function New(s: State, at: Ref, x: Session): State
  {
    s.(store := s.store[at := x], used := s.used + {x.token})
  }

  function Added(s: State, token: Token, at: Ref): State
  {
    if token in s.senders then s else s.(senders := s.senders[token := at])
  }

  function SenderGone(s: State, token: Token): State
  {
    if token in s.senders then Tell(s.(senders := s.senders - {token}), Disconnected(token)) else s
  }

  function Deleted(s: State, at: Ref): State
    requires at in s.store
  {
    s.(store := s.store - {at}, deleted := s.deleted + [s.store[at].token])
  }

  /** What a receiver session's timeout does, or None where a deleted session would be used. */
  function ReceiverTimedOut(s: State, token: Token): Option<State>
  {
    match s.receiver
    case None => Some(s)
    case Some(r) =>
      if r !in s.store then None
      else if s.store[r].token == token then Some(Tell(s, ReceiverGone(s.store[r].appId)).(receiver := None))
      else Some(s)
  }

  predicate AllLive(order: seq<Token>, senders: map<Token, Ref>, store: Store)
  {
    forall t :: t in order ==> t in senders && senders[t] in store && store[senders[t]].token == t
  }

  /** The state after an event, or None where a deleted session would be used. */
  function Step(s: State, e: Event): Option<State>
  {
    match e
    case CreateSender(appId, token, at) =>
      var made := New(s, at, Session(Sender, token, appId, false, None));
      Some(Triggered(Tell(Added(made, token, at), Connected(token)), at))
    case TouchSender(token) =>
      if token !in s.senders then Some(s)
      else if s.senders[token] in s.store then Some(Triggered(s, s.senders[token]))
      else None
    case DisconnectSender(token) => Some(SenderGone(s, token))
    case CreateReceiver(appId, token, at) =>
      if s.receiver != None then Some(s)
      else
        Some(Triggered(New(s, at, Session(Receiver, token, appId, false, None)).(receiver := Some(at)), at))
    case TouchReceiver(_) =>
      if s.receiver == None then Some(s)
      else if s.receiver.value in s.store then Some(Triggered(s, s.receiver.value))
      else None
    case DisconnectReceiver(appId) =>
      if s.receiver == None then Some(s)
      else if s.receiver.value !in s.store then None
      else if s.store[s.receiver.value].appId == appId then Some(s.(receiver := None))
      else Some(s)
    case SetListener(listener, order) =>
      if listener == None then Some(s.(listener := None))
      else if AllLive(order, s.senders, s.store) then
        Some(s.(listener := listener, log := s.log + [Listening(listener.value)] + Connections(order)))
      else None
    case Fires(at) =>
      if at !in s.store then None
      else
        var closed := s.(store := s.store[at := s.store[at].(closed := true, deadline := None)]);
        var token := s.store[at].token;
        var told :=
          if s.store[at].kind == Sender then Some(SenderGone(closed, token)) else ReceiverTimedOut(closed, token);
        if told.Some? && at in told.value.store then Some(Deleted(told.value, at)) else None
    case Tick => Some(s.(now := s.now + 1))
  }

  // ---------------------------------------------------------------- the invariant

  /** What the current listener knows of the senders, as long as what it was told makes sense. */
  function Mirror(log: seq<Notice>): Option<set<Token>>
  {
    if log == [] then None
    else
      var known := Mirror(log[..|log| - 1]);
      match log[|log| - 1]
      case Listening(_) => Some({})
      case Connected(t) => if known.Some? && t !in known.value then Some(known.value + {t}) else None
      case Disconnected(t) => if known.Some? && t in known.value then Some(known.value - {t}) else None
      case ReceiverGone(_) => known
  }

  /** Each entry of the map is a live sender session with that token. */
  predicate SendersLive(senders: map<Token, Ref>, store: Store)
  {
    forall t :: t in senders ==> SenderLive(senders[t], t, store)
  }

  predicate SenderLive(r: Ref, t: Token, store: Store) { r in store && store[r].kind == Sender && store[r].token == t }

  predicate ReceiverLive(receiver: Option<Ref>, store: Store)
  {
    receiver.Some? ==> receiver.value in store && store[receiver.value].kind == Receiver
  }

  /** A live session is open and its timer is running. */
  predicate TimersRun(store: Store, now: nat) { forall r :: r in store ==> TimerRuns(store[r], now) }

  predicate TimerRuns(x: Session, now: nat) { !x.closed && x.deadline.Some? && x.deadline.value <= now + TIMEOUT }

  /** Every token ever generated belongs to one live session, or to one deleted session. */
  ghost predicate Accounted(store: Store, used: set<Token>, deleted: seq<Token>)
  {
    && Once(deleted)
    && (forall t :: t in deleted ==> t in used)
    && (forall t :: t in used ==> t in deleted || exists r :: Owns(store, r, t))
    && (forall r, t :: Owns(store, r, t) ==> t in used && t !in deleted)
    && (forall r, o, t :: Owns(store, r, t) && Owns(store, o, t) ==> r == o)
  }

  predicate Owns(store: Store, r: Ref, t: Token) { r in store && store[r].token == t }

  /** A disconnect is announced at most once, and only for a token that is gone for good. */
  ghost predicate AnnouncedOnce(log: seq<Notice>, used: set<Token>, senders: map<Token, Ref>)
  {
    forall t :: Announcements(log, t) <= if t in used && t !in senders then 1 else 0
  }

  /** How often a disconnect of t was announced. */
  function Announcements(log: seq<Notice>, t: Token): nat { multiset(log)[Disconnected(t)] }

  /** A listener knows exactly the current senders. */
  predicate Mirrored(listener: Option<Listener>, log: seq<Notice>, senders: map<Token, Ref>)
  {
    listener.Some? ==> Mirror(log) == Some(senders.Keys)
  }

  ghost predicate Sound(s: State)
  {
    && SendersLive(s.senders, s.store) && ReceiverLive(s.receiver, s.store)
    && TimersRun(s.store, s.now)
    && Accounted(s.store, s.used, s.deleted)
    && Mirrored(s.listener, s.log, s.senders)
    && AnnouncedOnce(s.log, s.used, s.senders)
  }

  lemma MirrorGrows(log: seq<Notice>, n: Notice)
    ensures var known := Mirror(log);
            Mirror(log + [n]) ==
              match n
              case Listening(_) => Some({})
              case Connected(t) => if known.Some? && t !in known.value then Some(known.value + {t}) else None
              case Disconnected(t) => if known.Some? && t in known.value then Some(known.value - {t}) else None
              case ReceiverGone(_) => known
  {
    assert (log + [n])[..|log|] == log;
  }

  lemma LogGrows(log: seq<Notice>, n: Notice)
    ensures forall t :: Announcements(log + [n], t) == Announcements(log, t) + if n == Disconnected(t) then 1 else 0
  {
    assert multiset(log + [n]) == multiset(log) + multiset{n};
  }

  lemma TriggeredIsSound(s: State, at: Ref)
    requires Sound(s) && at in s.store
    ensures Sound(Triggered(s, at))
  {
    var t := Triggered(s, at);
    assert TimerRuns(s.store[at], s.now);
    assert forall r :: r in t.store ==> t.store[r].token == s.store[r].token && t.store[r].kind == s.store[r].kind;
    assert forall r, x :: Owns(t.store, r, x) <==> Owns(s.store, r, x);
  }

  lemma NewIsSound(s: State, at: Ref, x: Session)
    requires Sound(s) && at !in s.store && x.token !in s.used
    requires !x.closed && x.deadline == Some(s.now + TIMEOUT)
    ensures Sound(New(s, at, x))
    ensures x.token !in s.senders && Announcements(s.log, x.token) == 0
  {
    var t := New(s, at, x);
    assert forall r, y :: Owns(t.store, r, y) <==> Owns(s.store, r, y) || (r == at && y == x.token);
    assert Owns(t.store, at, x.token);
    if x.token in s.senders {
      assert Owns(s.store, s.senders[x.token], x.token);
    }
  }

  /** A live sender session that was never in the map enters it and is announced. */
  lemma JoinedIsSound(s: State, at: Ref, token: Token)
    requires Sound(s) && SenderLive(at, token, s.store) && token !in s.senders
    requires Announcements(s.log, token) == 0
    ensures Sound(Tell(s.(senders := s.senders[token := at]), Connected(token)))
  {
    MirrorGrows(s.log, Connected(token));
    LogGrows(s.log, Connected(token));
    assert s.senders[token := at].Keys == s.senders.Keys + {token};
  }

  lemma SenderGoneIsSound(s: State, token: Token)
    requires Sound(s)
    ensures Sound(SenderGone(s, token))
  {
    if token in s.senders {
      assert Owns(s.store, s.senders[token], token);
      MirrorGrows(s.log, Disconnected(token));
      LogGrows(s.log, Disconnected(token));
      assert (s.senders - {token}).Keys == s.senders.Keys - {token};
    }
  }

  lemma DeletedIsSound(s: State, at: Ref)
    requires Sound(s) && at in s.store
    requires s.store[at].token !in s.senders && s.receiver != Some(at)
    ensures Sound(Deleted(s, at))
  {
    var t := Deleted(s, at);
    assert Owns(s.store, at, s.store[at].token);
    assert forall r, y :: Owns(t.store, r, y) <==> Owns(s.store, r, y) && r != at;
  }

  /** Changing the receiver to none, or telling of it, touches nothing else. */
  lemma ReceiverGoneIsSound(s: State, told: bool, appId: AppId)
    requires Sound(s)
    ensures Sound((if told then Tell(s, ReceiverGone(appId)) else s).(receiver := None))
  {
    MirrorGrows(s.log, ReceiverGone(appId));
    LogGrows(s.log, ReceiverGone(appId));
  }

  lemma CreateSenderIsSafe(s: State, appId: AppId, token: Token, at: Ref)
    requires Sound(s) && token !in s.used && at !in s.store
    ensures Sound(Step(s, CreateSender(appId, token, at)).value)
  {
    var x := Session(Sender, token, appId, false, Some(s.now + TIMEOUT));
    NewIsSound(s, at, x);
    JoinedIsSound(New(s, at, x), at, token);
    CreateSenderIs(s, x, at);
  }

  lemma CreateSenderIs(s: State, x: Session, at: Ref)
    requires x == Session(Sender, x.token, x.appId, false, Some(s.now + TIMEOUT)) && x.token !in s.senders
    ensures Step(s, CreateSender(x.appId, x.token, at)) ==
              Some(Tell(New(s, at, x).(senders := s.senders[x.token := at]), Connected(x.token)))
  {
    MakingThenTriggering(s.store, at, x.(deadline := None), x);
  }

  lemma MakingThenTriggering(store: Store, at: Ref, unset: Session, x: Session)
    ensures store[at := unset][at := x] == store[at := x]
  {
  }

  lemma CreateReceiverIsSafe(s: State, appId: AppId, token: Token, at: Ref)
    requires Sound(s) && token !in s.used && at !in s.store
    ensures Sound(Step(s, CreateReceiver(appId, token, at)).value)
  {
    var x := Session(Receiver, token, appId, false, Some(s.now + TIMEOUT));
    NewIsSound(s, at, x);
    MakingThenTriggering(s.store, at, x.(deadline := None), x);
  }

  /** A timer that fires deletes its session, which is gone from the manager by then. */
  lemma FiresIs(s: State, at: Ref)
    requires Sound(s) && at in s.store
    ensures var x := s.store[at];
            var told :=
              if x.kind == Sender then SenderGone(s, x.token)
              else if s.receiver == Some(at) then Tell(s, ReceiverGone(x.appId)).(receiver := None)
              else s;
            && told.store == s.store
            && Step(s, Fires(at)) == Some(Deleted(told, at))
  {
    var x := s.store[at];
    assert Owns(s.store, at, x.token);
    assert s.store[at := x.(closed := true, deadline := None)] - {at} == s.store - {at};
    if s.receiver.Some? {
      assert Owns(s.store, s.receiver.value, s.store[s.receiver.value].token);
    }
  }

  lemma FiresIsSafe(s: State, at: Ref)
    requires Sound(s) && at in s.store
    ensures Step(s, Fires(at)).Some? && Sound(Step(s, Fires(at)).value)
  {
    FiresIs(s, at);
    var x := s.store[at];
    assert Owns(s.store, at, x.token);
    if x.kind == Sender {
      SenderGoneIsSound(s, x.token);
      DeletedIsSound(SenderGone(s, x.token), at);
    } else {
      if x.token in s.senders {
        assert Owns(s.store, s.senders[x.token], x.token);
        assert false;
      }
      if s.receiver == Some(at) {
        ReceiverGoneIsSound(s, true, x.appId);
        DeletedIsSound(Tell(s, ReceiverGone(x.appId)).(receiver := None), at);
      } else {
        DeletedIsSound(s, at);
      }
    }
  }

  /** Hearing of tokens one after the other. */
  lemma {:induction false} MirrorOfConnections(log: seq<Notice>, order: seq<Token>, known: set<Token>)
    requires Mirror(log) == Some({}) && Once(order) && forall t :: t in order <==> t in known
    ensures Mirror(log + Connections(order)) == Some(known)
    decreases |order|
  {
    if order == [] {
      assert log + Connections(order) == log;
      assert known == {};
    } else {
      var last := order[|order| - 1];
      var front := order[..|order| - 1];
      MirrorOfConnections(log, front, known - {last});
      assert Connections(order) == Connections(front) + [Connected(last)];
      assert log + Connections(order) == (log + Connections(front)) + [Connected(last)];
      MirrorGrows(log + Connections(front), Connected(last));
      assert known - {last} + {last} == known;
    }
  }

  lemma NoDisconnects(log: seq<Notice>, who: Listener, order: seq<Token>)
    ensures forall t :: Announcements(log + [Listening(who)] + Connections(order), t) == Announcements(log, t)
  {
    assert multiset(log + [Listening(who)] + Connections(order)) ==
           multiset(log) + multiset{Listening(who)} + multiset(Connections(order));
    assert forall t :: Disconnected(t) !in Connections(order);
  }

  /** A new listener hears of every sender, and of no disconnect. */
  lemma NewListenerHears(log: seq<Notice>, who: Listener, order: seq<Token>, senders: map<Token, Ref>)
    requires Lists(order, senders.Keys)
    ensures var heard := log + [Listening(who)] + Connections(order);
            && Mirror(heard) == Some(senders.Keys)
            && forall t :: Announcements(heard, t) == Announcements(log, t)
  {
    MirrorGrows(log, Listening(who));
    MirrorOfConnections(log + [Listening(who)], order, senders.Keys);
    NoDisconnects(log, who, order);
  }

  lemma OrderIsLive(order: seq<Token>, senders: map<Token, Ref>, store: Store)
    requires Lists(order, senders.Keys) && SendersLive(senders, store)
    ensures AllLive(order, senders, store)
  {
    assert forall t :: t in senders ==> SenderLive(senders[t], t, store);
  }

  lemma SetListenerIsSafe(s: State, listener: Option<Listener>, order: seq<Token>)
    requires Sound(s) && Lists(order, s.senders.Keys)
    ensures Step(s, SetListener(listener, order)).Some? && Sound(Step(s, SetListener(listener, order)).value)
  {
    if listener.Some? {
      OrderIsLive(order, s.senders, s.store);
      NewListenerHears(s.log, listener.value, order, s.senders);
    }
  }

  /** No event uses a deleted session, and the state stays sound. */
  lemma StepIsSafe(s: State, e: Event)
    requires Sound(s) && Possible(s, e)
    ensures Step(s, e).Some? && Sound(Step(s, e).value)
  {
    match e
    case CreateSender(appId, token, at) => CreateSenderIsSafe(s, appId, token, at);
    case TouchSender(token) =>
      if token in s.senders {
        assert SenderLive(s.senders[token], token, s.store);
        TriggeredIsSound(s, s.senders[token]);
      }
    case DisconnectSender(token) => SenderGoneIsSound(s, token);
    case CreateReceiver(appId, token, at) => CreateReceiverIsSafe(s, appId, token, at);
    case TouchReceiver(_) =>
      if s.receiver.Some? {
        TriggeredIsSound(s, s.receiver.value);
      }
    case DisconnectReceiver(appId) => ReceiverGoneIsSound(s, false, appId);
    case SetListener(listener, order) => SetListenerIsSafe(s, listener, order);
    case Fires(at) => FiresIsSafe(s, at);
    case Tick =>
  }

  // ---------------------------------------------------------------- what each event changes, field by field

  /** The session whose timer an event starts anew. */
  predicate Restarts(s: State, e: Event, r: Ref)
  {
    || (e.TouchSender? && e.token in s.senders && s.senders[e.token] == r)
    || (e.TouchReceiver? && s.receiver == Some(r))
  }

  /** The session that an event makes. */
  predicate Makes(s: State, e: Event, r: Ref)
  {
    (e.CreateSender? && e.at == r) || (e.CreateReceiver? && e.at == r && s.receiver == None)
  }

  /**
    A session is there after an event exactly when it was there before and its own timer did not
    fire, or when it has just been made. A touch restarts one timer; nothing else of any session
    that was there ever changes.
   */
  lemma SessionsExactly(s: State, e: Event, r: Ref)
    requires Sound(s) && Possible(s, e)
    ensures Step(s, e).Some?
    ensures var t := Step(s, e).value;
            && (r in t.store <==> (r in s.store && e != Fires(r)) || Makes(s, e, r))
            && (Makes(s, e, r) ==>
                  t.store[r] == Session(if e.CreateSender? then Sender else Receiver, e.token, e.appId, false,
                                        Some(s.now + 10)))
            && (r in s.store && r in t.store ==>
                  t.store[r] == if Restarts(s, e, r) then s.store[r].(deadline := Some(s.now + 10)) else s.store[r])
  {
    StepIsSafe(s, e);
    hide Sound;
    match e
    case Fires(at) => FiresIs(s, at);
    case _ => SessionsWithoutTimer(s, e, r);
  }

  lemma SessionsWithoutTimer(s: State, e: Event, r: Ref)
    requires !e.Fires? && Possible(s, e) && Step(s, e).Some?
    ensures var t := Step(s, e).value;
            && (r in t.store <==> r in s.store || Makes(s, e, r))
            && (Makes(s, e, r) ==>
                  t.store[r] == Session(if e.CreateSender? then Sender else Receiver, e.token, e.appId, false,
                                        Some(s.now + 10)))
            && (r in s.store && r in t.store ==>
                  t.store[r] == if Restarts(s, e, r) then s.store[r].(deadline := Some(s.now + 10)) else s.store[r])
  {
  }

  /** The map of senders after an event, entry by entry, and the current receiver. */
  lemma ManagerExactly(s: State, e: Event, k: Token)
    requires Sound(s) && Possible(s, e)
    ensures Step(s, e).Some?
    ensures var t := Step(s, e).value;
            && (k in t.senders <==>
                  || (k in s.senders && e != DisconnectSender(k) && e != Fires(s.senders[k]))
                  || (e.CreateSender? && e.token == k))
            && (k in t.senders ==> t.senders[k] == if k in s.senders then s.senders[k] else e.at)
            && t.receiver ==
               (if e.CreateReceiver? && s.receiver == None then Some(e.at)
                else if s.receiver.Some? && e == DisconnectReceiver(s.store[s.receiver.value].appId) then None
                else if s.receiver.Some? && e == Fires(s.receiver.value) then None
                else s.receiver)
  {
    hide Sound;
    match e
    case Fires(at) => ManagerAfterTimer(s, at, k);
    case _ =>
      StepIsSafe(s, e);
      ManagerWithoutTimer(s, e, k);
  }

  lemma ManagerAfterTimer(s: State, at: Ref, k: Token)
    requires Sound(s) && at in s.store
    ensures Step(s, Fires(at)).Some?
    ensures var t := Step(s, Fires(at)).value;
            && (k in t.senders <==> k in s.senders && at != s.senders[k])
            && (k in t.senders ==> t.senders[k] == s.senders[k])
            && t.receiver == if s.receiver == Some(at) then None else s.receiver
  {
    FiresIs(s, at);
    if k in s.senders {
      assert Owns(s.store, s.senders[k], k) && Owns(s.store, at, s.store[at].token);
    }
  }

  lemma ManagerWithoutTimer(s: State, e: Event, k: Token)
    requires Sound(s) && Possible(s, e) && !e.Fires? && Step(s, e).Some?
    ensures var t := Step(s, e).value;
            && (k in t.senders <==> (k in s.senders && e != DisconnectSender(k)) || (e.CreateSender? && e.token == k))
            && (k in t.senders ==> t.senders[k] == if k in s.senders then s.senders[k] else e.at)
            && t.receiver ==
               (if e.CreateReceiver? && s.receiver == None then Some(e.at)
                else if s.receiver.Some? && e == DisconnectReceiver(s.store[s.receiver.value].appId) then None
                else s.receiver)
  {
    if e.CreateSender? && e.token in s.senders {
      assert Owns(s.store, s.senders[e.token], e.token);
    }
  }

  /** What an event tells the listener. */
  function Heard(s: State, e: Event): seq<Notice>
  {
    if e.SetListener? then
      if e.listener.Some? then [Listening(e.listener.value)] + Connections(e.order) else []
    else if s.listener == None then []
    else
      match e
      case CreateSender(_, token, _) => [Connected(token)]
      case DisconnectSender(token) => if token in s.senders then [Disconnected(token)] else []
      case Fires(at) =>
        if at !in s.store then []
        else
          var x := s.store[at];
          if x.token in s.senders && s.senders[x.token] == at then [Disconnected(x.token)]
          else if s.receiver == Some(at) then [ReceiverGone(x.appId)]
          else []
      case _ => []
  }

  /** The listener, the clock, the tokens, and every notice that is given. */
  lemma HistoryExactly(s: State, e: Event)
    requires Sound(s) && Possible(s, e)
    ensures Step(s, e).Some?
    ensures var t := Step(s, e).value;
            && t.listener == (if e.SetListener? then e.listener else s.listener)
            && t.now == (if e.Tick? then s.now + 1 else s.now)
            && t.log == s.log + Heard(s, e)
            && t.deleted == s.deleted + (if e.Fires? then [s.store[e.at].token] else [])
            && t.used == s.used +
               (if e.CreateSender? || (e.CreateReceiver? && s.receiver == None) then {e.token} else {})
  {
    hide Sound;
    match e
    case Fires(at) => HistoryAfterTimer(s, at);
    case _ =>
      StepIsSafe(s, e);
      HistoryWithoutTimer(s, e);
  }

  lemma HistoryAfterTimer(s: State, at: Ref)
    requires Sound(s) && at in s.store
    ensures Step(s, Fires(at)).Some?
    ensures var t := Step(s, Fires(at)).value;
            && t.listener == s.listener && t.now == s.now && t.used == s.used + {}
            && t.log == s.log + Heard(s, Fires(at)) && t.deleted == s.deleted + [s.store[at].token]
  {
    var token := s.store[at].token;
    assert Owns(s.store, at, token);
    if token in s.senders {
      assert SenderLive(s.senders[token], token, s.store) && Owns(s.store, s.senders[token], token);
    }
    assert s.log + [] == s.log && s.used + {} == s.used;
    FiresIs(s, at);
    hide Sound, Step;
  }

  lemma HistoryWithoutTimer(s: State, e: Event)
    requires Sound(s) && Possible(s, e) && !e.Fires? && Step(s, e).Some?
    ensures var t := Step(s, e).value;
            && t.listener == (if e.SetListener? then e.listener else s.listener)
            && t.now == (if e.Tick? then s.now + 1 else s.now)
            && t.log == s.log + Heard(s, e) && t.deleted == s.deleted + []
            && t.used == s.used +
               (if e.CreateSender? || (e.CreateReceiver? && s.receiver == None) then {e.token} else {})
  {
    hide Sound;
    assert s.log + [] == s.log && s.deleted + [] == s.deleted && s.used + {} == s.used;
    if e.SetListener? && e.listener.Some? {
      var heard := [Listening(e.listener.value)];
      assert s.log + heard + Connections(e.order) == s.log + (heard + Connections(e.order));
    }
  }

  // ---------------------------------------------------------------- the manager

  class SessionManager {
    var senders: map<Token, Ref>
    var receiver: Option<Ref>
    var listener: Option<Listener>
    var store: Store
    var now: nat
    ghost var used: set<Token>
    ghost var deleted: seq<Token>
    ghost var log: seq<Notice>

    ghost function AsState(): State
      reads this
    {
      State(senders, receiver, listener, store, now, used, deleted, log)
    }

    ghost predicate Valid()
      reads this
    {
      Sound(AsState())
    }

    constructor ()
      ensures Valid() && AsState() == START
    {
      senders, receiver, listener, store, now := map[], None, None, map[], 0;
      used, deleted, log := {}, [], [];
    }

    ghost method Notify(n: Notice)
      modifies this`log
      ensures AsState() == Tell(old(AsState()), n)
    {
      if listener != None {
        log := log + [n];
      }
    }

    /** The old timer is cancelled and a new one started. */
    method TriggerTimer(at: Ref)
      requires at in store
      modifies this`store
      ensures AsState() == Triggered(old(AsState()), at)
    {
      store := store[at := store[at].(deadline := Some(now + TIMEOUT))];
    }

    method CreateSender(appId: AppId, token: Token, at: Ref)
      requires Valid() && token !in used && at !in store
      modifies this
      ensures Valid() && Step(old(AsState()), Event.CreateSender(appId, token, at)) == Some(AsState())
    {
      CreateSenderIsSafe(AsState(), appId, token, at);
      MakeSession(Session(Sender, token, appId, false, None), at);
      var added := AddSender(token, at);
      Notify(Connected(token));
      TriggerTimer(at);
    }

    method MakeSession(x: Session, at: Ref)
      modifies this`store, this`used
      ensures AsState() == New(old(AsState()), at, x)
    {
      store := store[at := x];
      used := used + {x.token};
    }

    method AddSender(token: Token, at: Ref) returns (added: bool)
      modifies this`senders
      ensures added <==> token !in old(senders)
      ensures AsState() == Added(old(AsState()), token, at)
    {
      added := token !in senders;
      if added {
        senders := senders[token := at];
      }
    }

    method TouchSender(token: Token) returns (known: bool)
      requires Valid()
      modifies this`store
      ensures Valid() && Step(old(AsState()), Event.TouchSender(token)) == Some(AsState())
      ensures known <==> token in senders
    {
      StepIsSafe(AsState(), Event.TouchSender(token));
      known := token in senders;
      if known {
        TriggerTimer(senders[token]);
      }
    }

    method DisconnectSender(token: Token) returns (left: bool)
      modifies this`senders, this`log
      ensures AsState() == SenderGone(old(AsState()), token)
      ensures old(Valid()) ==> Valid()
      ensures left <==> token in old(senders)
    {
      if Valid() {
        SenderGoneIsSound(AsState(), token);
      }
      left := token in senders;
      if left {
        senders := senders - {token};
        Notify(Disconnected(token));
      }
    }

    method CreateReceiver(appId: AppId, token: Token, at: Ref) returns (created: bool)
      requires Valid() && token !in used && at !in store
      modifies this
      ensures Valid() && Step(old(AsState()), Event.CreateReceiver(appId, token, at)) == Some(AsState())
      ensures created <==> old(receiver) == None
    {
      StepIsSafe(AsState(), Event.CreateReceiver(appId, token, at));
      created := receiver == None;
      if created {
        MakeSession(Session(Receiver, token, appId, false, None), at);
        receiver := Some(at);
        TriggerTimer(at);
      }
    }

    method TouchReceiver(appId: AppId) returns (touched: bool)
      requires Valid()
      modifies this`store
      ensures Valid() && Step(old(AsState()), Event.TouchReceiver(appId)) == Some(AsState())
      ensures touched <==> receiver != None
    {
      StepIsSafe(AsState(), Event.TouchReceiver(appId));
      touched := receiver != None;
      if touched {
        TriggerTimer(receiver.value);
      }
    }

    method DisconnectReceiver(appId: AppId) returns (left: bool)
      requires Valid()
      modifies this`receiver
      ensures Valid() && Step(old(AsState()), Event.DisconnectReceiver(appId)) == Some(AsState())
      ensures left <==> old(receiver) != receiver
    {
      StepIsSafe(AsState(), Event.DisconnectReceiver(appId));
      left := receiver != None && store[receiver.value].appId == appId;
      if left {
        receiver := None;
      }
    }

    method SetSessionListener(l: Option<Listener>) returns (ghost order: seq<Token>)
      requires Valid()
      modifies this`listener, this`log
      ensures Valid()
      ensures Lists(order, senders.Keys) && Step(old(AsState()), SetListener(l, order)) == Some(AsState())
    {
      listener := l;
      order := [];
      if l != None {
        Notify(Listening(l.value));
        order := AnnounceSenders();
      } else {
        order := SomeOrder(senders.Keys);
      }
      SetListenerIsSafe(old(AsState()), l, order);
    }

    ghost method SomeOrder(tokens: set<Token>) returns (order: seq<Token>)
      ensures Lists(order, tokens)
    {
      order := [];
      var rest := tokens;
      while rest != {}
        invariant rest <= tokens && Lists(order, tokens - rest)
      {
        var t :| t in rest;
        order := order + [t];
        rest := rest - {t};
      }
    }

    /** Walks through the map, in whatever order it has. */
    method AnnounceSenders() returns (ghost order: seq<Token>)
      requires listener != None && SendersLive(senders, store)
      modifies this`log
      ensures Lists(order, senders.Keys)
      ensures log == old(log) + Connections(order)
    {
      order := [];
      var rest := senders.Keys;
      while rest != {}
        invariant rest <= senders.Keys && Lists(order, senders.Keys - rest)
        invariant log == old(log) + Connections(order)
      {
        var t :| t in rest;
        assert SenderLive(senders[t], t, store);
        Notify(Connected(store[senders[t]].token));
        assert Connections(order + [t]) == Connections(order) + [Connected(t)];
        order := order + [t];
        rest := rest - {t};
      }
    }

    method OnReceiverTimeout(token: Token)
      requires ReceiverLive(receiver, store)
      modifies this`receiver, this`log
      ensures ReceiverTimedOut(old(AsState()), token) == Some(AsState())
    {
      if receiver != None && token == store[receiver.value].token {
        Notify(ReceiverGone(store[receiver.value].appId));
        receiver := None;
      }
    }

    /** The timer of a session has fired: it tells the manager and deletes itself. */
    method OnTimeout(at: Ref)
      requires Valid() && at in store
      modifies this
      ensures Valid() && Step(old(AsState()), Fires(at)) == Some(AsState())
    {
      FiresIsSafe(AsState(), at);
      var token := store[at].token;
      store := store[at := store[at].(closed := true, deadline := None)];
      if store[at].kind == Sender {
        var left := DisconnectSender(token);
      } else {
        OnReceiverTimeout(token);
      }
      deleted := deleted + [token];
      store := store - {at};
    }
  }

  // ---------------------------------------------------------------- runs

  function Run(s: State, events: seq<Event>): Option<State>
    decreases |events|
  {
    if events == [] then Some(s)
    else match Step(s, events[0])
      case None => None
      case Some(t) => Run(t, events[1..])
  }

  ghost predicate AllPossible(s: State, events: seq<Event>)
    decreases |events|
  {
    events != [] ==>
      && Possible(s, events[0])
      && (Step(s, events[0]).Some? ==> AllPossible(Step(s, events[0]).value, events[1..]))
  }

  /** Over every run, no deleted session is ever used, and the invariant holds. */
  lemma {:induction false} RunIsSafe(s: State, events: seq<Event>)
    requires Sound(s) && AllPossible(s, events)
    ensures Run(s, events).Some? && Sound(Run(s, events).value)
    decreases |events|
  {
    if events != [] {
      StepIsSafe(s, events[0]);
      RunIsSafe(Step(s, events[0]).value, events[1..]);
    }
  }

  /** A sender leaves the map exactly when it disconnects or its own timer fires. */
  lemma SenderLeavesExactlyWhen(s: State, e: Event, t: Token)
    requires Sound(s) && Possible(s, e) && t in s.senders
    ensures Step(s, e).Some?
    ensures t !in Step(s, e).value.senders <==> e == DisconnectSender(t) || e == Fires(s.senders[t])
    ensures t in Step(s, e).value.senders ==> Step(s, e).value.senders[t] == s.senders[t]
  {
    hide Sound;
    match e
    case Fires(at) => SenderLeavesByTimer(s, at, t);
    case _ =>
      StepIsSafe(s, e);
      SenderStays(s, e, t);
  }

  lemma SenderStays(s: State, e: Event, t: Token)
    requires !e.Fires? && Step(s, e).Some? && t in s.senders
    ensures t !in Step(s, e).value.senders <==> e == DisconnectSender(t)
    ensures t in Step(s, e).value.senders ==> Step(s, e).value.senders[t] == s.senders[t]
  {
  }

  lemma SenderLeavesByTimer(s: State, at: Ref, t: Token)
    requires Sound(s) && at in s.store && t in s.senders
    ensures Step(s, Fires(at)).Some?
    ensures t !in Step(s, Fires(at)).value.senders <==> at == s.senders[t]
    ensures t in Step(s, Fires(at)).value.senders ==> Step(s, Fires(at)).value.senders[t] == s.senders[t]
  {
    FiresIs(s, at);
    assert Owns(s.store, s.senders[t], t) && Owns(s.store, at, s.store[at].token);
  }

  /** A session is deleted exactly when its own timer fires; until then its deadline never moves back. */
  lemma SessionDeletedExactlyWhen(s: State, e: Event, r: Ref)
    requires Sound(s) && Possible(s, e) && r in s.store
    ensures Step(s, e).Some?
    ensures var t := Step(s, e).value;
            && (r !in t.store <==> e == Fires(r))
            && t.deleted == s.deleted + (if e.Fires? then [s.store[e.at].token] else [])
            && (r in t.store ==> t.store[r].token == s.store[r].token && t.store[r].kind == s.store[r].kind)
            && (r in t.store ==> s.store[r].deadline.Some? && t.store[r].deadline.Some?)
            && (r in t.store ==> t.store[r].deadline.value >= s.store[r].deadline.value)
  {
    match e
    case Fires(at) => FiringKeepsOthers(s, at, r);
    case _ => SessionLivesOn(s, e, r);
  }

  /** The same session, with a deadline that has not moved back. */
  predicate LivesOn(x: Session, y: Session)
  {
    && x.token == y.token && x.kind == y.kind
    && x.deadline.Some? && y.deadline.Some? && y.deadline.value >= x.deadline.value
  }

  lemma FiringKeepsOthers(s: State, at: Ref, r: Ref)
    requires Sound(s) && at in s.store && r in s.store
    ensures Step(s, Fires(at)).Some?
    ensures var t := Step(s, Fires(at)).value;
            && (r !in t.store <==> at == r) && (r in t.store ==> LivesOn(s.store[r], t.store[r]))
            && t.deleted == s.deleted + [s.store[at].token] && t.now == s.now
  {
    assert TimerRuns(s.store[r], s.now);
    hide Sound, Step;
    FiresIs(s, at);
  }

  lemma SessionLivesOn(s: State, e: Event, r: Ref)
    requires Sound(s) && Possible(s, e) && !e.Fires? && r in s.store
    ensures Step(s, e).Some?
    ensures var t := Step(s, e).value;
            && r in t.store && LivesOn(s.store[r], t.store[r])
            && t.deleted == s.deleted + [] && t.now >= s.now
  {
    assert TimerRuns(s.store[r], s.now);
    StepIsSafe(s, e);
    TriggeredLater(s, e, r);
  }

  lemma TriggeredLater(s: State, e: Event, r: Ref)
    requires r in s.store && TimerRuns(s.store[r], s.now) && !e.Fires? && Step(s, e).Some?
    requires (e.CreateSender? || e.CreateReceiver?) ==> e.at !in s.store
    ensures var t := Step(s, e).value;
            && r in t.store && LivesOn(s.store[r], t.store[r])
            && t.deleted == s.deleted + [] && t.now >= s.now
  {
    assert s.deleted + [] == s.deleted;
  }

  lemma ClockRuns(s: State, e: Event)
    requires Sound(s) && Possible(s, e) && Step(s, e).Some?
    ensures Step(s, e).value.now >= s.now
  {
    if e.Fires? {
      hide Sound, Step;
      FiresIs(s, e.at);
    }
  }

  /** The time never runs backwards. */
  lemma {:induction false} TimePasses(s: State, events: seq<Event>)
    requires Sound(s) && AllPossible(s, events)
    ensures Run(s, events).Some? && Run(s, events).value.now >= s.now
    decreases |events|
  {
    if events != [] {
      hide Sound, Step, Possible;
      StepIsSafe(s, events[0]);
      ClockRuns(s, events[0]);
      TimePasses(Step(s, events[0]).value, events[1..]);
    }
  }

  /** Before its deadline a sender that does not disconnect stays, whatever else happens. */
  lemma {:induction false} SenderStaysUntil(s: State, events: seq<Event>, t: Token, deadline: nat)
    requires Sound(s) && AllPossible(s, events) && t in s.senders && DisconnectSender(t) !in events
    requires s.senders[t] in s.store && s.store[s.senders[t]].deadline.Some?
    requires deadline <= s.store[s.senders[t]].deadline.value
    requires Run(s, events).Some? && Run(s, events).value.now < deadline
    ensures t in Run(s, events).value.senders
    decreases |events|
  {
    if events != [] {
      var e, r := events[0], s.senders[t];
      TimePasses(s, events);
      SenderLeavesExactlyWhen(s, e, t);
      SessionDeletedExactlyWhen(s, e, r);
      StepIsSafe(s, e);
      SenderStaysUntil(Step(s, e).value, events[1..], t, deadline);
    }
  }

  /** A sender that does not disconnect is kept for ten seconds after it was created or touched. */
  lemma SenderKeptTenSeconds(s: State, e: Event, events: seq<Event>, t: Token)
    requires Sound(s) && AllPossible(s, [e] + events) && DisconnectSender(t) !in events
    requires (e == TouchSender(t) && t in s.senders) || (e.CreateSender? && e.token == t)
    requires Run(s, [e] + events).Some? && Run(s, [e] + events).value.now < s.now + 10
    ensures t in Run(s, [e] + events).value.senders
  {
    assert ([e] + events)[1..] == events;
    StepIsSafe(s, e);
    var u := Step(s, e).value;
    if e.CreateSender? {
      NewIsSound(s, e.at, Session(Sender, t, e.appId, false, Some(s.now + TIMEOUT)));
    }
    SenderStaysUntil(u, events, t, s.now + 10);
  }

  /** The current receiver is dropped exactly when its application disconnects it or its own timer fires. */
  lemma ReceiverLeavesExactlyWhen(s: State, e: Event)
    requires Sound(s) && Possible(s, e) && s.receiver.Some? && s.receiver.value in s.store
    ensures Step(s, e).Some?
    ensures Step(s, e).value.receiver ==
              if e == DisconnectReceiver(s.store[s.receiver.value].appId) || e == Fires(s.receiver.value) then None
              else s.receiver
  {
    StepIsSafe(s, e);
    match e
    case Fires(at) => FiresIs(s, at);
    case _ =>
  }

  /** Before its deadline the receiver stays the current one unless its own application disconnects it. */
  lemma {:induction false} ReceiverStaysUntil(s: State, events: seq<Event>, deadline: nat)
    requires Sound(s) && AllPossible(s, events) && s.receiver.Some? && s.receiver.value in s.store
    requires DisconnectReceiver(s.store[s.receiver.value].appId) !in events
    requires s.store[s.receiver.value].deadline.Some? && deadline <= s.store[s.receiver.value].deadline.value
    requires Run(s, events).Some? && Run(s, events).value.now < deadline
    ensures Run(s, events).value.receiver == s.receiver
    decreases |events|
  {
    if events != [] {
      hide Sound, Step, Possible;
      var e, r := events[0], s.receiver.value;
      TimePasses(s, events);
      NotYet(s, e, r);
      ReceiverLeavesExactlyWhen(s, e);
      SessionsExactly(s, e, r);
      SessionDeletedExactlyWhen(s, e, r);
      StepIsSafe(s, e);
      ReceiverStaysUntil(Step(s, e).value, events[1..], deadline);
    }
  }

  lemma NotYet(s: State, e: Event, r: Ref)
    requires Possible(s, e) && r in s.store && s.store[r].deadline.Some? && s.now < s.store[r].deadline.value
    ensures e != Fires(r)
  {
  }

  /**
    A receiver that its own application does not disconnect is kept for ten seconds after it was
    created, or last touched by any application.
   */
  lemma ReceiverKeptTenSeconds(s: State, e: Event, events: seq<Event>)
    requires Sound(s) && AllPossible(s, [e] + events)
    requires (e.TouchReceiver? && s.receiver.Some?) || (e.CreateReceiver? && s.receiver == None)
    requires Run(s, [e] + events).Some? && Run(s, [e] + events).value.now < s.now + 10
    requires var appId := if e.CreateReceiver? then e.appId else s.store[s.receiver.value].appId;
             DisconnectReceiver(appId) !in events
    ensures Run(s, [e] + events).value.receiver == if e.CreateReceiver? then Some(e.at) else s.receiver
  {
    assert ([e] + events)[1..] == events;
    StepIsSafe(s, e);
    ManagerExactly(s, e, "");
    var t := Step(s, e).value;
    SessionsExactly(s, e, t.receiver.value);
    ReceiverStaysUntil(t, events, s.now + 10);
  }

  function Ticks(n: nat): (events: seq<Event>)
    ensures |events| == n
  {
    if n == 0 then [] else [Tick] + Ticks(n - 1)
  }

  lemma {:induction false} OnlyTime(s: State, n: nat)
    ensures Run(s, Ticks(n)) == Some(s.(now := s.now + n))
    decreases n
  {
    if n > 0 {
      assert Ticks(n)[1..] == Ticks(n - 1);
      OnlyTime(s.(now := s.now + 1), n - 1);
    }
  }

  /** And not longer: from ten seconds after the touch on the timer can fire, and then the session is gone. */
  lemma TimerFiresAfterTen(s: State, e: Event, r: Ref, n: nat)
    requires Sound(s) && Possible(s, e) && (Makes(s, e, r) || Restarts(s, e, r))
    ensures Run(s, [e] + Ticks(n)).Some?
    ensures var t := Run(s, [e] + Ticks(n)).value;
            && Sound(t) && (Possible(t, Fires(r)) <==> n >= 10)
            && (n >= 10 ==> Step(t, Fires(r)).Some? && r !in Step(t, Fires(r)).value.store)
  {
    assert ([e] + Ticks(n))[1..] == Ticks(n);
    StepIsSafe(s, e);
    SessionsExactly(s, e, r);
    HistoryExactly(s, e);
    var t := Step(s, e).value;
    OnlyTime(t, n);
    assert Sound(t.(now := t.now + n)) by { assert forall x :: x in t.store ==> TimerRuns(t.store[x], t.now + n); }
    if n >= 10 {
      SessionsExactly(t.(now := t.now + n), Fires(r), r);
    }
  }

  predicate Forgotten(s: State, at: Ref)
  {
    at in s.store && s.store[at].kind == Receiver && s.receiver != Some(at)
  }

  /**
    A receiver session that the manager has forgotten: whatever happens meanwhile, even a new
    receiver of the same application, its timeout disconnects and announces nothing.
   */
  lemma {:induction false} ForgottenReceiverIsHarmless(s: State, events: seq<Event>, at: Ref)
    requires Sound(s) && AllPossible(s, events) && Forgotten(s, at) && Fires(at) !in events
    ensures Run(s, events).Some?
    ensures var t := Run(s, events).value;
            at in t.store && Step(t, Fires(at)) == Some(Deleted(t, at))
    decreases |events|
  {
    if events == [] {
      FiresIs(s, at);
    } else {
      StepIsSafe(s, events[0]);
      SessionDeletedExactlyWhen(s, events[0], at);
      ForgottenStays(s, events[0], at);
      ForgottenReceiverIsHarmless(Step(s, events[0]).value, events[1..], at);
    }
  }

  lemma ForgottenStays(s: State, e: Event, at: Ref)
    requires Sound(s) && Possible(s, e) && Forgotten(s, at) && e != Fires(at)
    ensures Step(s, e).Some? && Forgotten(Step(s, e).value, at)
  {
    StepIsSafe(s, e);
    SessionDeletedExactlyWhen(s, e, at);
    match e
    case Fires(o) => FiresIs(s, o);
    case _ =>
  }

  /**
    At the end of every run each token that was ever generated belongs to exactly one session,
    which is either live or has been deleted, once; and its disconnect has been announced at most
    once, never while it is a sender.
   */
  lemma SessionsAreConserved(events: seq<Event>, t: Token)
    requires AllPossible(START, events)
    ensures Run(START, events).Some?
    ensures var s := Run(START, events).value;
            && (t in s.used <==> t in s.deleted || exists r :: Owns(s.store, r, t))
            && (t in s.deleted ==> multiset(s.deleted)[t] == 1 && !exists r :: Owns(s.store, r, t))
            && (forall r, o :: Owns(s.store, r, t) && Owns(s.store, o, t) ==> r == o)
            && Announcements(s.log, t) <= 1
            && (t in s.senders ==> Announcements(s.log, t) == 0)
  {
    RunIsSafe(START, events);
    var s := Run(START, events).value;
    if t in s.deleted {
      OnceIsOne(s.deleted, t);
    }
  }

  lemma OnceIsOne(q: seq<Token>, t: Token)
    requires Once(q) && t in q
    ensures multiset(q)[t] == 1
  {
    var i :| 0 <= i < |q| && q[i] == t;
    assert q == q[..i] + [t] + q[i + 1..];
    assert t !in q[..i] && t !in q[i + 1..];
    assert multiset(q) == multiset(q[..i]) + multiset{t} + multiset(q[i + 1..]);
  }

  /** What a listener has been told since it was set is always exactly who is connected. */
  lemma NoticesMirrorSenders(events: seq<Event>)
    requires AllPossible(START, events)
    ensures var s := Run(START, events);
            s.Some? && (s.value.listener.Some? ==> Mirror(s.value.log) == Some(s.value.senders.Keys))
  {
    RunIsSafe(START, events);
  }
}
