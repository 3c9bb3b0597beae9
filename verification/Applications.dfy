/**
  Which application runs. The manager and the applications call each other through signals, and
  an application deletes itself when it has stopped, possibly in the middle of the manager's own
  work. The heap is explicit, and a function that would use a deleted application gives Fault.
 */
module Applications {
  import opened Bytes

  type AppId = string
  type Ref = nat

  datatype AppState = Stopped | Starting | Running | Stopping

  /**
    An application. Its signals are connected when it is launched; launchable is whether the
    platform will manage to launch it, and mortal whether its life is limited.
   */
  datatype Application = Application(
    appId: AppId, useIpc: bool, launchable: bool, mortal: bool,
    appState: AppState, wsConnected: bool, connected: bool,
    startTimer: bool, stopTimer: bool, lifeTimer: bool)

  type Store = map<Ref, Application>

  /** The manager's fields, the heap, and the launches so far. */
  datatype State = State(top: Option<Ref>, starting: Option<Ref>, stopping: Option<Ref>, pending: seq<Ref>,
                         store: Store, launched: seq<Ref>)

  const START := State(None, None, None, [], map[], [])

  datatype Outcome = Done(state: State) | Fault

  // ---------------------------------------------------------------- the calls

  function Put(s: State, a: Ref, x: Application): (t: State)
    requires a in s.store
    ensures t.store.Keys == s.store.Keys
  {
    s.(store := s.store[a := x])
  }

  function LaunchApplication(s: State, a: Ref): Outcome
    decreases s.store.Keys, 12
  {
    if a !in s.store then Fault
    else
      var t := Put(s, a, s.store[a].(appState := Starting));
      if s.starting.Some? then
        if s.starting.value !in s.store then Fault
        else if s.store[s.starting.value].appId != s.store[a].appId then Done(t.(pending := t.pending + [a]))
        else Done(t)
      else if s.top.Some? then
        if s.top.value !in s.store then Fault
        else if s.store[s.top.value].appId != s.store[a].appId then StopApplication(t.(pending := t.pending + [a]))
        else Done(t)
      else if s.stopping.Some? then
        if s.stopping.value !in s.store then Fault else Done(t.(pending := t.pending + [a]))
      else DoLaunchApplication(t, a)
  }

  function DoLaunchApplication(s: State, a: Ref): Outcome
    decreases s.store.Keys, 11
  {
    if a !in s.store then Fault
    else
      var t := Put(s, a, s.store[a].(connected := true)).(starting := Some(a), launched := s.launched + [a]);
      if s.store[a].launchable then OnStarting(t, a) else StoppedSignal(t, a)
  }

  function OnStarting(s: State, a: Ref): Outcome
    decreases s.store.Keys, 10
  {
    if a !in s.store then Fault
    else
      var t := Put(s, a, s.store[a].(appState := Starting));
      if s.store[a].useIpc then Done(Put(t, a, t.store[a].(startTimer := true)))
      else
        match StartedSignal(t, a)
        case Fault => Fault
        case Done(u) =>
          if a !in u.store then Fault
          else if u.store[a].mortal then Done(Put(u, a, u.store[a].(lifeTimer := true)))
          else Done(u)
  }

  /** Application::started */
  function StartedSignal(s: State, a: Ref): Outcome
    decreases s.store.Keys, 9
  {
    if a !in s.store then Fault
    else
      var x := s.store[a];
      var t := Put(s, a, x.(startTimer := false, wsConnected := x.wsConnected || x.useIpc));
      if x.connected then OnAppStarted(t, a) else Done(t)
  }

  function OnAppStarted(s: State, a: Ref): Outcome
    decreases s.store.Keys, 8
  {
    if a !in s.store then Fault
    else
      var t := Put(s, a, s.store[a].(appState := Running)).(top := Some(a), starting := None);
      if t.pending != [] then StopApplication(t) else Done(t)
  }

  function StopApplication(s: State): Outcome
    decreases s.store.Keys, 7
  {
    if s.stopping.Some? then Done(s)
    else if s.top.Some? then
      match DoStopApplication(s, s.top.value)
      case Fault => Fault
      case Done(t) => Done(t.(top := None))
    else if s.starting.Some? then
      match DoStopApplication(s, s.starting.value)
      case Fault => Fault
      case Done(t) => Done(t.(starting := None))
    else Done(s)
  }

  function DoStopApplication(s: State, a: Ref): Outcome
    decreases s.store.Keys, 6
  {
    if a !in s.store then Fault else OnStopping(s.(stopping := Some(a)), a)
  }

  function OnStopping(s: State, a: Ref): Outcome
    decreases s.store.Keys, 5
  {
    if a !in s.store then Fault
    else
      var t := Put(s, a, s.store[a].(appState := Stopping));
      if s.store[a].useIpc && s.store[a].wsConnected then Done(Put(t, a, t.store[a].(stopTimer := true)))
      else StoppedSignal(t, a)
  }

  /** Application::stopped */
  function StoppedSignal(s: State, a: Ref): Outcome
    decreases s.store.Keys, 4
  {
    if a !in s.store then Fault
    else
      var t := Put(s, a, s.store[a].(stopTimer := false));
      if s.store[a].connected then OnAppStopped(t, a) else Done(t)
  }

  /** The application deletes itself, and the next one in the queue is launched. */
  function OnAppStopped(s: State, a: Ref): Outcome
    decreases s.store.Keys, 3
  {
    if a !in s.store then Fault
    else
      var t := s.(store := s.store - {a}, stopping := None);
      if s.pending == [] then Done(t)
      else
        assert t.store.Keys < s.store.Keys by { assert a in s.store.Keys && a !in t.store.Keys; }
        LaunchApplication(t.(pending := s.pending[1..]), s.pending[0])
  }

  // ---------------------------------------------------------------- events

  datatype Event =
    | LaunchRequested(a: Ref, app: Application)
    | StopRequested
    | Registers(a: Ref)
    | StartTimesOut(a: Ref)
    | StopTimesOut(a: Ref)
    | LifeTimesOut(a: Ref)
    | ReceiverCloses(appId: AppId)

  function AliveApplication(s: State): Option<Ref>
  {
    if s.top.Some? then s.top
    else if s.starting.Some? then s.starting
    else if s.pending != [] then Some(s.pending[0])
    else None
  }

  predicate Fresh(x: Application)
  {
    x.appState == Stopped && !x.wsConnected && !x.connected && !x.startTimer && !x.stopTimer && !x.lifeTimer
  }

  predicate Possible(s: State, e: Event)
  {
    match e
    case LaunchRequested(a, app) => a !in s.store && Fresh(app)
    case StopRequested => true
    case Registers(a) => AliveApplication(s) == Some(a) && a in s.store && s.store[a].useIpc
    case StartTimesOut(a) => a in s.store && s.store[a].startTimer
    case StopTimesOut(a) => a in s.store && s.store[a].stopTimer
    case LifeTimesOut(a) => a in s.store && s.store[a].lifeTimer
    case ReceiverCloses(_) => true
  }

  /** The signal DoAppStop of a timer that has run out. */
  function AsksToStop(s: State, a: Ref): Outcome
  {
    if a !in s.store then Fault else if s.store[a].connected then StopApplication(s) else Done(s)
  }

  /** The receiver's connection is gone: its application, or whichever is next to stop, has stopped. */
  function ReceiverClosed(s: State, appId: AppId): Outcome
  {
    if s.stopping.Some? && s.stopping.value !in s.store then Fault
    else if s.stopping.Some? && s.store[s.stopping.value].appId == appId then StoppedSignal(s, s.stopping.value)
    else
      match StopApplication(s)
      case Fault => Fault
      case Done(t) => if t.stopping.Some? then StoppedSignal(t, t.stopping.value) else Done(t)
  }

  function Step(s: State, e: Event): Outcome
  {
    match e
    case LaunchRequested(a, app) => LaunchApplication(s.(store := s.store[a := app]), a)
    case StopRequested => StopApplication(s)
    case Registers(a) => StartedSignal(s, a)
    case StartTimesOut(a) => AsksToStop(s, a)
    case StopTimesOut(a) => StoppedSignal(s, a)
    case LifeTimesOut(a) => AsksToStop(s, a)
    case ReceiverCloses(appId) => ReceiverClosed(s, appId)
  }

  // ---------------------------------------------------------------- between events

  predicate TopSound(x: Application)
  {
    x.connected && x.appState == Running && (x.useIpc ==> x.wsConnected) && !x.stopTimer
  }

  predicate StartingSound(x: Application)
  {
    x.connected && x.appState == Starting && x.useIpc && x.startTimer && !x.stopTimer
  }

  predicate StoppingSound(x: Application)
  {
    x.connected && x.appState == Stopping && x.useIpc && x.wsConnected && x.stopTimer
  }

  predicate PendingSound(x: Application) { !x.connected && x.appState == Starting && !x.stopTimer }

  /** An application that is not in charge has never been launched. */
  predicate OthersIdle(s: State)
  {
    forall a :: a in s.store && Some(a) != s.top && Some(a) != s.starting && Some(a) != s.stopping ==>
      !s.store[a].connected && !s.store[a].stopTimer && !s.store[a].startTimer
  }

  predicate AtMostOne(s: State)
  {
    && (s.top.Some? ==> s.starting == None && s.stopping == None)
    && (s.starting.Some? ==> s.stopping == None)
  }

  predicate Once(q: seq<Ref>) { forall i, j :: 0 <= i < j < |q| ==> q[i] != q[j] }

  predicate QueueSound(q: seq<Ref>, store: Store)
  {
    Once(q) && forall a :: a in q ==> a in store && PendingSound(store[a])
  }

  /**
    At most one application is in charge; an application that starts or stops has its timer
    running, and nothing waits in the queue without one that starts or stops.
   */
  predicate Quiet(s: State)
  {
    && AtMostOne(s)
    && (s.top.Some? ==> s.top.value in s.store && TopSound(s.store[s.top.value]))
    && (s.starting.Some? ==> s.starting.value in s.store && StartingSound(s.store[s.starting.value]))
    && (s.stopping.Some? ==> s.stopping.value in s.store && StoppingSound(s.store[s.stopping.value]))
    && QueueSound(s.pending, s.store)
    && (s.pending != [] ==> s.starting.Some? || s.stopping.Some?)
    && OthersIdle(s)
  }

  // ---------------------------------------------------------------- what the calls come to

  /** The state once a stopped application has deleted itself and the next one has been launched. */
  function AfterStop(s: State, a: Ref): Outcome
    requires a in s.store
  {
    var t := s.(store := s.store - {a}, stopping := None);
    if s.pending == [] then Done(t) else LaunchApplication(t.(pending := s.pending[1..]), s.pending[0])
  }

  lemma StoppedIs(s: State, a: Ref)
    requires a in s.store && s.store[a].connected
    ensures StoppedSignal(s, a) == AfterStop(s, a)
  {
    var x := s.store[a].(stopTimer := false);
    assert s.store[a := x] - {a} == s.store - {a};
  }

  function Parked(s: State, a: Ref): State
    requires a in s.store
  {
    Put(s, a, s.store[a].(appState := Stopping, stopTimer := true))
  }

  lemma DoStopIs(s: State, a: Ref)
    requires a in s.store && s.store[a].connected
    ensures DoStopApplication(s, a) ==
              if s.store[a].useIpc && s.store[a].wsConnected then Done(Parked(s, a).(stopping := Some(a)))
              else AfterStop(s, a)
  {
    hide LaunchApplication, StoppedSignal;
    var x := s.store[a].(appState := Stopping);
    var t := Put(s, a, x).(stopping := Some(a));
    if s.store[a].useIpc && s.store[a].wsConnected {
      assert s.store[a := x][a := x.(stopTimer := true)] == s.store[a := x.(stopTimer := true)];
    } else {
      StoppedIs(t, a);
      assert s.store[a := x] - {a} == s.store - {a};
    }
  }

  lemma StartsLater(s: State, a: Ref)
    requires a in s.store && s.store[a].useIpc && s.store[a].appState == Starting
    ensures OnStarting(s, a) == Done(Put(s, a, s.store[a].(startTimer := true)))
  {
    assert s.store[a := s.store[a]] == s.store;
  }

  /** With nobody in charge, an application is launched; it then starts, runs or is gone again. */
  lemma LaunchIs(s: State, a: Ref)
    requires s.top == s.starting == s.stopping == None && a in s.store && !s.store[a].stopTimer
    ensures var x := s.store[a].(appState := Starting, connected := true);
            var t := Put(s, a, x).(starting := Some(a), launched := s.launched + [a]);
            LaunchApplication(s, a) ==
              if !x.launchable then AfterStop(t, a)
              else if x.useIpc then Done(Put(t, a, x.(startTimer := true)))
              else OnStarting(t, a)
  {
    var y := s.store[a].(appState := Starting);
    var x := y.(connected := true);
    assert s.store[a := y][a := x] == s.store[a := x];
    var t := Put(s, a, x).(starting := Some(a), launched := s.launched + [a]);
    assert LaunchApplication(s, a) == DoLaunchApplication(Put(s, a, y), a);
    if !x.launchable {
      StoppedIs(t, a);
    } else if x.useIpc {
      StartsLater(t, a);
    }
  }

  /** A non-IPC application runs at once. */
  lemma StartsAtOnce(s: State, a: Ref)
    requires a in s.store && s.store[a].connected && !s.store[a].useIpc
    requires s.pending == []
    ensures var x := s.store[a].(appState := Running, startTimer := false);
            OnStarting(s, a) ==
              Done(Put(s, a, if x.mortal then x.(lifeTimer := true) else x).(top := Some(a), starting := None))
  {
    hide StartedSignal, OnAppStarted;
    var x := s.store[a].(appState := Starting);
    var z := x.(startTimer := false, appState := Running);
    SignalsAtOnce(Put(s, a, x), a);
    OverwriteTwice(s.store, a, x, z, z.(lifeTimer := true));
  }

  lemma OverwriteTwice(store: Store, a: Ref, x: Application, y: Application, z: Application)
    ensures store[a := x][a := y] == store[a := y] && store[a := y][a := z] == store[a := z]
  {
  }

  lemma SignalsAtOnce(s: State, a: Ref)
    requires a in s.store && s.store[a].connected && !s.store[a].useIpc && s.pending == []
    ensures StartedSignal(s, a) ==
              Done(Put(s, a, s.store[a].(startTimer := false, appState := Running)).(top := Some(a), starting := None))
  {
    hide StopApplication;
    var y := s.store[a].(startTimer := false);
    OverwriteTwice(s.store, a, y, y.(appState := Running), y);
    assert StartedSignal(s, a) == OnAppStarted(Put(s, a, y), a);
  }

  // ---------------------------------------------------------------- exactly when a call goes wrong

  predicate Good(o: Outcome) { o.Done? && Quiet(o.state) }

  /** What has been launched and what waits, in order. */
  function Line(s: State): seq<Ref> { s.launched + s.pending }

  /** No application is added, and none changes its nature. */
  predicate Kept(before: Store, after: Store)
  {
    forall a :: a in after ==> a in before && Alike(before[a], after[a])
  }

  predicate Alike(x: Application, y: Application)
  {
    x.appId == y.appId && x.useIpc == y.useIpc && x.launchable == y.launchable && x.mortal == y.mortal
  }

  /** An application that never registered is stopped while others wait. */
  predicate StopRisky(s: State)
  {
    s.stopping == None && s.top == None && s.starting.Some? && s.starting.value in s.store
    && !s.store[s.starting.value].wsConnected && s.pending != []
  }

  /** The next one in the queue cannot be launched, or needs no registration and has others behind it. */
  predicate PopRisky(s: State)
  {
    s.pending != [] && s.pending[0] in s.store &&
    (!s.store[s.pending[0]].launchable || (!s.store[s.pending[0]].useIpc && |s.pending| > 1))
  }

  /** The manager still points to the application that is gone when it launches the next. */
  lemma StillPointsThere(s: State, a: Ref)
    requires a in s.store && s.pending != []
    requires s.starting == Some(a) || (s.starting == None && s.top == Some(a))
    ensures AfterStop(s, a) == Fault
  {
  }

  lemma RunsAndFaults(s: State, a: Ref)
    requires a in s.store && s.store[a].connected && !s.store[a].useIpc && s.stopping == None
    requires s.pending != []
    ensures OnStarting(s, a) == Fault
  {
    var x := s.store[a].(appState := Starting);
    var y := x.(startTimer := false);
    var z := y.(appState := Running);
    var t := Put(s, a, x);
    var u := Put(Put(t, a, y), a, z).(top := Some(a), starting := None);
    DoStopIs(u, a);
    StillPointsThere(u.(stopping := Some(a)), a);
    assert OnAppStarted(Put(t, a, y), a) == StopApplication(u);
    assert StartedSignal(t, a) == OnAppStarted(Put(t, a, y), a);
  }

  /** Nobody in charge, and nobody but those that wait and p. */
  predicate IdleBefore(s: State, p: Ref)
  {
    && s.top == s.starting == s.stopping == None
    && QueueSound(s.pending, s.store)
    && p !in s.pending && p in s.store
    && NeverLaunched(s.store)
  }

  predicate NeverLaunched(store: Store)
  {
    forall a :: a in store ==> !store[a].connected && !store[a].stopTimer && !store[a].startTimer
  }

  /** One more application has been launched, and the queue is as it was. */
  predicate Launched(s: State, p: Ref, t: State) { t.launched == s.launched + [p] && t.pending == s.pending }

  /** Launching with nobody in charge goes well exactly when the platform launches it, and it registers or is alone. */
  lemma LaunchesWhenIdle(s: State, p: Ref)
    requires IdleBefore(s, p)
    ensures Good(LaunchApplication(s, p)) <==> s.store[p].launchable && (s.store[p].useIpc || s.pending == [])
    ensures Good(LaunchApplication(s, p)) ==> Launched(s, p, LaunchApplication(s, p).state)
    ensures Good(LaunchApplication(s, p)) ==> Kept(s.store, LaunchApplication(s, p).state.store)
  {
    if !s.store[p].launchable {
      FailsWhenIdle(s, p);
    } else if s.store[p].useIpc {
      StartsWhenIdle(s, p);
    } else {
      RunsWhenIdle(s, p);
    }
  }

  lemma FailsWhenIdle(s: State, p: Ref)
    requires IdleBefore(s, p) && !s.store[p].launchable
    ensures !Good(LaunchApplication(s, p))
  {
    LaunchIs(s, p);
    var x := s.store[p].(appState := Starting, connected := true);
    if s.pending != [] {
      StillPointsThere(Put(s, p, x).(starting := Some(p), launched := s.launched + [p]), p);
    }
  }

  lemma StartsWhenIdle(s: State, p: Ref)
    requires IdleBefore(s, p) && s.store[p].launchable && s.store[p].useIpc
    ensures Good(LaunchApplication(s, p))
    ensures Launched(s, p, LaunchApplication(s, p).state)
    ensures Kept(s.store, LaunchApplication(s, p).state.store)
  {
    hide LaunchApplication, OnStarting, AfterStop, Quiet, Kept;
    LaunchIs(s, p);
    StartsInFront(s, p, LaunchApplication(s, p).state);
  }

  lemma StartsInFront(s: State, p: Ref, u: State)
    requires IdleBefore(s, p) && u.pending == s.pending
    requires u.starting == Some(p) && u.top == u.stopping == None && u.launched == s.launched + [p]
    requires u.store.Keys == s.store.Keys && forall a :: a in s.store && a != p ==> u.store[a] == s.store[a]
    requires StartingSound(u.store[p]) && Alike(s.store[p], u.store[p])
    ensures Quiet(u) && Launched(s, p, u) && Kept(s.store, u.store)
  {
  }

  lemma RunsWhenIdle(s: State, p: Ref)
    requires IdleBefore(s, p) && s.store[p].launchable && !s.store[p].useIpc
    ensures Good(LaunchApplication(s, p)) <==> s.pending == []
    ensures s.pending == [] ==> Launched(s, p, LaunchApplication(s, p).state)
    ensures s.pending == [] ==> Kept(s.store, LaunchApplication(s, p).state.store)
  {
    hide LaunchApplication, OnStarting, Quiet;
    LaunchIs(s, p);
    var x := s.store[p].(appState := Starting, connected := true);
    var t := Put(s, p, x).(starting := Some(p), launched := s.launched + [p]);
    if s.pending == [] {
      StartsAtOnce(t, p);
      RunsAlone(s, p, OnStarting(t, p).state);
    } else {
      RunsAndFaults(t, p);
    }
  }

  lemma RunsAlone(s: State, p: Ref, u: State)
    requires IdleBefore(s, p) && s.pending == u.pending == []
    requires u.top == Some(p) && u.starting == u.stopping == None && u.launched == s.launched + [p]
    requires u.store.Keys == s.store.Keys && forall a :: a in s.store && a != p ==> u.store[a] == s.store[a]
    requires TopSound(u.store[p]) && Alike(s.store[p], u.store[p])
    ensures Quiet(u) && Launched(s, p, u) && Kept(s.store, u.store)
  {
  }

  /** When the stopping application has stopped, exactly the next one in the queue is launched. */
  lemma StoppedExactly(s: State, a: Ref)
    requires Quiet(s) && s.stopping == Some(a)
    ensures Good(StoppedSignal(s, a)) <==> !PopRisky(s)
    ensures Good(StoppedSignal(s, a)) ==> Line(StoppedSignal(s, a).state) == Line(s)
    ensures Good(StoppedSignal(s, a)) && s.pending != [] ==>
              Launched(s.(pending := s.pending[1..]), s.pending[0], StoppedSignal(s, a).state)
    ensures Good(StoppedSignal(s, a)) ==> Kept(s.store, StoppedSignal(s, a).state.store)
  {
    hide LaunchApplication, StoppedSignal;
    StoppedIs(s, a);
    var t := s.(store := s.store - {a}, stopping := None);
    if s.pending != [] {
      var p, rest := s.pending[0], s.pending[1..];
      assert s.pending == [p] + rest;
      assert IdleBefore(t.(pending := rest), p);
      LaunchesWhenIdle(t.(pending := rest), p);
      assert s.launched + [p] + rest == s.launched + s.pending;
    }
  }

  /** Somebody is stopping, or is in charge and has registered: it has to say when it has stopped. */
  predicate StopsLater(s: State)
    requires Quiet(s)
  {
    || s.stopping.Some?
    || (s.top.Some? && s.store[s.top.value].useIpc)
    || (s.starting.Some? && s.store[s.starting.value].wsConnected)
  }

  /** Stopping goes well unless an unregistered application would leave others behind. */
  lemma StopExactly(s: State)
    requires Quiet(s)
    ensures Good(StopApplication(s)) <==> !StopRisky(s)
    ensures StopRisky(s) ==> StopApplication(s) == Fault
    ensures Good(StopApplication(s)) ==> Kept(s.store, StopApplication(s).state.store)
    ensures Good(StopApplication(s)) ==> Line(StopApplication(s).state) == Line(s)
    ensures Good(StopApplication(s)) ==>
              var u := StopApplication(s).state;
              && u.pending == s.pending && u.top == None
              && (u.stopping.Some? <==> StopsLater(s))
  {
    if s.stopping == None {
      if s.top.Some? {
        DoStopIs(s, s.top.value);
      } else if s.starting.Some? {
        DoStopIs(s, s.starting.value);
        if s.pending != [] && !s.store[s.starting.value].wsConnected {
          StillPointsThere(s, s.starting.value);
        }
      }
    }
  }

  /** A request is accepted unless the same application starts or runs already. */
  predicate Accepts(s: State, appId: AppId)
    requires Quiet(s)
  {
    && (s.starting.Some? ==> s.store[s.starting.value].appId != appId)
    && (s.top.Some? ==> s.store[s.top.value].appId != appId)
  }

  /** A running application that needs no registration is in the way, or the platform cannot launch it. */
  predicate LaunchRisky(s: State, app: Application)
    requires Quiet(s)
  {
    || (s.top.Some? && s.store[s.top.value].appId != app.appId && !s.store[s.top.value].useIpc)
    || (s.top == s.starting == s.stopping == None && !app.launchable)
  }

  lemma LaunchExactly(s: State, a: Ref, app: Application)
    requires Quiet(s) && a !in s.store && Fresh(app)
    ensures var o := Step(s, LaunchRequested(a, app));
            && (Good(o) <==> !LaunchRisky(s, app))
            && (Good(o) ==> Line(o.state) == Line(s) + (if Accepts(s, app.appId) then [a] else []))
            && (Good(o) ==> Kept(s.store[a := app], o.state.store))
  {
    hide LaunchApplication, StopApplication, Quiet, Fresh;
    if NobodyInCharge(s) {
      LaunchWhenNobody(s, a, app);
    } else {
      LaunchBranch(s, a, app);
      var u := s.(store := s.store[a := app.(appState := Starting)]);
      Lengthens(s, a);
      QueueGrows(s, a, app, u);
      if s.starting == None && s.top.Some? && Accepts(s, app.appId) {
        TopMakesWay(s, a, app, u);
      }
    }
  }

  predicate NobodyInCharge(s: State) { s.top == s.starting == s.stopping == None }

  lemma Lengthens(s: State, a: Ref)
    ensures Line(s) + [] == Line(s) && s.launched + (s.pending + [a]) == Line(s) + [a]
  {
  }

  /** With somebody in charge, a request waits or is ignored, and a running application is told to stop. */
  lemma LaunchBranch(s: State, a: Ref, app: Application)
    requires Quiet(s) && a !in s.store && Fresh(app) && !NobodyInCharge(s)
    ensures var u := s.(store := s.store[a := app.(appState := Starting)]);
            LaunchApplication(s.(store := s.store[a := app]), a) ==
              if !Accepts(s, app.appId) then Done(u)
              else if s.top.Some? then StopApplication(u.(pending := u.pending + [a]))
              else Done(u.(pending := u.pending + [a]))
  {
    hide StopApplication, DoLaunchApplication;
    var t := s.(store := s.store[a := app]);
    assert t.store[a := app.(appState := Starting)] == s.store[a := app.(appState := Starting)];
  }

  lemma LaunchWhenNobody(s: State, a: Ref, app: Application)
    requires Quiet(s) && a !in s.store && Fresh(app) && s.top == s.starting == s.stopping == None
    ensures var o := LaunchApplication(s.(store := s.store[a := app]), a);
            && (Good(o) <==> app.launchable)
            && (Good(o) ==> Line(o.state) == Line(s) + [a] && Kept(s.store[a := app], o.state.store))
  {
    hide LaunchApplication;
    assert s.launched + [a] + [] == Line(s) + [a];
    LaunchesWhenIdle(s.(store := s.store[a := app]), a);
  }

  /** The running application is stopped for the only one in the queue. */
  lemma TopMakesWay(s: State, a: Ref, app: Application, u: State)
    requires Quiet(s) && a !in s.store && Fresh(app) && s.top.Some?
    requires u == s.(store := s.store[a := app.(appState := Starting)])
    ensures var o := StopApplication(u.(pending := u.pending + [a]));
            && (Good(o) <==> s.store[s.top.value].useIpc)
            && (Good(o) ==> Line(o.state) == s.launched + (s.pending + [a]) && Kept(u.store, o.state.store))
  {
    var q := u.(pending := u.pending + [a]);
    DoStopIs(q, s.top.value);
    if !s.store[s.top.value].useIpc {
      StillPointsThere(q, s.top.value);
    }
  }

  lemma QueueGrows(s: State, a: Ref, app: Application, u: State)
    requires Quiet(s) && a !in s.store && Fresh(app)
    requires u == s.(store := s.store[a := app.(appState := Starting)])
    ensures Quiet(u) && Kept(s.store[a := app], u.store)
    ensures s.starting.Some? || s.stopping.Some? ==> Quiet(u.(pending := u.pending + [a]))
    ensures s.starting.Some? ==> s.top == None
  {
  }

  /** Registering always goes well; with others waiting, the application is stopped at once. */
  lemma RegistersExactly(s: State, a: Ref)
    requires Quiet(s) && Possible(s, Registers(a))
    ensures Good(StartedSignal(s, a))
    ensures Line(StartedSignal(s, a).state) == Line(s)
    ensures Kept(s.store, StartedSignal(s, a).state.store)
  {
    var x := s.store[a].(startTimer := false, wsConnected := true);
    var t := Put(s, a, x);
    if x.connected {
      RegistersInCharge(s, a, t);
    }
  }

  lemma RegistersInCharge(s: State, a: Ref, t: State)
    requires Quiet(s) && Possible(s, Registers(a)) && s.store[a].connected
    requires t == Put(s, a, s.store[a].(startTimer := false, wsConnected := true))
    ensures Good(OnAppStarted(t, a))
    ensures Line(OnAppStarted(t, a).state) == Line(s)
    ensures Kept(s.store, OnAppStarted(t, a).state.store)
  {
    hide StopApplication;
    var u := Put(t, a, t.store[a].(appState := Running)).(top := Some(a), starting := None);
    assert OnAppStarted(t, a) == if s.pending != [] then StopApplication(u) else Done(u);
    if s.pending == [] {
      NowRunning(s, a, u);
    } else {
      WaitsOnlyBehindStarting(s, a);
      StopsForOthers(s, a, u);
    }
  }

  lemma WaitsOnlyBehindStarting(s: State, a: Ref)
    requires Quiet(s) && Possible(s, Registers(a)) && s.store[a].connected && s.pending != []
    ensures s.stopping == None && s.starting == Some(a) && s.top == None
  {
  }

  lemma NowRunning(s: State, a: Ref, u: State)
    requires Quiet(s) && Possible(s, Registers(a)) && s.store[a].connected && s.pending == []
    requires u.top == Some(a) && u.starting == None && u.stopping == s.stopping
    requires u.pending == s.pending && u.launched == s.launched
    requires u.store.Keys == s.store.Keys && forall b :: b in s.store && b != a ==> u.store[b] == s.store[b]
    requires u.store[a] == s.store[a].(startTimer := false, wsConnected := true, appState := Running)
    ensures Quiet(u) && Line(u) == Line(s) && Kept(s.store, u.store)
  {
  }

  lemma StopsForOthers(s: State, a: Ref, u: State)
    requires Quiet(s) && Possible(s, Registers(a)) && s.store[a].connected && s.pending != []
    requires u.top == Some(a) && u.starting == None && u.stopping == s.stopping
    requires u.pending == s.pending && u.launched == s.launched
    requires u.store.Keys == s.store.Keys && forall b :: b in s.store && b != a ==> u.store[b] == s.store[b]
    requires s.stopping == None && s.starting == Some(a)
    requires u.store[a] == s.store[a].(startTimer := false, wsConnected := true, appState := Running)
    ensures Good(StopApplication(u)) && Line(StopApplication(u).state) == Line(s)
    ensures Kept(s.store, StopApplication(u).state.store)
  {
    hide DoStopApplication, Quiet;
    DoStopIs(u, a);
    StopTop(u, a);
    NowStopping(s, a, Parked(u, a).(stopping := Some(a), top := None));
  }

  lemma StopTop(u: State, a: Ref)
    requires u.stopping == None && u.top == Some(a) && a in u.store
    requires DoStopApplication(u, a) == Done(Parked(u, a).(stopping := Some(a)))
    ensures StopApplication(u) == Done(Parked(u, a).(stopping := Some(a), top := None))
  {
    hide DoStopApplication;
  }

  lemma NowStopping(s: State, a: Ref, u: State)
    requires Quiet(s) && Possible(s, Registers(a)) && s.store[a].connected && s.pending != []
    requires u.top == u.starting == None && u.stopping == Some(a)
    requires u.pending == s.pending && u.launched == s.launched
    requires u.store.Keys == s.store.Keys && forall b :: b in s.store && b != a ==> u.store[b] == s.store[b]
    requires StoppingSound(u.store[a]) && Alike(s.store[a], u.store[a])
    ensures Quiet(u) && Line(u) == Line(s) && Kept(s.store, u.store)
  {
  }

  // ---------------------------------------------------------------- every event, and every run

  predicate Risky(s: State, e: Event)
    requires Quiet(s) && Possible(s, e)
  {
    match e
    case LaunchRequested(_, app) => LaunchRisky(s, app)
    case StopRequested => StopRisky(s)
    case Registers(_) => false
    case StartTimesOut(_) => StopRisky(s)
    case StopTimesOut(_) => PopRisky(s)
    case LifeTimesOut(a) => s.store[a].connected && StopRisky(s)
    case ReceiverCloses(_) => if StopsLater(s) then PopRisky(s) else StopRisky(s)
  }

  function Requested(s: State, e: Event): seq<Ref>
    requires Quiet(s)
  {
    if e.LaunchRequested? && Accepts(s, e.app.appId) then [e.a] else []
  }

  /**
    Between events, at most one application is in charge and nobody is stranded in the queue. An
    event keeps this, and the order of the queue, exactly when it is not a risky one.
   */
  lemma StepExactly(s: State, e: Event)
    requires Quiet(s) && Possible(s, e)
    ensures Good(Step(s, e)) <==> !Risky(s, e)
    ensures Good(Step(s, e)) ==> Line(Step(s, e).state) == Line(s) + Requested(s, e)
    ensures Good(Step(s, e)) ==>
              Kept(if e.LaunchRequested? then s.store[e.a := e.app] else s.store, Step(s, e).state.store)
  {
    assert Line(s) + [] == Line(s);
    match e
    case LaunchRequested(a, app) => LaunchExactly(s, a, app);
    case StopRequested => StopExactly(s);
    case Registers(a) => RegistersExactly(s, a);
    case StartTimesOut(_) => StopExactly(s);
    case StopTimesOut(a) => StoppedExactly(s, a);
    case LifeTimesOut(a) => StopExactly(s);
    case ReceiverCloses(appId) => ReceiverClosesExactly(s, appId);
  }

  lemma ReceiverClosesExactly(s: State, appId: AppId)
    requires Quiet(s)
    ensures var o := ReceiverClosed(s, appId);
            && (Good(o) <==> if StopsLater(s) then !PopRisky(s) else !StopRisky(s))
            && (Good(o) ==> Line(o.state) == Line(s) && Kept(s.store, o.state.store))
  {
    StopExactly(s);
    if s.stopping.Some? && s.store[s.stopping.value].appId == appId {
      StoppedExactly(s, s.stopping.value);
    } else if Good(StopApplication(s)) {
      var t := StopApplication(s).state;
      if t.stopping.Some? {
        StoppedExactly(t, t.stopping.value);
        assert PopRisky(t) <==> PopRisky(s);
      }
    }
  }

  // ---------------------------------------------------------------- what each event comes to

  /** The one in charge has registered and is asked to stop: it stays until it says that it has. */
  predicate Parks(s: State, a: Ref, t: State)
  {
    && a in s.store
    && t == State(None, None, Some(a), s.pending,
                  s.store[a := s.store[a].(appState := Stopping, stopTimer := true)], s.launched)
  }

  /** The one in charge is gone, and the first in the queue, if there is one, starts, or runs at once and alone. */
  predicate GivesWay(s: State, a: Ref, t: State)
  {
    if s.pending == [] then t == State(None, None, None, [], s.store - {a}, s.launched)
    else
      var p := s.pending[0];
      && p in s.store
      && if s.store[p].useIpc then
           t == State(None, Some(p), None, s.pending[1..],
                      (s.store - {a})[p := s.store[p].(appState := Starting, connected := true, startTimer := true)],
                      s.launched + [p])
         else
           t == State(Some(p), None, None, [],
                      (s.store - {a})[p := s.store[p].(appState := Running, connected := true, startTimer := false,
                                                       lifeTimer := s.store[p].lifeTimer || s.store[p].mortal)],
                      s.launched + [p])
  }

  lemma AfterStopGivesWay(s: State, a: Ref)
    requires a in s.store && s.top == s.starting == None && QueueSound(s.pending, s.store) && a !in s.pending
    requires !PopRisky(s)
    ensures AfterStop(s, a).Done? && GivesWay(s, a, AfterStop(s, a).state)
  {
    hide LaunchApplication, OnStarting;
    if s.pending != [] {
      var p := s.pending[0];
      assert p in s.store && PendingSound(s.store[p]) && p != a;
      var t := s.(store := s.store - {a}, stopping := None, pending := s.pending[1..]);
      LaunchIs(t, p);
      var x := t.store[p].(appState := Starting, connected := true);
      var u := Put(t, p, x).(starting := Some(p), launched := t.launched + [p]);
      if x.useIpc {
        OverwriteTwice(t.store, p, x, x.(startTimer := true), x);
      } else {
        StartsAtOnce(u, p);
        var y := x.(appState := Running, startTimer := false);
        OverwriteTwice(t.store, p, x, if y.mortal then y.(lifeTimer := true) else y, y);
      }
    }
  }

  /** Whoever is running or starting. */
  function InCharge(s: State): Option<Ref> { if s.top.Some? then s.top else s.starting }

  /** A stop does nothing while somebody stops already, or with nobody in charge. */
  lemma StopComesTo(s: State)
    requires Quiet(s) && !StopRisky(s)
    ensures StopApplication(s).Done?
    ensures var a, t := InCharge(s), StopApplication(s).state;
            if s.stopping.Some? || a == None then t == s
            else
              && a.value in s.store
              && if s.store[a.value].useIpc && s.store[a.value].wsConnected then Parks(s, a.value, t)
                 else GivesWay(s, a.value, t)
  {
    hide LaunchApplication, DoStopApplication;
    if s.stopping == None && InCharge(s).Some? {
      DoStopIs(s, InCharge(s).value);
    }
  }

  /**
    A request to stop, and the timers of an application that takes too long to start or lives too
    long. A timer of the one in charge is the only one that counts.
   */
  lemma StoppingComesTo(s: State, e: Event)
    requires Quiet(s) && Possible(s, e) && !StopRisky(s)
    requires e.StopRequested? || ((e.StartTimesOut? || e.LifeTimesOut?) && s.store[e.a].connected)
    ensures Step(s, e).Done?
    ensures var a, t := InCharge(s), Step(s, e).state;
            && (!e.StopRequested? ==> s.stopping == Some(e.a) || a == Some(e.a))
            && if s.stopping.Some? || a == None then t == s
               else
                 && a.value in s.store
                 && if s.store[a.value].useIpc && s.store[a.value].wsConnected then Parks(s, a.value, t)
                    else GivesWay(s, a.value, t)
  {
    StopComesTo(s);
  }

  /** An application that was never launched has no timer that counts. */
  lemma IdleTimersDoNothing(s: State, a: Ref)
    requires Quiet(s) && a in s.store && !s.store[a].connected
    ensures Step(s, LifeTimesOut(a)) == Done(s)
    ensures !s.store[a].startTimer && !s.store[a].stopTimer
  {
  }

  /** The stop timer is that of the stopping application, which is gone at last. */
  lemma StopTimeoutComesTo(s: State, a: Ref)
    requires Quiet(s) && Possible(s, StopTimesOut(a)) && !PopRisky(s)
    ensures s.stopping == Some(a) && a in s.store
    ensures Step(s, StopTimesOut(a)).Done? && GivesWay(s, a, Step(s, StopTimesOut(a)).state)
  {
    StopsWhatStops(s, a);
    StoppingGivesWay(s, a);
  }

  lemma StopsWhatStops(s: State, a: Ref)
    requires Quiet(s) && Possible(s, StopTimesOut(a))
    ensures s.stopping == Some(a) && a in s.store
  {
  }

  lemma StoppingGivesWay(s: State, a: Ref)
    requires Quiet(s) && s.stopping == Some(a) && !PopRisky(s)
    ensures a in s.store && StoppedSignal(s, a).Done? && GivesWay(s, a, StoppedSignal(s, a).state)
  {
    hide LaunchApplication, StoppedSignal;
    StoppedIs(s, a);
    AfterStopGivesWay(s, a);
  }

  /** Whoever runs, starts or stops is gone once its connection is, and the first in the queue follows. */
  lemma ReceiverClosesComesTo(s: State, appId: AppId)
    requires Quiet(s) && !Risky(s, ReceiverCloses(appId))
    ensures var o := Step(s, ReceiverCloses(appId));
            var a := if s.stopping.Some? then s.stopping else InCharge(s);
            o.Done? && if a == None then o.state == s else a.value in s.store && GivesWay(s, a.value, o.state)
  {
    hide StopApplication, StoppedSignal, Quiet;
    if s.stopping.Some? {
      StopComesTo(s);
      StoppingGivesWay(s, s.stopping.value);
    } else {
      StopExactly(s);
      NoStopRisk(s);
      StopComesTo(s);
      if InCharge(s).Some? && StopApplication(s).state.stopping.Some? {
        ParkedGivesWay(s, InCharge(s).value, StopApplication(s).state);
      }
    }
  }

  lemma NoStopRisk(s: State)
    requires Quiet(s) && !(if StopsLater(s) then PopRisky(s) else StopRisky(s))
    ensures !StopRisky(s)
  {
  }

  lemma ParkedGivesWay(s: State, a: Ref, t: State)
    requires Quiet(s) && s.stopping == None && InCharge(s) == Some(a) && !PopRisky(s)
    requires Quiet(t) && Parks(s, a, t)
    ensures StoppedSignal(t, a).Done? && GivesWay(s, a, StoppedSignal(t, a).state)
  {
    hide StoppedSignal;
    StoppingGivesWay(t, a);
    assert t.store - {a} == s.store - {a};
  }

  /** An application that registers runs; or stops at once, when others wait; or has only said that it is there. */
  lemma RegistersComesTo(s: State, a: Ref)
    requires Quiet(s) && Possible(s, Registers(a))
    ensures var x := s.store[a].(startTimer := false, wsConnected := true);
            Step(s, Registers(a)) == Done(
              if !s.store[a].connected then s.(store := s.store[a := x])
              else if s.pending == [] then
                State(Some(a), None, None, [], s.store[a := x.(appState := Running)], s.launched)
              else
                State(None, None, Some(a), s.pending, s.store[a := x.(appState := Stopping, stopTimer := true)],
                      s.launched))
  {
    hide StopApplication;
    var x := s.store[a].(startTimer := false, wsConnected := true);
    if s.store[a].connected {
      assert s.stopping == None;
      var t := Put(s, a, x);
      var u := Put(t, a, x.(appState := Running)).(top := Some(a), starting := None);
      assert Step(s, Registers(a)) == OnAppStarted(t, a);
      assert OnAppStarted(t, a) == if s.pending != [] then StopApplication(u) else Done(u);
      OverwriteTwice(s.store, a, x, x.(appState := Running), x.(appState := Stopping, stopTimer := true));
      if s.pending != [] {
        DoStopIs(u, a);
        StopTop(u, a);
      }
    }
  }

  /**
    A request that is accepted waits for whoever starts or stops, or is launched when nobody is in
    charge, or makes the running application stop; one for the same application changes nothing.
   */
  lemma LaunchComesTo(s: State, a: Ref, app: Application)
    requires Quiet(s) && a !in s.store && Fresh(app) && !LaunchRisky(s, app)
    ensures var waiting := s.store[a := app.(appState := Starting)];
            Step(s, LaunchRequested(a, app)) == Done(
              if !Accepts(s, app.appId) then s.(store := waiting)
              else if s.starting.Some? || s.stopping.Some? then s.(store := waiting, pending := s.pending + [a])
              else if s.top.Some? then
                var b := s.top.value;
                State(None, None, Some(b), [a],
                      waiting[b := s.store[b].(appState := Stopping, stopTimer := true)], s.launched)
              else if app.useIpc then
                State(None, Some(a), None, [],
                      s.store[a := app.(appState := Starting, connected := true, startTimer := true)],
                      s.launched + [a])
              else
                State(Some(a), None, None, [],
                      s.store[a := app.(appState := Running, connected := true, lifeTimer := app.mortal)],
                      s.launched + [a]))
  {
    hide LaunchApplication, StopApplication;
    if NobodyInCharge(s) {
      LaunchAlone(s, a, app);
    } else {
      LaunchBranch(s, a, app);
      var u := s.(store := s.store[a := app.(appState := Starting)]);
      if s.top.Some? && Accepts(s, app.appId) {
        var q := u.(pending := u.pending + [a]);
        assert q.pending == [a];
        DoStopIs(q, s.top.value);
        StopTop(q, s.top.value);
      }
    }
  }

  lemma LaunchAlone(s: State, a: Ref, app: Application)
    requires Quiet(s) && a !in s.store && Fresh(app) && NobodyInCharge(s) && app.launchable
    ensures LaunchApplication(s.(store := s.store[a := app]), a) == Done(
              if app.useIpc then
                State(None, Some(a), None, [],
                      s.store[a := app.(appState := Starting, connected := true, startTimer := true)],
                      s.launched + [a])
              else
                State(Some(a), None, None, [],
                      s.store[a := app.(appState := Running, connected := true, lifeTimer := app.mortal)],
                      s.launched + [a]))
  {
    hide LaunchApplication, OnStarting;
    var t := s.(store := s.store[a := app]);
    LaunchIs(t, a);
    var x := app.(appState := Starting, connected := true);
    var u := Put(t, a, x).(starting := Some(a), launched := t.launched + [a]);
    if app.useIpc {
      OverwriteTwice(s.store, a, app, x, x);
      OverwriteTwice(s.store, a, x, x.(startTimer := true), x);
    } else {
      StartsAtOnce(u, a);
      var y := x.(appState := Running, startTimer := false);
      OverwriteTwice(s.store, a, app, x, x);
      OverwriteTwice(s.store, a, x, if y.mortal then y.(lifeTimer := true) else y, y);
    }
  }

  // ---------------------------------------------------------------- runs

  function Run(s: State, events: seq<Event>): Outcome
    decreases |events|
  {
    if events == [] then Done(s)
    else match Step(s, events[0])
      case Fault => Fault
      case Done(t) => Run(t, events[1..])
  }

  predicate Calm(s: State, events: seq<Event>)
    decreases |events|
  {
    events != [] ==>
      && Quiet(s) && Possible(s, events[0]) && !Risky(s, events[0])
      && (Step(s, events[0]).Done? ==> Calm(Step(s, events[0]).state, events[1..]))
  }

  /** The accepted requests of a run. */
  function AllRequested(s: State, events: seq<Event>): seq<Ref>
    decreases |events|
  {
    if events == [] || !Quiet(s) || Step(s, events[0]).Fault? then []
    else Requested(s, events[0]) + AllRequested(Step(s, events[0]).state, events[1..])
  }

  /**
    Over every run without risky events no deleted application is used; after each event at most
    one is in charge and nobody is stranded; and the accepted requests are launched in order, but
    for those still waiting.
   */
  lemma {:induction false} LaunchedInOrder(s: State, events: seq<Event>)
    requires Quiet(s) && Calm(s, events)
    ensures Good(Run(s, events))
    ensures Line(Run(s, events).state) == Line(s) + AllRequested(s, events)
    decreases |events|
  {
    if events == [] {
      assert Line(s) + [] == Line(s);
    } else {
      StepExactly(s, events[0]);
      var t := Step(s, events[0]).state;
      LaunchedInOrder(t, events[1..]);
      Chain(Line(s), Requested(s, events[0]), AllRequested(t, events[1..]));
    }
  }

  lemma Chain(a: seq<Ref>, b: seq<Ref>, c: seq<Ref>)
    ensures (a + b) + c == a + (b + c)
  {
  }

  /** Every application registers and can be launched. */
  predicate Uniform(store: Store) { forall a :: a in store ==> store[a].useIpc && store[a].launchable }

  predicate Stops(s: State, e: Event)
  {
    match e
    case LaunchRequested(_, _) => false
    case Registers(_) => false
    case StopTimesOut(_) => false
    case LifeTimesOut(a) => a in s.store && s.store[a].connected
    case _ => true
  }

  /** Such applications never get into trouble while they are stopped only once registered, or with no one waiting. */
  predicate Tame(s: State, events: seq<Event>)
    decreases |events|
  {
    events != [] ==>
      && Possible(s, events[0])
      && (events[0].LaunchRequested? ==> events[0].app.useIpc && events[0].app.launchable)
      && (Stops(s, events[0]) ==> !StopRisky(s))
      && (Step(s, events[0]).Done? ==> Tame(Step(s, events[0]).state, events[1..]))
  }

  lemma {:induction false} TameIsCalm(s: State, events: seq<Event>)
    requires Quiet(s) && Uniform(s.store) && Tame(s, events)
    ensures Calm(s, events)
    decreases |events|
  {
    if events != [] {
      assert !Risky(s, events[0]);
      StepExactly(s, events[0]);
      TameIsCalm(Step(s, events[0]).state, events[1..]);
    }
  }

  /** A failed launch leaves the manager with an application that is gone; the next request uses it. */
  lemma FailedLaunchDangles(s: State, a: Ref, app: Application, b: Ref, next: Application)
    requires Quiet(s) && s.top == s.starting == s.stopping == None
    requires a !in s.store && Fresh(app) && !app.launchable && b !in s.store && b != a
    ensures var o := Step(s, LaunchRequested(a, app));
            && o.Done? && o.state.starting == Some(a) && a !in o.state.store
            && Step(o.state, LaunchRequested(b, next)) == Fault
            && Step(o.state, StopRequested) == Fault
  {
    var t := s.(store := s.store[a := app]);
    LaunchIs(t, a);
    var u := Step(s, LaunchRequested(a, app)).state;
    assert u.top == None && u.stopping == None;
    assert DoStopApplication(u, a) == Fault;
  }

  // ---------------------------------------------------------------- each condition can come about

  /** Some run without risky events leads here. */
  ghost predicate Reachable(s: State) { exists events :: Leads(events, s) }

  ghost predicate Leads(events: seq<Event>, s: State) { Calm(START, events) && Run(START, events) == Done(s) }

  lemma StartIsReachable()
    ensures Reachable(START) && Quiet(START)
  {
    assert Leads([], START);
  }

  lemma {:induction false} OneMoreEvent(s: State, events: seq<Event>, t: State, e: Event)
    requires Calm(s, events) && Run(s, events) == Done(t)
    requires Quiet(t) && Possible(t, e) && !Risky(t, e) && Step(t, e).Done?
    ensures Calm(s, events + [e]) && Run(s, events + [e]) == Step(t, e)
    decreases |events|
  {
    if events == [] {
      assert [] + [e] == [e];
      assert |[e][1..]| == 0;
    } else {
      assert (events + [e])[0] == events[0] && (events + [e])[1..] == events[1..] + [e];
      OneMoreEvent(Step(s, events[0]).state, events[1..], t, e);
    }
  }

  /** An event that is not risky leads on. */
  lemma Goes(s: State, e: Event, t: State)
    requires Reachable(s) && Quiet(s) && Possible(s, e) && !Risky(s, e) && Step(s, e) == Done(t)
    ensures Reachable(t) && Quiet(t)
  {
    hide Step, Quiet, Risky, Possible, Calm, Run;
    var events :| Leads(events, s);
    OneMoreEvent(START, events, s, e);
    assert Leads(events + [e], t);
    StepExactly(s, e);
  }

  function NewApplication(appId: AppId, useIpc: bool, launchable: bool): Application
  {
    Application(appId, useIpc, launchable, false, Stopped, false, false, false, false, false)
  }

  /** The state with a first application starting, or running at once. */
  function First(x: Application): State
  {
    if x.useIpc then
      State(None, Some(1), None, [], map[1 := x.(appState := Starting, connected := true, startTimer := true)], [1])
    else State(Some(1), None, None, [], map[1 := x.(appState := Running, connected := true)], [1])
  }

  lemma FirstIsReachable(useIpc: bool)
    ensures var s := First(NewApplication("a", useIpc, true)); Reachable(s) && Quiet(s)
  {
    var x := NewApplication("a", useIpc, true);
    var e := LaunchRequested(1, x);
    StartIsReachable();
    var s := START.(store := START.store[1 := x]);
    LaunchIs(s, 1);
    var y := x.(appState := Starting, connected := true);
    var t := Put(s, 1, y).(starting := Some(1), launched := START.launched + [1]);
    if !useIpc {
      StartsAtOnce(t, 1);
    }
    assert START.launched + [1] == [1];
    var u := Step(START, e).state;
    assert u.store == First(x).store;
    assert u == First(x);
    Goes(START, e, First(x));
  }

  /** A request behind a starting application waits. */
  lemma Waits(s: State, a: Ref, x: Application)
    requires Reachable(s) && Quiet(s) && a !in s.store && Fresh(x)
    requires s.starting.Some? && s.store[s.starting.value].appId != x.appId
    ensures var t := s.(store := s.store[a := x.(appState := Starting)], pending := s.pending + [a]);
            Reachable(t) && Quiet(t)
  {
    var t := s.(store := s.store[a := x.(appState := Starting)], pending := s.pending + [a]);
    assert s.store[a := x][a := x.(appState := Starting)] == t.store;
    Goes(s, LaunchRequested(a, x), t);
  }

  /** Two applications that register: stopping the first before it does so, with the second waiting, faults. */
  lemma StopRiskComesAbout()
    ensures exists s :: Reachable(s) && Quiet(s) && StopRisky(s) && Step(s, StopRequested) == Fault
  {
    var s := First(NewApplication("a", true, true));
    FirstIsReachable(true);
    var b := NewApplication("b", true, true);
    Waits(s, 2, b);
    var t := s.(store := s.store[2 := b.(appState := Starting)], pending := s.pending + [2]);
    StopExactly(t);
    assert StopRisky(t);
  }

  /** A running application without registration: a request for another one faults. */
  lemma LaunchRiskComesAbout()
    ensures var b := NewApplication("b", true, true);
            exists s ::
              && Reachable(s) && Quiet(s) && LaunchRisky(s, b) && 2 !in s.store
              && Step(s, LaunchRequested(2, b)) == Fault
  {
    var b := NewApplication("b", true, true);
    var s := First(NewApplication("a", false, true));
    FirstIsReachable(false);
    var u := s.(store := s.store[2 := b][2 := b.(appState := Starting)], pending := s.pending + [2]);
    DoStopIs(u, 1);
    StillPointsThere(u, 1);
    assert StopApplication(u) == Fault;
    assert LaunchApplication(s.(store := s.store[2 := b]), 2) == StopApplication(u);
  }

  /** Of two that wait, the first needs no registration: launching it, once the one before has stopped, faults. */
  lemma PopRiskComesAbout()
    ensures exists s ::
              && Reachable(s) && Quiet(s) && PopRisky(s) && s.stopping == Some(1)
              && Step(s, StopTimesOut(1)) == Fault
  {
    hide Quiet, StartedSignal;
    var s0 := First(NewApplication("a", true, true));
    FirstIsReachable(true);
    var b, c := NewApplication("b", false, true), NewApplication("c", true, true);
    Waits(s0, 2, b);
    var s1 := s0.(store := s0.store[2 := b.(appState := Starting)], pending := s0.pending + [2]);
    Waits(s1, 3, c);
    var s2 := s1.(store := s1.store[3 := c.(appState := Starting)], pending := s1.pending + [3]);
    RegistersExactly(s2, 1);
    var s3 := RegisteredStops(s2);
    Goes(s2, Registers(1), s3);
    PopFaults(s3);
  }

  lemma RegisteredStops(s: State) returns (t: State)
    requires Quiet(s) && s.starting == Some(1) && s.pending == [2, 3]
    ensures StartedSignal(s, 1) == Done(t) && t.stopping == Some(1) && t.pending == s.pending
    ensures t.top == t.starting == None && t.store.Keys == s.store.Keys
    ensures forall a :: a in s.store && a != 1 ==> t.store[a] == s.store[a]
    ensures t.store[1].connected && t.store[1].stopTimer
  {
    RegistersExactly(s, 1);
    var x := s.store[1].(startTimer := false, wsConnected := true);
    var u := Put(s, 1, x);
    var v := Put(u, 1, x.(appState := Running)).(top := Some(1), starting := None);
    assert StartedSignal(s, 1) == OnAppStarted(u, 1);
    assert OnAppStarted(u, 1) == StopApplication(v);
    DoStopIs(v, 1);
    t := StopApplication(v).state;
  }

  lemma PopFaults(s: State)
    requires Quiet(s) && s.stopping == Some(1) && s.pending == [2, 3]
    requires 2 in s.store && !s.store[2].useIpc && s.store[2].launchable
    ensures PopRisky(s) && Step(s, StopTimesOut(1)) == Fault
  {
    hide StoppedSignal, LaunchApplication, OnStarting;
    StoppedIs(s, 1);
    var t := s.(store := s.store - {1}, stopping := None, pending := s.pending[1..]);
    LaunchIs(t, 2);
    var y := t.store[2].(appState := Starting, connected := true);
    RunsAndFaults(Put(t, 2, y).(starting := Some(2), launched := t.launched + [2]), 2);
  }
}
