/** The application manager as a class, and the handlers that drive it. */
module ApplicationManagers {
  import opened Bytes
  import opened Applications

  /** Each method does what the function of the same name says, wherever that uses no deleted application. */
  class ApplicationManager {
    var top: Option<Ref>
    var starting: Option<Ref>
    var stopping: Option<Ref>
    var pending: seq<Ref>
    var store: Store
    ghost var launched: seq<Ref>

    ghost function AsState(): State
      reads this
    {
      State(top, starting, stopping, pending, store, launched)
    }

    constructor ()
      ensures AsState() == START && Quiet(AsState())
    {
      top, starting, stopping, pending, store, launched := None, None, None, [], map[], [];
    }

    method LaunchApplication(a: Ref)
      requires Applications.LaunchApplication(AsState(), a).Done?
      modifies this
      ensures Applications.LaunchApplication(old(AsState()), a) == Done(AsState())
      decreases store.Keys, 12
    {
      store := store[a := store[a].(appState := Starting)];
      if starting != None {
        if store[starting.value].appId != store[a].appId {
          pending := pending + [a];
        }
      } else if top != None {
        if store[top.value].appId != store[a].appId {
          pending := pending + [a];
          StopApplication();
        }
      } else if stopping != None {
        pending := pending + [a];
      } else {
        DoLaunchApplication(a);
      }
    }

    method DoLaunchApplication(a: Ref)
      requires Applications.DoLaunchApplication(AsState(), a).Done?
      modifies this
      ensures Applications.DoLaunchApplication(old(AsState()), a) == Done(AsState())
      decreases store.Keys, 11
    {
      starting := Some(a);
      launched := launched + [a];
      store := store[a := store[a].(connected := true)];
      if store[a].launchable {
        OnStarting(a);
      } else {
        StoppedSignal(a);
      }
    }

    method OnStarting(a: Ref)
      requires Applications.OnStarting(AsState(), a).Done?
      modifies this
      ensures Applications.OnStarting(old(AsState()), a) == Done(AsState())
      decreases store.Keys, 10
    {
      store := store[a := store[a].(appState := Starting)];
      if store[a].useIpc {
        store := store[a := store[a].(startTimer := true)];
      } else {
        StartedSignal(a);
        if store[a].mortal {
          store := store[a := store[a].(lifeTimer := true)];
        }
      }
    }

    method StartedSignal(a: Ref)
      requires Applications.StartedSignal(AsState(), a).Done?
      modifies this
      ensures Applications.StartedSignal(old(AsState()), a) == Done(AsState())
      decreases store.Keys, 9
    {
      store := store[a := store[a].(startTimer := false, wsConnected := store[a].wsConnected || store[a].useIpc)];
      if store[a].connected {
        OnAppStarted(a);
      }
    }

    method OnAppStarted(a: Ref)
      requires Applications.OnAppStarted(AsState(), a).Done?
      modifies this
      ensures Applications.OnAppStarted(old(AsState()), a) == Done(AsState())
      decreases store.Keys, 8
    {
      store := store[a := store[a].(appState := Running)];
      top := Some(a);
      starting := None;
      if |pending| > 0 {
        StopApplication();
      }
    }

    method StopApplication()
      requires Applications.StopApplication(AsState()).Done?
      modifies this
      ensures Applications.StopApplication(old(AsState())) == Done(AsState())
      decreases store.Keys, 7
    {
      if stopping != None {
        return;
      } else if top != None {
        DoStopApplication(top.value);
        top := None;
      } else if starting != None {
        DoStopApplication(starting.value);
        starting := None;
      }
    }

    method DoStopApplication(a: Ref)
      requires Applications.DoStopApplication(AsState(), a).Done?
      modifies this
      ensures Applications.DoStopApplication(old(AsState()), a) == Done(AsState())
      decreases store.Keys, 6
    {
      stopping := Some(a);
      OnStopping(a);
    }

    method OnStopping(a: Ref)
      requires Applications.OnStopping(AsState(), a).Done?
      modifies this
      ensures Applications.OnStopping(old(AsState()), a) == Done(AsState())
      decreases store.Keys, 5
    {
      store := store[a := store[a].(appState := Stopping)];
      if store[a].useIpc && store[a].wsConnected {
        store := store[a := store[a].(stopTimer := true)];
      } else {
        StoppedSignal(a);
      }
    }

    method StoppedSignal(a: Ref)
      requires Applications.StoppedSignal(AsState(), a).Done?
      modifies this
      ensures Applications.StoppedSignal(old(AsState()), a) == Done(AsState())
      decreases store.Keys, 4
    {
      store := store[a := store[a].(stopTimer := false)];
      if store[a].connected {
        OnAppStopped(a);
      }
    }

    method OnAppStopped(a: Ref)
      requires Applications.OnAppStopped(AsState(), a).Done?
      modifies this
      ensures Applications.OnAppStopped(old(AsState()), a) == Done(AsState())
      decreases store.Keys, 3
    {
      assert a in store.Keys;
      store := store - {a};
      stopping := None;
      if |pending| > 0 {
        var next := pending[0];
        pending := pending[1..];
        LaunchApplication(next);
      }
    }

    // ------------------------------------------------------------ what calls the manager from outside

    /** A request for a new application. */
    method OnLaunchRequested(a: Ref, app: Application)
      requires Quiet(AsState()) && a !in store && Fresh(app) && !LaunchRisky(AsState(), app)
      modifies this
      ensures Quiet(AsState()) && Step(old(AsState()), LaunchRequested(a, app)) == Done(AsState())
    {
      StepExactly(AsState(), LaunchRequested(a, app));
      store := store[a := app];
      LaunchApplication(a);
    }

    method OnStartTimeout(a: Ref)
      requires Quiet(AsState()) && a in store && store[a].startTimer && !StopRisky(AsState())
      modifies this
      ensures Quiet(AsState()) && Step(old(AsState()), StartTimesOut(a)) == Done(AsState())
    {
      StepExactly(AsState(), StartTimesOut(a));
      if store[a].connected {
        StopApplication();
      }
    }

    method OnStopTimeout(a: Ref)
      requires Quiet(AsState()) && a in store && store[a].stopTimer && !PopRisky(AsState())
      modifies this
      ensures Quiet(AsState()) && Step(old(AsState()), StopTimesOut(a)) == Done(AsState())
    {
      StepExactly(AsState(), StopTimesOut(a));
      StoppedSignal(a);
    }

    /** The receiver application says that it is up. */
    method OnRegister(a: Ref)
      requires Quiet(AsState()) && Possible(AsState(), Registers(a))
      modifies this
      ensures Quiet(AsState()) && Step(old(AsState()), Registers(a)) == Done(AsState())
    {
      StepExactly(AsState(), Registers(a));
      StartedSignal(a);
    }

    /** The connection of a receiver application is gone. */
    method OnReceiverClosed(appId: AppId)
      requires Quiet(AsState()) && !Risky(AsState(), ReceiverCloses(appId))
      modifies this
      ensures Quiet(AsState()) && Step(old(AsState()), ReceiverCloses(appId)) == Done(AsState())
    {
      StepExactly(AsState(), ReceiverCloses(appId));
      if stopping != None && store[stopping.value].appId == appId {
        StoppedSignal(stopping.value);
      } else {
        StopApplication();
        if stopping != None {
          StoppedSignal(stopping.value);
        }
      }
    }
  }
}
