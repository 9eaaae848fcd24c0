/**
 * Applications, the set of running ones, and the tracker that assigns windows
 * to them (src/shell-app.c, src/shell-app-system.c,
 * src/shell-window-tracker.c).
 */
module AppTracking {
  import opened Lists
  import opened WindowOrder
  import opened Wrappers

  datatype AppState = Stopped | Starting | Running

  /** ShellAppRunningState: the window list, newest first until sorted, and whether it must be sorted. */
  datatype RunningState = RunningState(windows: seq<nat>, stale: bool)

  class ShellAppSystem {
    var runningApps: set<ShellApp>

    constructor ()
      ensures runningApps == {}
    {
      runningApps := {};
    }

    /** _shell_app_system_notify_app_state_changed */
    method NotifyAppStateChanged(app: ShellApp)
      modifies this
      ensures runningApps ==
              match app.state
              case Running => old(runningApps) + {app}
              case Starting => old(runningApps)
              case Stopped => old(runningApps) - {app}
    {
      match app.state
      case Running => runningApps := runningApps + {app};
      case Starting =>
      case Stopped => runningApps := runningApps - {app};
    }
  }

  class ShellApp {
    var state: AppState
    var running: Option<RunningState>

    function Windows(): seq<nat>
      reads this
    {
      if running.Some? then running.value.windows else []
    }

    /** The running state exists exactly while there are windows; RUNNING needs windows, STOPPED excludes them. */
    predicate Ok()
      reads this
    {
      && (running.Some? ==> running.value.windows != [])
      && Distinct(Windows())
      && (state == Running ==> Windows() != [])
      && (state == Stopped ==> Windows() == [])
    }

    constructor ()
      ensures state == Stopped && running.None?
    {
      state := Stopped;
      running := None;
    }

    /** shell_app_state_transition */
    method StateTransition(next: AppState, system: ShellAppSystem)
      modifies this, system
      ensures state == if old(state) == Running && next == Starting then Running else next
      ensures running == if old(state) != Stopped && next == Stopped then None else old(running)
      ensures system.runningApps ==
              if old(state) == next || (old(state) == Running && next == Starting) then old(system.runningApps)
              else match next
                case Running => old(system.runningApps) + {this}
                case Starting => old(system.runningApps)
                case Stopped => old(system.runningApps) - {this}
    {
      if state == next { return; }
      if state == Running && next == Starting { return; }
      state := next;
      if state == Stopped && running.Some? { running := None; }
      system.NotifyAppStateChanged(this);
    }

    /** _shell_app_add_window */
    method AddWindow(w: nat, system: ShellAppSystem)
      requires Ok() && (this in system.runningApps <==> state == Running)
      modifies this, system
      ensures Ok() && (this in system.runningApps <==> state == Running)
      ensures forall a :: a != this ==> (a in system.runningApps <==> a in old(system.runningApps))
      ensures Windows() == if w in old(Windows()) then old(Windows()) else [w] + old(Windows())
      ensures w !in old(Windows()) ==> running.Some? && running.value.stale
      ensures w in old(Windows()) ==> running == old(running)
      ensures state == if old(state) == Starting || w in old(Windows()) then old(state) else Running
      ensures forall d :: old(CacheOk(d)) ==> CacheOk(d)
    {
      if running.Some? && w in running.value.windows { return; }
      if running.None? { running := Some(RunningState([], false)); }
      running := Some(RunningState([w] + running.value.windows, true));
      if state != Starting { StateTransition(Running, system); }
    }

    /** _shell_app_remove_window; that the running state exists is the function's own assertion. */
    method RemoveWindow(w: nat, system: ShellAppSystem)
      requires Ok() && (this in system.runningApps <==> state == Running)
      requires running.Some?
      modifies this, system
      ensures Ok() && (this in system.runningApps <==> state == Running)
      ensures forall a :: a != this ==> (a in system.runningApps <==> a in old(system.runningApps))
      ensures Windows() == Without(old(Windows()), w)
      ensures running.Some? ==> running.value.stale == old(running).value.stale
      ensures state == if Windows() == [] then Stopped else old(state)
      ensures forall d :: old(CacheOk(d)) ==> CacheOk(d)
    {
      ghost var ws := running.value.windows;
      forall d | Sorted(d, ws) ensures Sorted(d, Without(ws, w)) { WithoutSorted(d, ws, w); }
      if w !in running.value.windows {
        WithoutNone(running.value.windows, w);
        return;
      }
      WithoutDistinct(running.value.windows, w);
      running := Some(running.value.(windows := Without(running.value.windows, w)));
      if running.value.windows == [] { StateTransition(Stopped, system); }
    }

    /** _shell_app_handle_startup_sequence */
    method HandleStartupSequence(completed: bool, system: ShellAppSystem)
      requires Ok() && (this in system.runningApps <==> state == Running)
      modifies this, system
      ensures Ok() && (this in system.runningApps <==> state == Running)
      ensures forall a :: a != this ==> (a in system.runningApps <==> a in old(system.runningApps))
      ensures running == old(running)
      ensures state == if completed then (if Windows() != [] then Running else Stopped)
                       else if old(state) == Stopped then Starting else old(state)
    {
      if !completed && state == Stopped { StateTransition(Starting, system); }
      if completed {
        if running.Some? && running.value.windows != [] {
          StateTransition(Running, system);
        } else {
          StateTransition(Stopped, system);
        }
      }
    }

    /** The cached list is in order unless it is marked stale. */
    ghost predicate CacheOk(d: Desktop)
      reads this
    {
      running.Some? && !running.value.stale ==> Sorted(d, Windows())
    }

    /**
     * shell_app_get_windows: the windows, in the documented order if they were
     * so wherever not marked stale, and user times are less than 2^31 apart.
     */
    method GetWindows(d: Desktop) returns (ws: seq<nat>)
      requires Ok()
      modifies this
      ensures Ok() && state == old(state)
      ensures ws == Windows() && multiset(ws) == multiset(old(Windows()))
      ensures old(CacheOk(d)) && Near(d, old(Windows())) ==> CacheOk(d) && Sorted(d, ws)
    {
      if running.None? { return []; }
      if running.value.stale {
        SortNear(d, running.value.windows);
        SortDistinct(d, running.value.windows);
        running := Some(RunningState(Sort(d, running.value.windows), false));
      }
      ws := running.value.windows;
    }

    /**
     * shell_app_on_user_time_changed, for one of the app's windows: only a
     * window other than the first marks the list stale. That is enough if and
     * only if the first window does not fall behind the second in a list that
     * is relied on, and always enough when user times grow.
     */
    method OnUserTimeChanged(w: nat, ghost d: Desktop, ghost t: nat)
      requires Ok() && CacheOk(d) && w in Windows()
      modifies this
      ensures Ok() && Windows() == old(Windows()) && state == old(state)
      ensures var e := d.(userTime := d.userTime[w := t]); var ws := Windows();
              && (CacheOk(e) <==> w != ws[0] || old(running).value.stale || |ws| < 2 || Before(e, ws[0], ws[1]))
              && (t >= d.Time(w) ==> CacheOk(e))
    {
      if w != running.value.windows[0] {
        running := Some(running.value.(stale := true));
      } else if !running.value.stale {
        HeadTimeChange(d, Windows(), t);
        if t >= d.Time(w) { HeadTimeGrows(d, Windows(), t); }
      }
    }

    /** shell_app_on_ws_switch, which is connected while the running state exists */
    method OnWorkspaceSwitch(ghost d: Desktop)
      requires Ok() && running.Some?
      modifies this
      ensures Ok() && Windows() == old(Windows()) && state == old(state) && running.Some?
      ensures CacheOk(d)
    {
      running := Some(running.value.(stale := true));
    }
  }

  // ---- Runs of one application ------------------------------------------------------

  /** User times only grow; a listing is asked for while the windows' user times are near each other. */
  datatype AppEvent = Added(w: nat) | Removed(w: nat) | Used(w: nat, time: nat) | Switched(workspace: nat) | Listed

  function DesktopAfter(start: Desktop, events: seq<AppEvent>): Desktop {
    if events == [] then start
    else
      var d := DesktopAfter(start, events[..|events| - 1]);
      match events[|events| - 1]
      case Used(w, t) => if t >= d.Time(w) then d.(userTime := d.userTime[w := t]) else d
      case Switched(k) => d.(activeWorkspace := k)
      case _ => d
  }

  /** The window was added and not removed since. */
  predicate Present(events: seq<AppEvent>, w: nat) {
    events != [] &&
    match events[|events| - 1]
    case Added(v) => v == w || Present(events[..|events| - 1], w)
    case Removed(v) => v != w && Present(events[..|events| - 1], w)
    case _ => Present(events[..|events| - 1], w)
  }

  /**
   * After any run the application lists exactly the windows it should, and a
   * list that is not marked stale is in the order of the desktop as it is now.
   */
  method PlayApp(system: ShellAppSystem, start: Desktop, events: seq<AppEvent>) returns (app: ShellApp)
    modifies system
    ensures app.Ok() && app.CacheOk(DesktopAfter(start, events))
    ensures forall w :: w in app.Windows() <==> Present(events, w)
  {
    app := new ShellApp();
    system.runningApps := system.runningApps - {app};
    for i := 0 to |events|
      invariant fresh(app) && app.Ok() && (app in system.runningApps <==> app.state == Running)
      invariant app.CacheOk(DesktopAfter(start, events[..i]))
      invariant forall w :: w in app.Windows() <==> Present(events[..i], w)
    {
      assert events[..i + 1][..i] == events[..i];
      PlayAppEvent(app, system, DesktopAfter(start, events[..i]), events[i]);
    }
    assert events[..|events|] == events;
  }

  method PlayAppEvent(app: ShellApp, system: ShellAppSystem, d: Desktop, e: AppEvent)
    requires app.Ok() && app.CacheOk(d) && (app in system.runningApps <==> app.state == Running)
    modifies app, system
    ensures app.Ok() && (app in system.runningApps <==> app.state == Running)
    ensures app.CacheOk(match e
                        case Used(w, t) => if t >= d.Time(w) then d.(userTime := d.userTime[w := t]) else d
                        case Switched(k) => d.(activeWorkspace := k)
                        case _ => d)
    ensures forall w :: w in app.Windows() <==>
              match e
              case Added(v) => v == w || w in old(app.Windows())
              case Removed(v) => v != w && w in old(app.Windows())
              case _ => w in old(app.Windows())
  {
    hide Sorted;
    match e
    case Added(w) => app.AddWindow(w, system);
    case Removed(w) =>
      if app.running.Some? {
        WithoutDistinct(app.Windows(), w);
        forall v { WithoutIn(app.Windows(), w, v); }
        app.RemoveWindow(w, system);
      }
    case Used(w, t) =>
      if t >= d.Time(w) {
        if app.running.Some? && w in app.running.value.windows {
          app.OnUserTimeChanged(w, d, t);
        } else if app.running.Some? && !app.running.value.stale {
          OtherTime(d, app.Windows(), w, t);
        }
      }
    case Switched(k) => if app.running.Some? { app.OnWorkspaceSwitch(d.(activeWorkspace := k)); }
    case Listed =>
      if Near(d, app.Windows()) {
        var ws := app.GetWindows(d);
        SameElements(ws, old(app.Windows()));
      }
  }

  lemma SameElements(a: seq<nat>, b: seq<nat>)
    requires multiset(a) == multiset(b)
    ensures forall w :: w in a <==> w in b
  {
    forall w ensures w in a <==> w in b {
      InMultiset(a, w);
      InMultiset(b, w);
    }
  }

  lemma SortDistinct(d: Desktop, ws: seq<nat>)
    requires Distinct(ws)
    ensures Distinct(Sort(d, ws)) && |Sort(d, ws)| == |ws|
  {
    var s := Sort(d, ws);
    assert |multiset(s)| == |multiset(ws)|;
    MultisetDistinct(ws);
    forall i, j | 0 <= i < j < |s| ensures s[i] != s[j] {
      if s[i] == s[j] { TwoPlaces(s, i, j); }
    }
  }

  lemma {:induction false} MultisetDistinct(ws: seq<nat>)
    requires Distinct(ws)
    ensures forall w :: multiset(ws)[w] <= 1
  {
    if ws != [] {
      var n := |ws| - 1;
      assert ws == ws[..n] + [ws[n]];
      MultisetDistinct(ws[..n]);
      assert ws[n] !in ws[..n];
    }
  }

  lemma TwoPlaces(s: seq<nat>, i: nat, j: nat)
    requires i < j < |s| && s[i] == s[j]
    ensures multiset(s)[s[i]] >= 2
  {
    assert s == s[..j] + [s[j]] + s[j + 1..];
    assert s[i] in s[..j];
    assert multiset(s[..j])[s[i]] >= 1;
  }

  // ---- The tracker --------------------------------------------------------------------

  /** What the tracker asks the window manager about a window. */
  datatype WindowKind = WindowKind(interesting: bool, normal: bool, remote: bool)

  /** The window's application in the table, and the applications that list the window, are the same. */
  ghost predicate Agree(table: map<nat, ShellApp>, lists: map<ShellApp, seq<nat>>) {
    forall a, w :: a in lists ==> (w in lists[a] <==> w in table && table[w] == a)
  }

  ghost function ListOf(lists: map<ShellApp, seq<nat>>, app: ShellApp): seq<nat> {
    if app in lists then lists[app] else []
  }

  /**
   * Tracking w as a window of app: nothing takes w off another application's
   * list, so the two views still agree exactly when there is no other.
   */
  lemma TrackAgrees(table: map<nat, ShellApp>, lists: map<ShellApp, seq<nat>>, w: nat, app: ShellApp,
                    now: map<ShellApp, seq<nat>>)
    requires Agree(table, lists) && forall v :: v in table ==> table[v] in lists
    requires var ws := ListOf(lists, app); now == lists[app := if w in ws then ws else [w] + ws]
    ensures Agree(table[w := app], now) <==> (w !in table || table[w] == app)
  {
    if w in table && table[w] != app {
      assert w in lists[table[w]] && table[w] in now && now[table[w]] == lists[table[w]];
      assert !(table[w := app][w] == table[w]);
    }
  }

  /** Dropping w from the table: the views agree exactly when it is dropped from the list as well. */
  lemma UntrackAgrees(table: map<nat, ShellApp>, lists: map<ShellApp, seq<nat>>, w: nat, removed: bool)
    requires Agree(table, lists) && w in table && table[w] in lists && Distinct(lists[table[w]])
    ensures w in lists[table[w]]
    ensures var app := table[w]; var now := lists[app := Without(lists[app], w)];
            Agree(table - {w}, if removed then now else lists) <==> removed
  {
    var app := table[w];
    WithoutDistinct(lists[app], w);
    assert w in lists[app] && w !in table - {w};
    var now := lists[app := Without(lists[app], w)];
    forall a, v | a in now ensures v in now[a] <==> v in table - {w} && (table - {w})[v] == a {
      assert v in lists[a] <==> v in table && table[v] == a;
      WithoutIn(lists[app], w, v);
    }
  }

  class ShellWindowTracker {
    const system: ShellAppSystem
    var windowToApp: map<nat, ShellApp>
    ghost var apps: set<ShellApp>

    ghost function Lists(): map<ShellApp, seq<nat>>
      reads this, apps
    {
      map a | a in apps :: a.Windows()
    }

    ghost predicate Agreement()
      reads this, apps
    {
      Agree(windowToApp, Lists())
    }

    /** The running set holds exactly the applications in state RUNNING. */
    ghost predicate RunningSet()
      reads this, system, apps
    {
      && system.runningApps <= apps
      && (forall a :: a in apps ==> (a in system.runningApps <==> a.state == Running))
    }

    /** Every list that is not marked stale is in the order of this desktop. */
    ghost predicate Cached(d: Desktop)
      reads this, apps
    {
      forall a :: a in apps ==> a.CacheOk(d)
    }

    ghost predicate Sound()
      reads this, system, apps
    {
      && (forall a :: a in apps ==> a.Ok())
      && (forall w :: w in windowToApp ==> windowToApp[w] in apps)
      && RunningSet()
    }

    ghost predicate Valid()
      reads this, system, apps
    {
      Sound() && Agreement()
    }

    constructor (system: ShellAppSystem)
      requires system.runningApps == {}
      ensures Valid() && this.system == system && apps == {} && windowToApp == map[]
    {
      this.system := system;
      windowToApp := map[];
      apps := {};
    }

    /** An application from the application system, not running yet. */
    method AddApp(app: ShellApp)
      requires Valid() && app !in apps && app.state == Stopped && app.running.None?
      modifies this`apps
      ensures Valid() && apps == old(apps) + {app}
      ensures forall d :: old(Cached(d)) ==> Cached(d)
    {
      apps := apps + {app};
      assert Lists() == old(Lists())[app := []];
    }

    /**
     * get_app_for_window. `found` is what the window class, the process id,
     * startup notification or the window group suggest. Without a suggestion
     * a new application is made for the window, which already lists it.
     */
    method GetAppForWindow(w: nat, kind: WindowKind, found: ShellApp?) returns (app: ShellApp)
      requires Valid() && (found != null ==> found in apps)
      modifies this`apps, system
      ensures Sound() && app in apps && old(apps) <= apps && (app !in old(apps) ==> fresh(app))
      ensures windowToApp == old(windowToApp)
      ensures forall d :: old(Cached(d)) ==> Cached(d)
      ensures Lists() == if app in old(apps) then old(Lists()) else old(Lists())[app := [w]]
      ensures if (kind.normal || kind.remote) && w in windowToApp then app == windowToApp[w] && apps == old(apps)
              else if !kind.remote && found != null then app == found && apps == old(apps)
              else apps == old(apps) + {app} && app !in old(apps) && app.state == Running
    {
      if (kind.normal || kind.remote) && w in windowToApp { return windowToApp[w]; }
      if !kind.remote && found != null { return found; }
      app := new ShellApp();
      app.AddWindow(w, system);
      apps := apps + {app};
      assert [w] + [] == [w];
      assert Lists() == old(Lists())[app := [w]];
    }

    /** The tail of track_window: the table entry, then the application's own list. */
    method Associate(w: nat, app: ShellApp)
      requires Sound() && app in apps
      modifies this`windowToApp, system, app
      ensures Sound() && windowToApp == old(windowToApp)[w := app]
      ensures forall d :: old(Cached(d)) ==> Cached(d)
      ensures var ws := old(app.Windows()); Lists() == old(Lists())[app := if w in ws then ws else [w] + ws]
    {
      windowToApp := windowToApp[w := app];
      app.AddWindow(w, system);
    }

    /**
     * track_window. Nothing happens for a window that is not interesting. For
     * others the three pieces of state agree afterwards if and only if the
     * window was not tracked yet, or the application chosen for it is the one
     * it had.
     */
    method TrackWindow(w: nat, kind: WindowKind, found: ShellApp?)
      requires Sound() && (kind.interesting ==> Agreement()) && (found != null ==> found in apps)
      modifies this, system, apps
      ensures Sound() && old(apps) <= apps && fresh(apps - old(apps))
      ensures forall d :: old(Cached(d)) ==> Cached(d)
      ensures !kind.interesting ==> windowToApp == old(windowToApp) && (Valid() <==> old(Valid()))
      ensures kind.interesting ==>
                (Valid() <==> (w !in old(windowToApp) || kind.normal || kind.remote || found == old(windowToApp)[w]))
      ensures kind.interesting ==>
                && w in windowToApp && windowToApp == old(windowToApp)[w := windowToApp[w]]
                && w in windowToApp[w].Windows()
                && if (kind.normal || kind.remote) && w in old(windowToApp) then windowToApp[w] == old(windowToApp)[w]
                   else if !kind.remote && found != null then windowToApp[w] == found
                   else windowToApp[w] !in old(apps)
    {
      hide Agree;
      if !kind.interesting { return; }
      ghost var table, lists := windowToApp, Lists();
      var app := GetAppForWindow(w, kind, found);
      assert Lists()[app] == app.Windows() && [w] + [] == [w];
      Associate(w, app);
      TrackAgrees(table, lists, w, app, Lists());
      assert w in Lists()[app];
    }

    /**
     * disassociate_window. The state agrees afterwards if and only if the
     * window was not tracked or is still interesting.
     */
    method DisassociateWindow(w: nat, kind: WindowKind)
      requires Valid()
      modifies this, system, apps
      ensures Sound() && apps == old(apps)
      ensures forall d :: old(Cached(d)) ==> Cached(d)
      ensures windowToApp == old(windowToApp) - {w}
      ensures Valid() <==> (w !in old(windowToApp) || kind.interesting)
    {
      hide Agree;
      if w !in windowToApp {
        assert windowToApp - {w} == windowToApp;
        return;
      }
      ghost var table, lists := windowToApp, Lists();
      var app := windowToApp[w];
      assert lists[app] == app.Windows();
      UntrackAgrees(table, lists, w, kind.interesting);
      windowToApp := windowToApp - {w};
      if kind.interesting {
        app.RemoveWindow(w, system);
        assert Lists() == lists[app := Without(lists[app], w)];
      } else {
        assert Lists() == lists;
      }
    }

    /**
     * shell_app_on_unmanaged, when it comes before window-removed: the table
     * keeps the window, and if it was the application's last one, the running
     * state that disassociate_window is going to assert is gone.
     */
    method OnUnmanaged(w: nat, app: ShellApp)
      requires Valid() && app in apps && w in app.Windows()
      modifies system, app
      ensures Sound() && !Valid() && windowToApp == old(windowToApp) && windowToApp[w] == app
      ensures app.running.None? <==> old(app.Windows()) == [w]
    {
      assert Lists()[app] == app.Windows();
      assert windowToApp[w] == app;
      WithoutDistinct(app.Windows(), w);
      app.RemoveWindow(w, system);
      assert w !in Lists()[app];
    }

    /**
     * on_wm_class_changed: remove and add. For a window that is interesting
     * this keeps the three pieces of state in agreement; one that is not any
     * more is dropped from the table alone.
     */
    method OnWmClassChanged(w: nat, kind: WindowKind, found: ShellApp?)
      requires Valid() && (found != null ==> found in apps)
      modifies this, system, apps
      ensures Sound() && old(apps) <= apps && fresh(apps - old(apps))
      ensures forall d :: old(Cached(d)) ==> Cached(d)
      ensures Valid() <==> (kind.interesting || w !in old(windowToApp))
      ensures if kind.interesting
              then && w in windowToApp && windowToApp == old(windowToApp)[w := windowToApp[w]]
                   && if !kind.remote && found != null then windowToApp[w] == found else windowToApp[w] !in old(apps)
              else windowToApp == old(windowToApp) - {w}
    {
      hide Agree;
      DisassociateWindow(w, kind);
      TrackWindow(w, kind, found);
      assert kind.interesting ==> windowToApp == old(windowToApp)[w := windowToApp[w]];
    }

    /** on_startup_sequence_changed, for a sequence that belongs to an application */
    method OnStartupSequenceChanged(app: ShellApp, completed: bool)
      requires Valid() && app in apps
      modifies system, apps
      ensures Valid() && Lists() == old(Lists())
      ensures forall d :: old(Cached(d)) ==> Cached(d)
      ensures app.state == if completed then (if app.Windows() != [] then Running else Stopped)
                           else if old(app.state) == Stopped then Starting else old(app.state)
    {
      app.HandleStartupSequence(completed, system);
    }

    /** A window's user time grows; the handler is that of the window's application. */
    method OnUserTime(w: nat, ghost d: Desktop, ghost t: nat)
      requires Valid() && Cached(d) && t >= d.Time(w)
      modifies apps
      ensures Valid() && Lists() == old(Lists())
      ensures Cached(d.(userTime := d.userTime[w := t]))
    {
      hide Sorted;
      ghost var lists := Lists();
      forall a | a in apps && (w in windowToApp ==> a != windowToApp[w])
        ensures a.CacheOk(d.(userTime := d.userTime[w := t]))
      {
        assert lists[a] == a.Windows() && a.CacheOk(d);
        assert w !in a.Windows();
        if Sorted(d, a.Windows()) { OtherTime(d, a.Windows(), w, t); }
      }
      if w in windowToApp {
        assert lists[windowToApp[w]] == windowToApp[w].Windows();
        windowToApp[w].OnUserTimeChanged(w, d, t);
        assert Lists() == lists;
      }
    }

    /** The applications that have a running state are those of the tracked windows. */
    lemma RunningApps()
      requires Valid()
      ensures forall a :: a in windowToApp.Values <==> a in apps && a.running.Some?
    {
      forall a | a in apps && a.running.Some? ensures a in windowToApp.Values {
        assert Lists()[a] == a.Windows();
        var w := a.Windows()[0];
        assert w in a.Windows() && w in windowToApp && windowToApp[w] == a;
      }
      forall a | a in windowToApp.Values ensures a in apps && a.running.Some? {
        var w :| w in windowToApp && windowToApp[w] == a;
        assert Lists()[a] == a.Windows() && w in a.Windows();
      }
    }

    /** The workspace switches; every application with a running state handles the signal. */
    method OnWorkspaceSwitch(ghost d: Desktop)
      requires Valid()
      modifies apps
      ensures Valid() && Lists() == old(Lists()) && Cached(d)
    {
      hide Sorted;
      hide Agree;
      RunningApps();
      ghost var lists := Lists();
      var rest := windowToApp.Values;
      while rest != {}
        invariant Sound() && Lists() == lists
        invariant forall a :: a in rest ==> a in apps && a.running.Some?
        invariant forall a :: a in apps && a !in rest ==> a.CacheOk(d)
        decreases rest
      {
        var a :| a in rest;
        SwitchOne(a, d);
        rest := rest - {a};
      }
    }

    method SwitchOne(a: ShellApp, ghost d: Desktop)
      requires Sound() && a in apps && a.running.Some?
      modifies a
      ensures Sound() && Lists() == old(Lists()) && a.CacheOk(d) && a.running.Some?
    {
      hide Sorted;
      ghost var lists := Lists();
      assert lists[a] == a.Windows();
      a.OnWorkspaceSwitch(d);
      assert Lists() == lists;
    }

    /** A handler on one of the application's windows always finds the running state it asserts. */
    lemma HandlersFindRunningState(w: nat)
      requires Valid() && w in windowToApp
      ensures windowToApp[w].running.Some? && w in windowToApp[w].running.value.windows
    {
      assert Lists()[windowToApp[w]] == windowToApp[w].Windows();
    }
  }

  // ---- Runs of the tracker ------------------------------------------------------------

  /** `found` is the number of an installed application. User times only grow. */
  datatype TrackEvent =
    | WindowAdded(w: nat, normal: bool, remote: bool, found: Option<nat>)
    | WindowRemoved(w: nat)
    | WmClassChanged(w: nat, normal: bool, remote: bool, found: Option<nat>)
    | StartupSequence(app: nat, completed: bool)
    | UserTime(w: nat, time: nat)
    | WorkspaceSwitch(workspace: nat)

  /** The windows that were added and not removed since, as far as they are interesting */
  predicate Tracked(interesting: set<nat>, events: seq<TrackEvent>, w: nat) {
    events != [] &&
    match events[|events| - 1]
    case WindowAdded(v, _, _, _) => (v == w && w in interesting) || Tracked(interesting, events[..|events| - 1], w)
    case WindowRemoved(v) => v != w && Tracked(interesting, events[..|events| - 1], w)
    case _ => Tracked(interesting, events[..|events| - 1], w)
  }

  /** A tracked window that is neither NORMAL nor remote is not added a second time. */
  predicate AddedOnce(interesting: set<nat>, events: seq<TrackEvent>) {
    forall k :: 0 <= k < |events| ==> MayHappen(interesting, events[..k], events[k])
  }

  predicate MayHappen(interesting: set<nat>, before: seq<TrackEvent>, e: TrackEvent) {
    e.WindowAdded? && !e.normal && !e.remote ==> !Tracked(interesting, before, e.w)
  }

  function DesktopThen(d: Desktop, e: TrackEvent): Desktop {
    match e
    case UserTime(w, t) => if t >= d.Time(w) then d.(userTime := d.userTime[w := t]) else d
    case WorkspaceSwitch(k) => d.(activeWorkspace := k)
    case _ => d
  }

  function DesktopNow(start: Desktop, events: seq<TrackEvent>): Desktop {
    if events == [] then start else DesktopThen(DesktopNow(start, events[..|events| - 1]), events[|events| - 1])
  }

  function Installed(installed: seq<ShellApp>, found: Option<nat>): ShellApp? {
    if found.Some? && found.value < |installed| then installed[found.value] else null
  }

  /** What is true of a tracker after some events */
  ghost predicate After(t: ShellWindowTracker, interesting: set<nat>, start: Desktop, events: seq<TrackEvent>)
    reads t, t.system, t.apps
  {
    && t.Valid()
    && (forall w :: w in t.windowToApp <==> Tracked(interesting, events, w))
    && t.Cached(DesktopNow(start, events))
  }

  /**
   * Runs of additions, removals, changes of the window class, startup
   * sequences, user times and workspace switches, for windows whose being
   * interesting does not change: the table holds the windows it should, table,
   * lists and running set agree, and every list that is not marked stale is
   * in order.
   */
  method PlayTracker(system: ShellAppSystem, installed: seq<ShellApp>, interesting: set<nat>, start: Desktop,
                     events: seq<TrackEvent>)
    returns (t: ShellWindowTracker)
    requires system.runningApps == {} && Distinct(installed) && AddedOnce(interesting, events)
    requires forall i :: 0 <= i < |installed| ==> installed[i].state == Stopped && installed[i].running.None?
    modifies system, installed
    ensures After(t, interesting, start, events)
  {
    hide Tracked;
    t := new ShellWindowTracker(system);
    NothingYet(interesting, start);
    for i := 0 to |installed|
      invariant fresh(t) && t.system == system && t.Valid() && t.windowToApp == map[] && t.Cached(start)
      invariant t.apps == set a | a in installed[..i]
      invariant forall j :: i <= j < |installed| ==> installed[j].state == Stopped && installed[j].running.None?
    {
      assert installed[i] !in installed[..i];
      t.AddApp(installed[i]);
      assert installed[..i + 1] == installed[..i] + [installed[i]];
    }
    assert installed[..|installed|] == installed && events[..0] == [];
    var d := start;
    for i := 0 to |events|
      invariant fresh(t) && t.system == system && After(t, interesting, start, events[..i])
      invariant d == DesktopNow(start, events[..i])
      invariant forall a :: a in installed ==> a in t.apps
      invariant forall a :: a in t.apps ==> a in installed || fresh(a)
    {
      assert events[..i + 1] == events[..i] + [events[i]];
      PlayTrackEvent(t, installed, interesting, start, events[..i], events[i], d);
      d := DesktopThen(d, events[i]);
    }
    assert events[..|events|] == events;
  }

  lemma NothingYet(interesting: set<nat>, start: Desktop)
    ensures forall w :: !Tracked(interesting, [], w)
    ensures DesktopNow(start, []) == start
  {
  }

  lemma TrackedThen(interesting: set<nat>, events: seq<TrackEvent>, e: TrackEvent, w: nat)
    ensures Tracked(interesting, events + [e], w) <==>
            match e
            case WindowAdded(v, _, _, _) => (v == w && w in interesting) || Tracked(interesting, events, w)
            case WindowRemoved(v) => v != w && Tracked(interesting, events, w)
            case _ => Tracked(interesting, events, w)
  {
    assert (events + [e])[..|events|] == events;
  }

  method PlayTrackEvent(t: ShellWindowTracker, installed: seq<ShellApp>, interesting: set<nat>, ghost start: Desktop,
                        ghost before: seq<TrackEvent>, e: TrackEvent, d: Desktop)
    requires After(t, interesting, start, before) && MayHappen(interesting, before, e) && d == DesktopNow(start, before)
    requires forall a :: a in installed ==> a in t.apps
    modifies t, t.system, t.apps
    ensures After(t, interesting, start, before + [e]) && DesktopThen(d, e) == DesktopNow(start, before + [e])
    ensures old(t.apps) <= t.apps && fresh(t.apps - old(t.apps))
  {
    hide Tracked;
    hide Agree;
    hide Sorted;
    assert (before + [e])[..|before|] == before;
    assert DesktopNow(start, before + [e]) == DesktopThen(d, e);
    forall w ensures Tracked(interesting, before + [e], w) <==>
                     match e
                     case WindowAdded(v, _, _, _) => (v == w && w in interesting) || w in t.windowToApp
                     case WindowRemoved(v) => v != w && w in t.windowToApp
                     case _ => w in t.windowToApp
    {
      TrackedThen(interesting, before, e, w);
    }
    match e {
      case WindowAdded(w, normal, remote, found) =>
        t.TrackWindow(w, WindowKind(w in interesting, normal, remote), Installed(installed, found));
      case WindowRemoved(w) =>
        StaysInteresting(interesting, before, w);
        t.DisassociateWindow(w, WindowKind(w in interesting, true, false));
      case WmClassChanged(w, normal, remote, found) =>
        StaysInteresting(interesting, before, w);
        if w in t.windowToApp {
          t.OnWmClassChanged(w, WindowKind(w in interesting, normal, remote), Installed(installed, found));
        }
      case StartupSequence(app, completed) =>
        if app < |installed| { t.OnStartupSequenceChanged(installed[app], completed); }
      case UserTime(w, time) => if time >= d.Time(w) { t.OnUserTime(w, d, time); }
      case WorkspaceSwitch(k) => t.OnWorkspaceSwitch(DesktopThen(d, e));
    }
  }

  lemma {:induction false} StaysInteresting(interesting: set<nat>, events: seq<TrackEvent>, w: nat)
    ensures Tracked(interesting, events, w) ==> w in interesting
  {
    if events != [] { StaysInteresting(interesting, events[..|events| - 1], w); }
  }
}
