/**
 The fused-location finder: a session with the location provider, one of two
 fixed request profiles, and the one-time "first fix" flag that decides which
 listener callback an incoming location raises.

 The provider SDK is not modelled. Its connection state is the `connected`
 flag of a session, driven by `Connected` and `ConnectionSuspended` events,
 and every call into it is an `Effect` token returned by the transition.
 */
module LocationFinder {
  import opened Options
  import opened Sequences

  // Request intervals of the two profiles, in milliseconds.
  const INTERVAL_INDOOR: int := 1000 * 60 * 60
  const INTERVAL_INDOOR_FASTEST: int := 1000 * 60
  const INTERVAL_OUTDOOR: int := 1000 * 2
  const INTERVAL_OUTDOOR_FASTEST: int := 1000 * 1

  datatype Priority = BalancedPowerAccuracy | HighAccuracy

  datatype LocationRequest = LocationRequest(interval: int, fastestInterval: int, priority: Priority)

  datatype Profile = Indoor | Outdoor

  /** A location fix, carried through unchanged. */
  datatype Fix = Fix(latitude: real, longitude: real)

  /** A provider client together with the request it was built for. */
  datatype Session = Session(request: LocationRequest, connected: bool)

  /**
   The finder's state: the session (absent until a profile is started), the
   last location received, and whether the next location is the first fix.
   */
  datatype Finder = Finder(session: Option<Session>, current: Option<Fix>, firstFixPending: bool)

  /** Whether each location permission is granted to the app. */
  datatype LocationPermissions = LocationPermissions(fineGranted: bool, coarseGranted: bool)

  /** Calls into the provider SDK and into the listener, in the order made. */
  datatype Effect =
    | Connect
    | RequestLocationUpdates(request: LocationRequest)
    | RemoveLocationUpdates
    | Disconnect
    | FirstLocationCatched(fix: Fix)
    | LocationCatched(fix: Fix)
  {
    /** A call into the listener rather than into the provider. */
    predicate IsNotification() {
      FirstLocationCatched? || LocationCatched?
    }
  }

  predicate IsFirstFix(e: Effect) { e.FirstLocationCatched? }

  predicate IsRoutine(e: Effect) { e.LocationCatched? }

  predicate IsDisconnect(e: Effect) { e.Disconnect? }

  /** What reaches the finder: its own public calls and the provider's callbacks. */
  datatype Event =
    | Start(profile: Profile)
    | Connected
    | ConnectionSuspended
    | ConnectionFailed
    | LocationChanged(fix: Fix)
    | Stop

  predicate IsConnected(f: Finder) {
    f.session.Some? && f.session.value.connected
  }

  /** A finder as constructed: no session, no location, first fix pending. */
  function NewFinder(): (f: Finder)
    ensures f.current == None && f.firstFixPending
    ensures f.session == None && !IsConnected(f)
  {
    Finder(None, None, true)
  }

  /** The fresh request built for a profile. */
  function CreateLocationRequest(profile: Profile): (r: LocationRequest)
    ensures profile == Indoor ==> r == LocationRequest(3_600_000, 60_000, BalancedPowerAccuracy)
    ensures profile == Outdoor ==> r == LocationRequest(2_000, 1_000, HighAccuracy)
    ensures 0 < r.fastestInterval <= r.interval
  {
    match profile
    case Indoor => LocationRequest(INTERVAL_INDOOR, INTERVAL_INDOOR_FASTEST, BalancedPowerAccuracy)
    case Outdoor => LocationRequest(INTERVAL_OUTDOOR, INTERVAL_OUTDOOR_FASTEST, HighAccuracy)
  }

  /**
   Starting a profile builds a new, unconnected client with a fresh request
   and asks it to connect. The previous client, if any, is dropped as it is:
   neither its updates are removed nor is it disconnected.
   */
  function GetLocation(f: Finder, profile: Profile): (r: (Finder, seq<Effect>))
    ensures r.0.session == Some(Session(CreateLocationRequest(profile), false))
    ensures r.0.current == f.current && r.0.firstFixPending == f.firstFixPending
    ensures r.1 == [Connect]
  {
    (f.(session := Some(Session(CreateLocationRequest(profile), false))), [Connect])
  }

  /**
   Updates are requested only on a connected client, and only when at least
   one of the two location permissions is granted.
   */
  function StartLocationUpdates(f: Finder, perms: LocationPermissions): (effects: seq<Effect>)
    ensures effects != [] <==> IsConnected(f) && (perms.fineGranted || perms.coarseGranted)
    ensures effects != [] ==> effects == [RequestLocationUpdates(f.session.value.request)]
  {
    if f.session == None || !f.session.value.connected then []
    else if !perms.fineGranted && !perms.coarseGranted then []
    else [RequestLocationUpdates(f.session.value.request)]
  }

  /** The provider reports the connection: updates start, subject to the guard. */
  function OnConnected(f: Finder, perms: LocationPermissions): (r: (Finder, seq<Effect>))
    ensures f.session.None? ==> r == (f, [])
    ensures f.session.Some? ==> IsConnected(r.0) && r.0.session.value.request == f.session.value.request
    ensures f.session.Some? ==>
      r.1 == (if perms.fineGranted || perms.coarseGranted
              then [RequestLocationUpdates(f.session.value.request)] else [])
    ensures r.0.current == f.current && r.0.firstFixPending == f.firstFixPending
  {
    match f.session
    case None => (f, [])
    case Some(s) =>
      var f' := f.(session := Some(s.(connected := true)));
      (f', StartLocationUpdates(f', perms))
  }

  /** The provider reports a suspended connection: the client reconnects. */
  function OnConnectionSuspended(f: Finder): (r: (Finder, seq<Effect>))
    ensures f.session.None? ==> r == (f, [])
    ensures !IsConnected(r.0)
    ensures f.session.Some? ==> r.1 == [Connect] && r.0.session.Some? && r.0.session.value.request == f.session.value.request
    ensures r.0.current == f.current && r.0.firstFixPending == f.firstFixPending
  {
    match f.session
    case None => (f, [])
    case Some(s) => (f.(session := Some(s.(connected := false))), [Connect])
  }

  /**
   Stopping removes the updates and disconnects, in that order, but only on a
   connected client; otherwise it does nothing at all.
   */
  function StopLocationUpdates(f: Finder): (r: (Finder, seq<Effect>))
    ensures !IsConnected(f) ==> r == (f, [])
    ensures IsConnected(f) ==>
      && r.1 == [RemoveLocationUpdates, Disconnect]
      && r.0.session.Some? && !IsConnected(r.0)
      && r.0.session.value.request == f.session.value.request
    ensures r.0.current == f.current && r.0.firstFixPending == f.firstFixPending
  {
    if f.session == None || !f.session.value.connected then (f, [])
    else (f.(session := Some(f.session.value.(connected := false))), [RemoveLocationUpdates, Disconnect])
  }

  /**
   Every location becomes the current one. The first raises the first-fix
   callback and clears the flag; every later one raises the routine callback.
   */
  function OnLocationChanged(f: Finder, fix: Fix): (r: (Finder, seq<Effect>))
    ensures r.0.current == Some(fix) && !r.0.firstFixPending && r.0.session == f.session
    ensures |r.1| == 1 && r.1[0].IsNotification() && r.1[0].fix == fix
    ensures r.1[0].FirstLocationCatched? <==> f.firstFixPending
  {
    var f' := f.(current := Some(fix));
    if f.firstFixPending then
      (f'.(firstFixPending := false), [FirstLocationCatched(fix)])
    else
      (f', [LocationCatched(fix)])
  }

  /** One event. Only a location touches the current location and the flag. */
  function Step(f: Finder, ev: Event, perms: LocationPermissions): (r: (Finder, seq<Effect>))
    ensures ev.LocationChanged? ==>
      && r.0.current == Some(ev.fix) && !r.0.firstFixPending
      && r.1 == [if f.firstFixPending then FirstLocationCatched(ev.fix) else LocationCatched(ev.fix)]
    ensures !ev.LocationChanged? ==>
      && r.0.current == f.current && r.0.firstFixPending == f.firstFixPending
      && forall i :: 0 <= i < |r.1| ==> !r.1[i].IsNotification()
  {
    match ev
    case Start(profile) => GetLocation(f, profile)
    case Connected => OnConnected(f, perms)
    case ConnectionSuspended => OnConnectionSuspended(f)
    case ConnectionFailed => (f, [])
    case LocationChanged(fix) => OnLocationChanged(f, fix)
    case Stop => StopLocationUpdates(f)
  }

  /** The locations among a sequence of events, in arrival order. */
  function Fixes(events: seq<Event>): seq<Fix> {
    if events == [] then []
    else (if events[0].LocationChanged? then [events[0].fix] else []) + Fixes(events[1..])
  }

  /** A sequence of location events, one per fix. */
  function Updates(fixes: seq<Fix>): (events: seq<Event>)
    ensures |events| == |fixes|
    ensures forall i :: 0 <= i < |fixes| ==> events[i] == LocationChanged(fixes[i])
  {
    if fixes == [] then [] else [LocationChanged(fixes[0])] + Updates(fixes[1..])
  }

  /**
   A run of events. At its end the first fix is still pending exactly when it
   was pending before and no location arrived, and the current location is
   the last one that arrived, if any did.
   */
  function Run(f: Finder, events: seq<Event>, perms: LocationPermissions): (r: (Finder, seq<Effect>))
    ensures r.0.firstFixPending <==> f.firstFixPending && Fixes(events) == []
    ensures r.0.current == if Fixes(events) == [] then f.current else Some(Fixes(events)[|Fixes(events)| - 1])
    decreases |events|
  {
    if events == [] then (f, [])
    else
      var (f1, e1) := Step(f, events[0], perms);
      var (f2, e2) := Run(f1, events[1..], perms);
      (f2, e1 + e2)
  }

  /** The listener callbacks among a sequence of effects, in order. */
  function Notifications(effects: seq<Effect>): seq<Effect> {
    if effects == [] then []
    else (if effects[0].IsNotification() then [effects[0]] else []) + Notifications(effects[1..])
  }

  /**
   The reference behaviour of the listener: one callback per fix, in arrival
   order, the first-fix callback for the first one when it is pending and the
   routine callback for all the others.
   */
  predicate FirstFixThenRoutine(pending: bool, fixes: seq<Fix>, notes: seq<Effect>) {
    && |notes| == |fixes|
    && forall i :: 0 <= i < |notes| ==>
         notes[i] == (if pending && i == 0 then FirstLocationCatched(fixes[i]) else LocationCatched(fixes[i]))
  }

  lemma {:induction false} NotificationsAppend(a: seq<Effect>, b: seq<Effect>)
    ensures Notifications(a + b) == Notifications(a) + Notifications(b)
    decreases |a|
  {
    if a == [] {
      assert a + b == b;
    } else {
      assert (a + b)[0] == a[0];
      assert (a + b)[1..] == a[1..] + b;
      NotificationsAppend(a[1..], b);
    }
  }

  lemma {:induction false} NotificationsOfNone(effects: seq<Effect>)
    requires forall i :: 0 <= i < |effects| ==> !effects[i].IsNotification()
    ensures Notifications(effects) == []
    decreases |effects|
  {
    if effects != [] {
      NotificationsOfNone(effects[1..]);
    }
  }

  /** A location in front of routine callbacks extends the reference behaviour by one. */
  lemma PrependNotification(pending: bool, x: Fix, fixes: seq<Fix>, notes: seq<Effect>)
    requires FirstFixThenRoutine(false, fixes, notes)
    ensures FirstFixThenRoutine(pending, [x] + fixes,
                                [if pending then FirstLocationCatched(x) else LocationCatched(x)] + notes)
  {
    var ns := [if pending then FirstLocationCatched(x) else LocationCatched(x)] + notes;
    forall i | 1 <= i < |ns|
      ensures ns[i] == LocationCatched(([x] + fixes)[i])
    {
      assert ns[i] == notes[i - 1];
    }
  }

  /** Whatever the events in between, the listener sees the reference behaviour. */
  lemma {:induction false} RunNotifiesFirstFixThenRoutine(f: Finder, events: seq<Event>, perms: LocationPermissions)
    ensures FirstFixThenRoutine(f.firstFixPending, Fixes(events), Notifications(Run(f, events, perms).1))
    decreases |events|
  {
    if events != [] {
      var ev := events[0];
      var rest := events[1..];
      var s := Step(f, ev, perms);
      var r := Run(s.0, rest, perms);
      assert Run(f, events, perms).1 == s.1 + r.1;
      RunNotifiesFirstFixThenRoutine(s.0, rest, perms);
      NotificationsAppend(s.1, r.1);
      if ev.LocationChanged? {
        assert Notifications(s.1) == s.1;
        assert Fixes(events) == [ev.fix] + Fixes(rest);
        PrependNotification(f.firstFixPending, ev.fix, Fixes(rest), Notifications(r.1));
      } else {
        NotificationsOfNone(s.1);
        assert Fixes(events) == Fixes(rest);
      }
    }
  }

  /** Under the reference behaviour there is one first fix at most, and all else is routine. */
  lemma {:induction false} FirstFixCounts(pending: bool, fixes: seq<Fix>, notes: seq<Effect>)
    requires FirstFixThenRoutine(pending, fixes, notes)
    ensures Count(notes, IsFirstFix) == (if pending && fixes != [] then 1 else 0)
    ensures Count(notes, IsRoutine) == |fixes| - Count(notes, IsFirstFix)
    decreases |notes|
  {
    if notes != [] {
      assert FirstFixThenRoutine(false, fixes[1..], notes[1..]) by {
        forall i | 0 <= i < |notes[1..]|
          ensures notes[1..][i] == LocationCatched(fixes[1..][i])
        {
          assert notes[1..][i] == notes[i + 1];
        }
      }
      FirstFixCounts(false, fixes[1..], notes[1..]);
    }
  }

  /**
   From construction, any run of events raises the first-fix callback exactly
   once if a location arrived at all, for the first location, and the routine
   callback once for each later location.
   */
  lemma OneFirstFixPerFinder(events: seq<Event>, perms: LocationPermissions)
    ensures var notes := Notifications(Run(NewFinder(), events, perms).1);
      && Count(notes, IsFirstFix) == (if Fixes(events) != [] then 1 else 0)
      && Count(notes, IsRoutine) == |Fixes(events)| - Count(notes, IsFirstFix)
      && (Fixes(events) != [] ==> notes[0] == FirstLocationCatched(Fixes(events)[0]))
  {
    var notes := Notifications(Run(NewFinder(), events, perms).1);
    RunNotifiesFirstFixThenRoutine(NewFinder(), events, perms);
    FirstFixCounts(true, Fixes(events), notes);
  }

  lemma {:induction false} FixesOfUpdates(fixes: seq<Fix>)
    ensures Fixes(Updates(fixes)) == fixes
    decreases |fixes|
  {
    if fixes != [] {
      var u := Updates(fixes);
      assert u[1..] == Updates(fixes[1..]);
      FixesOfUpdates(fixes[1..]);
      assert fixes == [fixes[0]] + fixes[1..];
    }
  }

  /**
   For n >= 1 locations delivered to a new finder: one first-fix callback for
   the first, n - 1 routine callbacks for the rest in arrival order, and the
   last location is the current one.
   */
  lemma UpdatesRaiseOneFirstFix(fixes: seq<Fix>, perms: LocationPermissions)
    requires |fixes| >= 1
    ensures var (f, effects) := Run(NewFinder(), Updates(fixes), perms);
      && Count(Notifications(effects), IsFirstFix) == 1
      && Count(Notifications(effects), IsRoutine) == |fixes| - 1
      && |Notifications(effects)| == |fixes|
      && Notifications(effects)[0] == FirstLocationCatched(fixes[0])
      && (forall i :: 1 <= i < |fixes| ==> Notifications(effects)[i] == LocationCatched(fixes[i]))
      && f.current == Some(fixes[|fixes| - 1])
      && !f.firstFixPending
  {
    FixesOfUpdates(fixes);
    OneFirstFixPerFinder(Updates(fixes), perms);
    RunNotifiesFirstFixThenRoutine(NewFinder(), Updates(fixes), perms);
  }

  /**
   Starting a profile again after a first fix does not bring the first-fix
   callback back: later locations are all routine.
   */
  lemma RestartKeepsFirstFixCleared(before: seq<Fix>, profile: Profile, after: seq<Fix>, perms: LocationPermissions)
    requires before != []
    ensures var events := Updates(before) + [Start(profile)] + Updates(after);
      Count(Notifications(Run(NewFinder(), events, perms).1), IsFirstFix) == 1
  {
    var events := Updates(before) + [Start(profile)] + Updates(after);
    FixesOfUpdates(before);
    assert events[0] == LocationChanged(before[0]);
    assert Fixes(events) != [] by {
      assert Fixes(events) == [before[0]] + Fixes(events[1..]);
    }
    OneFirstFixPerFinder(events, perms);
  }

  /** A second stop right after a first one does nothing: no second disconnect. */
  lemma StopTwiceDisconnectsOnce(f: Finder)
    ensures var (f1, e1) := StopLocationUpdates(f);
      var (f2, e2) := StopLocationUpdates(f1);
      && f2 == f1 && e2 == []
      && Count(e1 + e2, IsDisconnect) == (if IsConnected(f) then 1 else 0)
  {
  }

  /** Switching profile replaces the request entirely; nothing of the old one remains. */
  lemma SwitchingProfileReplacesRequest(f: Finder, first: Profile, second: Profile)
    ensures GetLocation(GetLocation(f, first).0, second).0 == GetLocation(f, second).0
  {
  }
}
