/**
 The activity hosting the offline map: the permission gate run at creation,
 the permission-result callback, centring the map on the first fix, and the
 pause/resume hooks forwarded to the map view.

 The platform and the map library are not modelled. Their calls are
 `ActivityEffect` tokens; the map view is a record of the settings the
 activity gives it.
 */
module MainActivity {
  import opened Options
  import opened LocationFinder
  import opened Sequences

  // Offline tile source and map settings.
  const MINZOOM: int := 1
  const MAXZOOM: int := 30
  const TILE_SIZE_PIXELS: int := 256
  const TILE_SOURCE_NAME: string := "4uMaps"
  const TILE_FILENAME_ENDING: string := ".png"
  const CENTER_ZOOM: int := 10

  const REQUEST_CODE_REQUEST_APP_PERMISSIONS: int := 213

  // Android's grant-result value for a granted permission.
  const PERMISSION_GRANTED: int := 0

  const PERMISSIONS_MESSAGE: string := "All permissions must be granted to run the app"

  datatype Permission = WriteExternalStorage | AccessFineLocation | AccessCoarseLocation

  /** The permissions the activity requests, in request order. */
  const APP_PERMISSIONS: seq<Permission> := [WriteExternalStorage, AccessFineLocation, AccessCoarseLocation]

  /** One boolean per permission: whether it is granted, or whether to show a rationale for it. */
  datatype PermissionFlags = PermissionFlags(writeExternalStorage: bool, accessFineLocation: bool, accessCoarseLocation: bool)
  {
    function Of(p: Permission): bool {
      match p
      case WriteExternalStorage => writeExternalStorage
      case AccessFineLocation => accessFineLocation
      case AccessCoarseLocation => accessCoarseLocation
    }
  }

  datatype TileSource = XYTileSource(
    name: string, minZoom: int, maxZoom: int, tileSizePixels: int,
    imageFilenameEnding: string, baseUrls: seq<string>)

  datatype GeoPoint = GeoPoint(latitude: real, longitude: real)

  /** The map view's state as set by the activity; `None` zoom and centre are the library defaults. */
  datatype MapView = MapView(tileSource: TileSource, useDataConnection: bool, zoom: Option<int>, center: Option<GeoPoint>)

  datatype Activity = Activity(offlineMap: Option<MapView>, finished: bool)

  /** Calls into the platform and the map library, in the order made. */
  datatype ActivityEffect =
    | InitLocationFinder
    | AttachOfflineMap
    | ShowToast(message: string)
    | Finish
    | RequestPermissions(permissions: seq<Permission>, requestCode: int)
    | MapResume
    | MapPause

  /** The three outcomes of the permission check at start-up. */
  datatype Decision = Proceed | FinishActivity | RequestAll

  /** A Java evaluation that either returns a value or throws. */
  datatype Outcome<T> = Returned(value: T) | Threw(exception: JavaException)

  datatype JavaException = ArrayIndexOutOfBounds(index: int, length: int)

  /** An activity as created: no map yet, not finished. */
  function NewActivity(): (a: Activity)
    ensures a.offlineMap == None && !a.finished
  {
    Activity(None, false)
  }

  /** The map view: offline tile source over zoom 1..30, 256-pixel PNG tiles, no data connection. */
  function NewOfflineMap(): (m: MapView)
    ensures m.tileSource.name == "4uMaps"
    ensures 1 == m.tileSource.minZoom <= m.tileSource.maxZoom == 30
    ensures m.tileSource.tileSizePixels == 256 && m.tileSource.imageFilenameEnding == ".png"
    ensures m.tileSource.baseUrls == [] && !m.useDataConnection
    ensures m.zoom == None && m.center == None
  {
    var tileSource := XYTileSource(TILE_SOURCE_NAME, MINZOOM, MAXZOOM, TILE_SIZE_PIXELS, TILE_FILENAME_ENDING, []);
    MapView(tileSource, false, None, None)
  }

  /** The map as this activity configures it: offline only, within the tile source's zoom range. */
  predicate OfflineConfigured(m: MapView) {
    && m.tileSource == NewOfflineMap().tileSource
    && !m.useDataConnection
    && (m.zoom.Some? ==> m.tileSource.minZoom <= m.zoom.value <= m.tileSource.maxZoom)
  }

  /** Creating the map replaces the activity's map with a fresh offline one and attaches it. */
  function CreateOfflineMap(a: Activity): (r: (Activity, seq<ActivityEffect>))
    ensures r.0.offlineMap.Some? && OfflineConfigured(r.0.offlineMap.value)
    ensures r.0.offlineMap.value.center == None
    ensures r.0.finished == a.finished
    ensures r.1 == [AttachOfflineMap]
  {
    (a.(offlineMap := Some(NewOfflineMap())), [AttachOfflineMap])
  }

  /**
   The location finder the activity starts: a new finder on the indoor
   profile, asked to connect.
   */
  function StartLocationFinder(): (r: (Finder, seq<LocationFinder.Effect>))
    ensures r.0.firstFixPending && r.0.current == None
    ensures r.0.session == Some(Session(CreateLocationRequest(Indoor), false))
    ensures r.1 == [Connect]
  {
    GetLocation(NewFinder(), Indoor)
  }

  /**
   The decision at start-up: proceed when every permission is granted;
   otherwise finish when a rationale is due for every permission, and request
   them all when it is not.
   */
  function PermissionDecision(granted: PermissionFlags, rationale: PermissionFlags): (d: Decision)
    ensures d == Proceed <==> forall p: Permission :: granted.Of(p)
    ensures d == FinishActivity <==> (exists p: Permission :: !granted.Of(p)) && (forall p: Permission :: rationale.Of(p))
    ensures d == RequestAll <==> (exists p: Permission :: !granted.Of(p)) && (exists p: Permission :: !rationale.Of(p))
  {
    if !granted.Of(WriteExternalStorage) || !granted.Of(AccessFineLocation) || !granted.Of(AccessCoarseLocation) then
      if rationale.Of(WriteExternalStorage) && rationale.Of(AccessFineLocation) && rationale.Of(AccessCoarseLocation) then
        FinishActivity
      else
        RequestAll
    else
      Proceed
  }

  /** The permission check run at creation, with the platform calls it makes. */
  function CheckAppPermissions(a: Activity, granted: PermissionFlags, rationale: PermissionFlags): (r: (Activity, seq<ActivityEffect>))
    ensures PermissionDecision(granted, rationale) == Proceed ==>
      && r.1 == [InitLocationFinder, AttachOfflineMap]
      && r.0.offlineMap == Some(NewOfflineMap()) && r.0.finished == a.finished
    ensures PermissionDecision(granted, rationale) == FinishActivity ==>
      && r.1 == [ShowToast(PERMISSIONS_MESSAGE), Finish]
      && r.0.finished && r.0.offlineMap == a.offlineMap
    ensures PermissionDecision(granted, rationale) == RequestAll ==>
      && r.1 == [RequestPermissions([WriteExternalStorage, AccessFineLocation, AccessCoarseLocation], 213)]
      && r.0 == a
  {
    match PermissionDecision(granted, rationale)
    case Proceed =>
      var (a', e) := CreateOfflineMap(a);
      (a', [InitLocationFinder] + e)
    case FinishActivity =>
      (a.(finished := true), [ShowToast(PERMISSIONS_MESSAGE), Finish])
    case RequestAll =>
      (a, [RequestPermissions(APP_PERMISSIONS, REQUEST_CODE_REQUEST_APP_PERMISSIONS)])
  }

  predicate IsRequest(e: ActivityEffect) { e.RequestPermissions? }

  predicate IsInitLocationFinder(e: ActivityEffect) { e.InitLocationFinder? }

  predicate IsAttachOfflineMap(e: ActivityEffect) { e.AttachOfflineMap? }

  predicate IsFinish(e: ActivityEffect) { e.Finish? }

  /**
   At start-up exactly one of three things happens: the finder is started and
   the map created once each, with no request and no finish; or the activity
   finishes with nothing requested or started; or one request for all three
   permissions is issued and nothing else.
   */
  lemma StartupEffects(a: Activity, granted: PermissionFlags, rationale: PermissionFlags)
    ensures var (a', effects) := CheckAppPermissions(a, granted, rationale);
      && ((forall p: Permission :: granted.Of(p)) ==>
            && Count(effects, IsInitLocationFinder) == 1 && Count(effects, IsAttachOfflineMap) == 1
            && Count(effects, IsRequest) == 0 && Count(effects, IsFinish) == 0 && a'.finished == a.finished)
      && ((exists p: Permission :: !granted.Of(p)) && (forall p: Permission :: rationale.Of(p)) ==>
            && Count(effects, IsFinish) == 1 && a'.finished
            && Count(effects, IsRequest) == 0 && Count(effects, IsInitLocationFinder) == 0
            && a'.offlineMap == a.offlineMap)
      && ((exists p: Permission :: !granted.Of(p)) && (exists p: Permission :: !rationale.Of(p)) ==>
            && Count(effects, IsRequest) == 1
            && effects[0] == RequestPermissions(APP_PERMISSIONS, REQUEST_CODE_REQUEST_APP_PERMISSIONS)
            && Count(effects, IsInitLocationFinder) == 0 && Count(effects, IsFinish) == 0
            && a' == a)
  {
  }

  /**
   The permission-result callback as written: the guard only checks that
   more than one result is present, then reads results 0, 1 and 2 with
   Java's short-circuit evaluation, so two granted results and no third
   make it read past the end of the array.
   */
  function PermissionResultAsWritten(requestCode: int, grantResults: seq<int>): (r: Outcome<bool>)
    ensures r.Threw? <==>
      && requestCode == REQUEST_CODE_REQUEST_APP_PERMISSIONS && |grantResults| == 2
      && grantResults[0] == PERMISSION_GRANTED && grantResults[1] == PERMISSION_GRANTED
    ensures r.Threw? ==> r.exception == ArrayIndexOutOfBounds(2, 2)
    ensures r.Returned? ==> r.value == PermissionResultGrantsAll(requestCode, grantResults)
  {
    if requestCode != REQUEST_CODE_REQUEST_APP_PERMISSIONS then Returned(false)
    else if !(|grantResults| > 1) then Returned(false)
    else if grantResults[0] != PERMISSION_GRANTED then Returned(false)
    else if grantResults[1] != PERMISSION_GRANTED then Returned(false)
    else if 2 >= |grantResults| then Threw(ArrayIndexOutOfBounds(2, |grantResults|))
    else Returned(grantResults[2] == PERMISSION_GRANTED)
  }

  /** The two results that make the callback as written throw. */
  lemma PermissionResultAsWrittenThrows()
    ensures PermissionResultAsWritten(REQUEST_CODE_REQUEST_APP_PERMISSIONS, [PERMISSION_GRANTED, PERMISSION_GRANTED])
            == Threw(ArrayIndexOutOfBounds(2, 2))
  {
  }

  /**
   The permission-result predicate with the guard the reads need (more than
   two results): it holds exactly when the request code is the activity's and
   every requested permission has a granted result at its position. It never
   reads past the end.
   */
  function PermissionResultGrantsAll(requestCode: int, grantResults: seq<int>): (ok: bool)
    ensures ok <==>
      && requestCode == REQUEST_CODE_REQUEST_APP_PERMISSIONS
      && |grantResults| >= |APP_PERMISSIONS|
      && forall i :: 0 <= i < |APP_PERMISSIONS| ==> grantResults[i] == PERMISSION_GRANTED
  {
    requestCode == REQUEST_CODE_REQUEST_APP_PERMISSIONS && |grantResults| > 2
    && grantResults[0] == PERMISSION_GRANTED
    && grantResults[1] == PERMISSION_GRANTED
    && grantResults[2] == PERMISSION_GRANTED
  }

  /** Wherever the callback as written does not throw, the corrected predicate agrees with it. */
  lemma PermissionResultCorrectionAgrees(requestCode: int, grantResults: seq<int>)
    requires !PermissionResultAsWritten(requestCode, grantResults).Threw?
    ensures PermissionResultAsWritten(requestCode, grantResults) == Returned(PermissionResultGrantsAll(requestCode, grantResults))
  {
  }

  /** The permission-result callback: initialisation follows only a full grant. */
  function OnRequestPermissionsResult(a: Activity, requestCode: int, grantResults: seq<int>): (r: (Activity, seq<ActivityEffect>))
    ensures PermissionResultGrantsAll(requestCode, grantResults) ==>
      && r.1 == [InitLocationFinder, AttachOfflineMap]
      && r.0.offlineMap.Some? && OfflineConfigured(r.0.offlineMap.value)
    ensures !PermissionResultGrantsAll(requestCode, grantResults) ==> r == (a, [])
    ensures r.0.finished == a.finished
  {
    if PermissionResultGrantsAll(requestCode, grantResults) then
      var (a', e) := CreateOfflineMap(a);
      (a', [InitLocationFinder] + e)
    else
      (a, [])
  }

  /**
   Centring: nothing when there is no map yet; otherwise zoom 10 on the fix's
   coordinates, with the tile source and the offline setting untouched.
   */
  function ShowCurrentLocation(a: Activity, fix: Fix): (r: Activity)
    ensures a.offlineMap.None? ==> r == a
    ensures a.offlineMap.Some? ==>
      && r.offlineMap.Some?
      && r.offlineMap.value.center == Some(GeoPoint(fix.latitude, fix.longitude))
      && r.offlineMap.value.zoom == Some(10)
      && r.offlineMap.value.tileSource == a.offlineMap.value.tileSource
      && r.offlineMap.value.useDataConnection == a.offlineMap.value.useDataConnection
    ensures r.finished == a.finished
  {
    match a.offlineMap
    case None => a
    case Some(m) =>
      a.(offlineMap := Some(m.(zoom := Some(CENTER_ZOOM), center := Some(GeoPoint(fix.latitude, fix.longitude)))))
  }

  /** Centring keeps the map offline and within its zoom range. */
  lemma CentringKeepsOfflineConfiguration(a: Activity, fix: Fix)
    requires a.offlineMap.Some? && OfflineConfigured(a.offlineMap.value)
    ensures ShowCurrentLocation(a, fix).offlineMap.Some?
    ensures OfflineConfigured(ShowCurrentLocation(a, fix).offlineMap.value)
  {
  }

  /** The finder's listener callbacks as the activity handles them: only the first fix centres. */
  function OnLocationCallback(a: Activity, e: LocationFinder.Effect): (r: Activity)
    ensures e.FirstLocationCatched? ==> r == ShowCurrentLocation(a, e.fix)
    ensures !e.FirstLocationCatched? ==> r == a
  {
    match e
    case FirstLocationCatched(fix) => ShowCurrentLocation(a, fix)
    case _ => a
  }

  function ReceiveLocationCallbacks(a: Activity, effects: seq<LocationFinder.Effect>): (r: Activity)
    decreases |effects|
  {
    if effects == [] then a
    else ReceiveLocationCallbacks(OnLocationCallback(a, effects[0]), effects[1..])
  }

  /** Routine callbacks change nothing in the activity. */
  lemma {:induction false} RoutineCallbacksChangeNothing(a: Activity, fixes: seq<Fix>, notes: seq<LocationFinder.Effect>)
    requires FirstFixThenRoutine(false, fixes, notes)
    ensures ReceiveLocationCallbacks(a, notes) == a
    decreases |notes|
  {
    if notes != [] {
      assert FirstFixThenRoutine(false, fixes[1..], notes[1..]) by {
        forall i | 0 <= i < |notes[1..]|
          ensures notes[1..][i] == LocationCatched(fixes[1..][i])
        {
          assert notes[1..][i] == notes[i + 1];
        }
      }
      RoutineCallbacksChangeNothing(a, fixes[1..], notes[1..]);
    }
  }

  /**
   From a new finder, whatever events arrive, a created map ends up centred
   on the first location at zoom 10, however many locations follow it.
   */
  lemma FirstFixCentresMap(a: Activity, events: seq<LocationFinder.Event>, perms: LocationPermissions)
    requires a.offlineMap.Some? && Fixes(events) != []
    ensures var notes := Notifications(Run(NewFinder(), events, perms).1);
      var a' := ReceiveLocationCallbacks(a, notes);
      && a'.offlineMap.Some?
      && a'.offlineMap.value.center == Some(GeoPoint(Fixes(events)[0].latitude, Fixes(events)[0].longitude))
      && a'.offlineMap.value.zoom == Some(CENTER_ZOOM)
      && a'.offlineMap.value.tileSource == a.offlineMap.value.tileSource
  {
    var fixes := Fixes(events);
    var notes := Notifications(Run(NewFinder(), events, perms).1);
    RunNotifiesFirstFixThenRoutine(NewFinder(), events, perms);
    assert notes[0] == FirstLocationCatched(fixes[0]);
    var a1 := OnLocationCallback(a, notes[0]);
    assert FirstFixThenRoutine(false, fixes[1..], notes[1..]) by {
      forall i | 0 <= i < |notes[1..]|
        ensures notes[1..][i] == LocationCatched(fixes[1..][i])
      {
        assert notes[1..][i] == notes[i + 1];
      }
    }
    RoutineCallbacksChangeNothing(a1, fixes[1..], notes[1..]);
  }

  /**
   The known defect: a first fix that arrives before the map exists is
   dropped, not queued, and a map created afterwards is never centred by the
   routine callbacks that follow.
   */
  lemma FirstFixBeforeMapIsLost(a: Activity, before: seq<LocationFinder.Event>, after: seq<LocationFinder.Event>,
                                perms: LocationPermissions)
    requires a.offlineMap.None? && Fixes(before) != []
    ensures var r1 := Run(NewFinder(), before, perms);
      var a1 := ReceiveLocationCallbacks(a, Notifications(r1.1));
      var a2 := CreateOfflineMap(a1).0;
      var a3 := ReceiveLocationCallbacks(a2, Notifications(Run(r1.0, after, perms).1));
      && a1 == a
      && a3.offlineMap.Some? && a3.offlineMap.value.center == None
  {
    var r1 := Run(NewFinder(), before, perms);
    var fixes := Fixes(before);
    var notes := Notifications(r1.1);
    RunNotifiesFirstFixThenRoutine(NewFinder(), before, perms);
    var a0 := OnLocationCallback(a, notes[0]);
    assert a0 == a;
    assert FirstFixThenRoutine(false, fixes[1..], notes[1..]) by {
      forall i | 0 <= i < |notes[1..]|
        ensures notes[1..][i] == LocationCatched(fixes[1..][i])
      {
        assert notes[1..][i] == notes[i + 1];
      }
    }
    RoutineCallbacksChangeNothing(a0, fixes[1..], notes[1..]);
    var a2 := CreateOfflineMap(a).0;
    RunNotifiesFirstFixThenRoutine(r1.0, after, perms);
    RoutineCallbacksChangeNothing(a2, Fixes(after), Notifications(Run(r1.0, after, perms).1));
  }

  /** Resume is forwarded to the map only when there is one. */
  function OnResume(a: Activity): (r: (Activity, seq<ActivityEffect>))
    ensures r.0 == a
    ensures r.1 != [] <==> a.offlineMap.Some?
    ensures r.1 != [] ==> r.1 == [MapResume]
  {
    if a.offlineMap.Some? then (a, [MapResume]) else (a, [])
  }

  /** Pause is forwarded to the map only when there is one. */
  function OnPause(a: Activity): (r: (Activity, seq<ActivityEffect>))
    ensures r.0 == a
    ensures r.1 != [] <==> a.offlineMap.Some?
    ensures r.1 != [] ==> r.1 == [MapPause]
  {
    if a.offlineMap.Some? then (a, [MapPause]) else (a, [])
  }

  datatype Visibility = Resumed | Paused

  /** The effects of a run of visibility changes of the activity. */
  function ForwardVisibility(a: Activity, changes: seq<Visibility>): (effects: seq<ActivityEffect>)
    decreases |changes|
  {
    if changes == [] then []
    else
      (if changes[0] == Resumed then OnResume(a).1 else OnPause(a).1) + ForwardVisibility(a, changes[1..])
  }

  /**
   With a map, the map's pause/resume calls mirror the activity's visibility
   changes one for one and in order; without one, nothing is forwarded.
   */
  lemma {:induction false} MapMirrorsVisibility(a: Activity, changes: seq<Visibility>)
    ensures a.offlineMap.None? ==> ForwardVisibility(a, changes) == []
    ensures a.offlineMap.Some? ==>
      && |ForwardVisibility(a, changes)| == |changes|
      && forall i :: 0 <= i < |changes| ==>
           ForwardVisibility(a, changes)[i] == (if changes[i] == Resumed then MapResume else MapPause)
    decreases |changes|
  {
    if changes != [] {
      MapMirrorsVisibility(a, changes[1..]);
      if a.offlineMap.Some? {
        var fw := ForwardVisibility(a, changes);
        forall i | 1 <= i < |changes|
          ensures fw[i] == (if changes[i] == Resumed then MapResume else MapPause)
        {
          assert fw[i] == ForwardVisibility(a, changes[1..])[i - 1];
        }
      }
    }
  }
}
