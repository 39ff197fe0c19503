# OsmdroidTileTest: first fix, permission gate and map guards

This project models the decision and state-machine logic of an Android demo activity. The activity shows an offline osmdroid map and centres it on the device's first fused-location fix. Android, the Google location SDK and osmdroid are abstracted away: their callbacks become events, and their calls become effect tokens that the transitions return.

- `LocationFinder` (`location_finder.dfy`) models `PlusFusedLocationFinder`. Its state is an optional session, the current location and the first-fix flag. A session is a provider client plus the request it was built with. The module covers the two request profiles, the start and stop guards, the first-fix/routine split, and runs over arbitrary event sequences.
- `MainActivity` (`main_activity.dfy`) models `MainActivity`. It covers the three-way permission decision at start-up, the permission-result predicate, the offline tile source, centring on the first fix, and forwarding pause/resume to the map view.
- `Options` (`options.dfy`) holds `Option`, which stands for a nullable Java reference.
- `Sequences` (`sequences.dfy`) holds `Count`, which counts the effects that satisfy a predicate.

The client and the location request are always replaced together by `getIndoorLocation`/`getOutdoorLocation`. The model therefore keeps them as one optional `Session`. The SDK's `isConnected()` becomes the session's `connected` flag. That flag is set by the `Connected` event and cleared by `ConnectionSuspended` and by a stop. Every provider callback is taken to come from the current client. A client replaced by a later start is not modelled (see "## Left out").

## Model

| member | source | states |
|---|---|---|
| LocationFinder.NewFinder | app/src/main/java/com/plusapps/osmdroidtiletest/PlusFusedLocationFinder.java:44-49 | A new finder has no current location and no client, and its first-fix flag is set |
| LocationFinder.CreateLocationRequest | app/src/main/java/com/plusapps/osmdroidtiletest/PlusFusedLocationFinder.java:126-171 | Indoor is 3,600,000 ms / 60,000 ms / balanced power. Outdoor is 2,000 ms / 1,000 ms / high accuracy. In both, 0 < fastest interval <= interval |
| LocationFinder.GetLocation | app/src/main/java/com/plusapps/osmdroidtiletest/PlusFusedLocationFinder.java:51-67 | Starting a profile installs a fresh, unconnected client whose request depends on the profile alone, and issues one connect. The current location and the first-fix flag are unchanged |
| LocationFinder.StartLocationUpdates | app/src/main/java/com/plusapps/osmdroidtiletest/PlusFusedLocationFinder.java:177-197 | Updates are requested, with the session's request, if and only if the client exists, is connected, and fine or coarse location is granted. One of the two is enough |
| LocationFinder.OnConnected | app/src/main/java/com/plusapps/osmdroidtiletest/PlusFusedLocationFinder.java:69-72 | After the connection callback the client is connected and keeps its request. Updates are requested exactly when a location permission is granted. Without a session the callback is a no-op |
| LocationFinder.OnConnectionSuspended | app/src/main/java/com/plusapps/osmdroidtiletest/PlusFusedLocationFinder.java:74-77 | A suspension leaves the client unconnected and issues a reconnect. The request, the location and the flag are kept. Without a session the callback is a no-op |
| LocationFinder.StopLocationUpdates | app/src/main/java/com/plusapps/osmdroidtiletest/PlusFusedLocationFinder.java:101-116 | Without a connected client, stopping changes nothing and emits nothing. Otherwise it removes the updates and then disconnects, after which the client is not connected |
| LocationFinder.StopTwiceDisconnectsOnce | app/src/main/java/com/plusapps/osmdroidtiletest/PlusFusedLocationFinder.java:101-116 | A second stop is a no-op, so two stops disconnect at most once |
| LocationFinder.OnLocationChanged | app/src/main/java/com/plusapps/osmdroidtiletest/PlusFusedLocationFinder.java:87-99 | Every location becomes the current one and leaves the flag cleared. It raises exactly one callback for that fix, and that callback is the first-fix one if and only if the flag was set |
| LocationFinder.Step | app/src/main/java/com/plusapps/osmdroidtiletest/PlusFusedLocationFinder.java:69-116 | No event other than a location touches the current location or the flag, or raises a listener callback |
| LocationFinder.Run | app/src/main/java/com/plusapps/osmdroidtiletest/PlusFusedLocationFinder.java:88-99 | After any event sequence, the flag stays set if and only if it was set and no location arrived. The current location is the last one to arrive, if any did |
| LocationFinder.PrependNotification | app/src/main/java/com/plusapps/osmdroidtiletest/PlusFusedLocationFinder.java:92-98 | A callback for one more fix at the front of a routine sequence extends the reference first-fix-then-routine behaviour |
| LocationFinder.RunNotifiesFirstFixThenRoutine | app/src/main/java/com/plusapps/osmdroidtiletest/PlusFusedLocationFinder.java:88-99 | For any event sequence, the listener receives one callback per location, in arrival order. Only the first location can be a first fix, and only when the flag was set |
| LocationFinder.FirstFixCounts | app/src/main/java/com/plusapps/osmdroidtiletest/PlusFusedLocationFinder.java:92-98 | Under that behaviour there is at most one first-fix callback, and every other callback is routine |
| LocationFinder.OneFirstFixPerFinder | app/src/main/java/com/plusapps/osmdroidtiletest/PlusFusedLocationFinder.java:44-99 | From construction, any event sequence raises one first-fix callback, for the first location, if any location arrives. It raises one routine callback for each later location |
| LocationFinder.UpdatesRaiseOneFirstFix | app/src/main/java/com/plusapps/osmdroidtiletest/PlusFusedLocationFinder.java:88-99 | For n >= 1 updates on a new finder there is 1 first-fix callback (for the first) and n-1 routine callbacks, in order. The last fix is the current one |
| LocationFinder.RestartKeepsFirstFixCleared | app/src/main/java/com/plusapps/osmdroidtiletest/PlusFusedLocationFinder.java:51-67 | Starting a profile again after a first fix does not bring the first-fix callback back |
| LocationFinder.SwitchingProfileReplacesRequest | app/src/main/java/com/plusapps/osmdroidtiletest/PlusFusedLocationFinder.java:126-171 | Starting one profile after another gives the same state as starting the second alone, so nothing of the earlier request is kept |
| MainActivity.NewActivity | app/src/main/java/com/plusapps/osmdroidtiletest/MainActivity.java:43 | The activity starts with no map view |
| MainActivity.NewOfflineMap | app/src/main/java/com/plusapps/osmdroidtiletest/MainActivity.java:41-64 | The tile source is "4uMaps", zoom 1..30 with MINZOOM <= MAXZOOM, 256-px tiles, ".png", no mirror URLs. The data connection is off |
| MainActivity.CreateOfflineMap | app/src/main/java/com/plusapps/osmdroidtiletest/MainActivity.java:46-79 | Creating the map leaves an offline-configured, uncentred map view and attaches it once |
| MainActivity.StartLocationFinder | app/src/main/java/com/plusapps/osmdroidtiletest/MainActivity.java:113-117 | The activity starts a new finder on the indoor profile: first fix pending, no location, one connect |
| MainActivity.PermissionDecision | app/src/main/java/com/plusapps/osmdroidtiletest/MainActivity.java:141-193 | Proceed if and only if every permission is granted. Finish if and only if one is missing and rationale holds for all three. Request if and only if one is missing and rationale fails for one |
| MainActivity.CheckAppPermissions | app/src/main/java/com/plusapps/osmdroidtiletest/MainActivity.java:139-192 | Proceed starts the finder and then creates the map. Finish shows the message and finishes. Request issues one request with code 213 for WRITE_EXTERNAL_STORAGE, FINE and COARSE, in that order, and changes nothing else |
| MainActivity.StartupEffects | app/src/main/java/com/plusapps/osmdroidtiletest/MainActivity.java:141-192 | All granted gives one finder start and one map creation, with no request and no finish. Finish gives no request and no start. Otherwise there is exactly one request and nothing else |
| MainActivity.PermissionResultAsWritten | app/src/main/java/com/plusapps/osmdroidtiletest/MainActivity.java:200-201 | The callback as written throws if and only if the code is 213 and exactly two results are present, both granted. Otherwise it agrees with the corrected predicate |
| MainActivity.PermissionResultAsWrittenThrows | app/src/main/java/com/plusapps/osmdroidtiletest/MainActivity.java:200-201 | Code 213 with results [GRANTED, GRANTED] reads index 2 of a 2-element array |
| MainActivity.PermissionResultGrantsAll | app/src/main/java/com/plusapps/osmdroidtiletest/MainActivity.java:200-202 | Holds if and only if the code is 213 and each of the three requested permissions has a granted result at its position |
| MainActivity.PermissionResultCorrectionAgrees | app/src/main/java/com/plusapps/osmdroidtiletest/MainActivity.java:200-205 | Wherever the callback as written does not throw, it returns the corrected predicate's answer |
| MainActivity.OnRequestPermissionsResult | app/src/main/java/com/plusapps/osmdroidtiletest/MainActivity.java:196-207 | Built on the corrected predicate. A full grant starts the finder and creates an offline map. Any other result changes nothing and emits nothing. This includes code 213 with exactly two granted results, where the source throws instead |
| MainActivity.ShowCurrentLocation | app/src/main/java/com/plusapps/osmdroidtiletest/MainActivity.java:88-104 | With no map, centring is a no-op. Otherwise it sets zoom 10 and centres on the fix's latitude and longitude. The tile source and the offline setting are kept |
| MainActivity.CentringKeepsOfflineConfiguration | app/src/main/java/com/plusapps/osmdroidtiletest/MainActivity.java:88-104 | Centring keeps an offline-configured map offline and within its zoom range |
| MainActivity.OnLocationCallback | app/src/main/java/com/plusapps/osmdroidtiletest/MainActivity.java:119-127 | A first-fix callback centres the map. A routine callback changes nothing |
| MainActivity.RoutineCallbacksChangeNothing | app/src/main/java/com/plusapps/osmdroidtiletest/MainActivity.java:119-122 | Any sequence of routine callbacks leaves the activity unchanged |
| MainActivity.FirstFixCentresMap | app/src/main/java/com/plusapps/osmdroidtiletest/MainActivity.java:119-127 | With a map present, a new finder's callbacks leave the map at zoom 10 on the first location, whatever follows |
| MainActivity.FirstFixBeforeMapIsLost | app/src/main/java/com/plusapps/osmdroidtiletest/MainActivity.java:88-99 | A first fix that arrives before the map exists is dropped. A map created afterwards is never centred by later callbacks |
| MainActivity.OnResume | app/src/main/java/com/plusapps/osmdroidtiletest/MainActivity.java:236-243 | Resume is forwarded to the map if and only if there is one. The state is unchanged |
| MainActivity.OnPause | app/src/main/java/com/plusapps/osmdroidtiletest/MainActivity.java:245-252 | Pause is forwarded to the map if and only if there is one. The state is unchanged |
| MainActivity.MapMirrorsVisibility | app/src/main/java/com/plusapps/osmdroidtiletest/MainActivity.java:236-252 | With a map, the map's pause/resume calls mirror the activity's visibility changes one for one, in order. Without one, nothing is forwarded |

## Left out

- Building and connecting the GoogleApiClient and the `LocationServices` calls belong to an external SDK. They appear only as the `connected` flag and the `Connect`, `RequestLocationUpdates`, `RemoveLocationUpdates` and `Disconnect` effects.
- `onConnectionFailed` does nothing in the source. It is the `ConnectionFailed` event, which leaves the state unchanged.
- Provider callbacks (`Connected`, `ConnectionSuspended`) can only come from a built client. For a finder with no session the model treats them as no-ops. In the source that case cannot arise, and the suspension handler would dereference null.
- LocationFinder.OnConnected: callbacks from a client replaced by a later start are not modelled. In the source the replaced client keeps the finder as its listener and is never disconnected. Its `onConnected` runs the update guard against the new client's `isConnected()`. The model treats every `Connected` event as coming from the current session.
- LocationFinder.OnConnectionSuspended: for the same reason, a suspension is always applied to the current session. In the source, a suspension of a replaced client calls `connect()` on the new client while the new client may still be connected. In the model the suspension marks the current session unconnected, so a following stop is a no-op.
- MainActivity.OnRequestPermissionsResult: uses the corrected guard (more than two results). On request code 213 with exactly two granted results the source throws ArrayIndexOutOfBoundsException; the model changes nothing there. `PermissionResultAsWritten` models the throwing behaviour (see "## Findings").
- `getCurrentLocation` is a plain getter. It is the finder's `current` field.
- LocationFinder.Run: the two location permissions are a parameter that stays fixed for a whole run. A permission revoked or granted mid-run is not modelled.
- osmdroid `Configuration.load`, `MapView` construction, view attachment and rendering are a third-party library. They are the `AttachOfflineMap` effect plus the map view's settings record.
- Toast, `finish`, `setContentView` and the rest of the lifecycle plumbing are platform UI. Toast and finish are effect tokens. The message text is a placeholder, not the source's string.
- The `synchronized` builder and callback threads are concurrency. The model is sequential.
- Latitude and longitude are doubles in the source. A fix is two reals carried through unchanged, with no arithmetic on them.
- The finder created by `initLocationFinder` lives only in a local variable in the source. The model returns it to the caller so that its callbacks can be composed with the activity.
- The start-up check finishes only when rationale holds for all three permissions. The model keeps that conjunction as written. A partial rationale leads to a new request.
- The permission-result guard is modelled from the code. The code accepts any array with at least three results whose first three are granted, not exactly three grants.

## Findings

| source | as written | input that shows it | evidently intended | confidence | as-written member | corrected member |
|---|---|---|---|---|---|---|
| app/src/main/java/com/plusapps/osmdroidtiletest/MainActivity.java:200-201 | The guard checks `grantResults.length > 1`, then reads `grantResults[0]`, `[1]` and `[2]` | requestCode 213 with grantResults [GRANTED, GRANTED]: the read of index 2 throws ArrayIndexOutOfBoundsException | Guard on more than two results (one per requested permission) before reading index 2 | not executed; medium, because the platform usually delivers no results or one per requested permission, so a two-element array may not occur in practice | MainActivity.PermissionResultAsWritten | MainActivity.PermissionResultGrantsAll |

The rest of the model uses the corrected predicate. `OnRequestPermissionsResult` is built on `PermissionResultGrantsAll`. `PermissionResultCorrectionAgrees` shows that the two agree wherever the code as written does not throw.
