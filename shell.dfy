/** The Android shell (`MainActivity.kt`): the activity that hosts the web client in a
    WebView. Modelled are its decisions: which links leave the WebView, which files a
    chooser result hands back, and the one-shot callback slots of the file chooser and of
    the location prompt, together with the loading overlay and the back button.

    Callbacks handed in by the WebView are identified by numbers the activity model
    draws from a counter, one per request; what other apps and the system do (launching
    intents, the permission dialog, the camera) comes in as parameters. */
module Shell {
  import opened Wrappers
  import Text

  type Uri = string

  /** A link the WebView is about to open: its scheme and host as `Uri` parses them
      (absent when the text has none) and its whole text. */
  datatype Link = Link(scheme: Option<string>, host: Option<string>, text: string)

  /** The origin `WebViewAssetLoader` serves the bundled web client from. */
  const AppHost: string := "appassets.androidplatform.net"
  /** The external site whose pages always open outside the app. */
  const ExternalSite: string := "katara.pages.dev"

  const NoAppToast: string := "No hay una app para abrir este enlace"
  const ChooserFailedToast: string := "No se pudo abrir el selector de archivos"
  const LocationDeniedToast: string := "Permiso de ubicación denegado"

  /** The progress from which on the overlay is hidden. */
  const HideProgress: int := 80

  /** `shouldOverrideUrlLoading`: true when the link is handed to another app, false when
      the WebView loads it itself. The scheme is compared lower-cased. */
  function OverridesLoading(u: Link): bool {
    if u.scheme.None? then false
    else if u.host.GetOr("") != AppHost || Text.Contains(u.text, ExternalSite) then true
    else
      var scheme := Text.Lower(u.scheme.value);
      !(scheme == "http" || scheme == "https")
  }

  // ------------------------------------------------------------------ file chooser result

  /** The `Intent` a chooser answers with: its single URI and its clip items. */
  datatype Intent = Intent(data: Option<Uri>, clip: Option<seq<Uri>>)

  /** An `ActivityResult`: whether the result code is `RESULT_OK`, and its intent. */
  datatype ActivityResult = ActivityResult(ok: bool, data: Option<Intent>)

  /** The URIs handed back to the WebView for a chooser result (null as None), given the
      photo URI prepared for the camera, if any. */
  function ChosenUris(r: ActivityResult, camera: Option<Uri>): Option<seq<Uri>> {
    if !r.ok then None
    else if r.data.None? || r.data.value.data.None? then (if camera.Some? then Some([camera.value]) else None)
    else if r.data.value.clip.Some? && |r.data.value.clip.value| > 0 then r.data.value.clip
    else Some([r.data.value.data.value])
  }

  /** What a file callback received: null (None) or the chosen URIs. */
  datatype FileDelivery = FileDelivery(callback: nat, uris: Option<seq<Uri>>)

  /** What a geolocation callback received: `invoke(origin, allow, retain)`. */
  datatype GeoAnswer = GeoAnswer(callback: nat, origin: Option<string>, allow: bool, retain: bool)

  /** The permissions as the launcher reports them. */
  const FineLocation: string := "android.permission.ACCESS_FINE_LOCATION"
  const CoarseLocation: string := "android.permission.ACCESS_COARSE_LOCATION"

  /** Location is granted when the fine or the coarse permission is. */
  predicate Granted(grants: map<string, bool>) {
    (FineLocation in grants && grants[FineLocation]) || (CoarseLocation in grants && grants[CoarseLocation])
  }

  /** The callbacks that received a value, in order, given how to read the callback of one delivery. */
  function Ids<T>(delivered: seq<T>, callbackOf: T -> nat): (r: seq<nat>)
    ensures |r| == |delivered| && forall i :: 0 <= i < |delivered| ==> r[i] == callbackOf(delivered[i])
  {
    seq(|delivered|, i requires 0 <= i < |delivered| => callbackOf(delivered[i]))
  }

  function FileCallback(d: FileDelivery): nat { d.callback }

  function GeoCallback(a: GeoAnswer): nat { a.callback }

  /** A one-shot callback slot: the callbacks are numbered below `next`; the one waiting,
      if any, has received nothing yet; and no callback has received two values. */
  ghost predicate OneShot(waiting: Option<nat>, given: seq<nat>, next: nat) {
    && (waiting.Some? ==> waiting.value < next && waiting.value !in given)
    && (forall i :: 0 <= i < |given| ==> given[i] < next)
    && (forall i, j :: 0 <= i < j < |given| ==> given[i] != given[j])
  }

  class Activity {
    /** `filePathCallback`: the file callback waiting for a value. */
    var fileCallback: Option<nat>
    /** `pendingCameraImageUri`. */
    var pendingCamera: Option<Uri>
    /** `pendingGeoOrigin` and `pendingGeoCallback`. */
    var geoOrigin: Option<string>
    var geoCallback: Option<nat>
    /** The next callback number. */
    var nextCallback: nat
    /** Every value delivered to a file callback, in order. */
    var files: seq<FileDelivery>
    /** Every answer given to a geolocation callback, in order. */
    var answers: seq<GeoAnswer>
    /** Links handed to other apps, and the toasts shown. */
    var launched: seq<string>
    var toasts: seq<string>
    /** The loading overlay: whether it is visible, and how many delayed hides are posted. */
    var overlayVisible: bool
    var postedHides: nat
    /** How many pages the WebView can go back, and whether the activity finished. */
    var backSteps: nat
    var finished: bool

    /** Both callback slots are one-shot (see `OneShot`). */
    ghost predicate Valid()
      reads this
    {
      OneShot(fileCallback, Ids(files, FileCallback), nextCallback) && OneShot(geoCallback, Ids(answers, GeoCallback), nextCallback)
    }

    /** The activity as `onCreate` leaves it, with the app page loading. */
    constructor ()
      ensures Valid()
      ensures fileCallback == None && pendingCamera == None && geoOrigin == None && geoCallback == None
      ensures files == [] && answers == [] && launched == [] && toasts == []
      ensures overlayVisible && postedHides == 0 && backSteps == 0 && !finished
    {
      fileCallback := None;
      pendingCamera := None;
      geoOrigin := None;
      geoCallback := None;
      nextCallback := 0;
      files := [];
      answers := [];
      launched := [];
      toasts := [];
      overlayVisible := true;
      postedHides := 0;
      backSteps := 0;
      finished := false;
    }

    /** `openExternal`: the link goes to the app that handles it, or a toast says there is none. */
    method OpenExternal(u: Link, appFound: bool)
      modifies this
      ensures launched == old(launched) + (if appFound then [u.text] else [])
      ensures toasts == old(toasts) + (if appFound then [] else [NoAppToast])
      ensures fileCallback == old(fileCallback) && pendingCamera == old(pendingCamera)
      ensures geoOrigin == old(geoOrigin) && geoCallback == old(geoCallback) && nextCallback == old(nextCallback)
      ensures files == old(files) && answers == old(answers)
      ensures overlayVisible == old(overlayVisible) && postedHides == old(postedHides)
      ensures backSteps == old(backSteps) && finished == old(finished)
    {
      if appFound {
        launched := launched + [u.text];
      } else {
        toasts := toasts + [NoAppToast];
      }
    }

    /** `shouldOverrideUrlLoading`. */
    method ShouldOverrideUrlLoading(u: Link, appFound: bool) returns (handled: bool)
      requires Valid()
      modifies this
      ensures Valid()
      ensures handled == OverridesLoading(u)
      ensures launched == old(launched) + (if handled && appFound then [u.text] else [])
      ensures toasts == old(toasts) + (if handled && !appFound then [NoAppToast] else [])
      ensures fileCallback == old(fileCallback) && pendingCamera == old(pendingCamera)
      ensures geoOrigin == old(geoOrigin) && geoCallback == old(geoCallback) && nextCallback == old(nextCallback)
      ensures files == old(files) && answers == old(answers)
      ensures overlayVisible == old(overlayVisible) && postedHides == old(postedHides)
      ensures backSteps == old(backSteps) && finished == old(finished)
    {
      var host := u.host.GetOr("");
      if u.scheme.None? {
        return false;
      }
      var scheme := Text.Lower(u.scheme.value);
      if host != AppHost || Text.Contains(u.text, ExternalSite) {
        OpenExternal(u, appFound);
        return true;
      }
      if scheme == "http" || scheme == "https" {
        return false;
      }
      OpenExternal(u, appFound);
      return true;
    }

    /** The start of `onShowFileChooser`: the callback still waiting, if any, receives null
        and leaves the slot. */
    method CancelWaitingFile()
      requires Valid()
      modifies this
      ensures OneShot(None, Ids(files, FileCallback), nextCallback) && OneShot(geoCallback, Ids(answers, GeoCallback), nextCallback)
      ensures fileCallback == None
      ensures files == old(files) + (if old(fileCallback).Some? then [FileDelivery(old(fileCallback).value, None)] else [])
      ensures pendingCamera == old(pendingCamera) && nextCallback == old(nextCallback) && toasts == old(toasts)
      ensures geoOrigin == old(geoOrigin) && geoCallback == old(geoCallback) && answers == old(answers)
      ensures launched == old(launched) && overlayVisible == old(overlayVisible) && postedHides == old(postedHides)
      ensures backSteps == old(backSteps) && finished == old(finished)
    {
      OneShotDeliver(fileCallback, Ids(files, FileCallback), nextCallback);
      if fileCallback.Some? {
        IdsSnoc(files, FileDelivery(fileCallback.value, None), FileCallback);
        files := files + [FileDelivery(fileCallback.value, None)];
      }
      fileCallback := None;
    }

    /** `onShowFileChooser`: a value of null goes to the callback still waiting, if any; the
        new callback takes its place, and `photo` is the photo URI prepared when the device
        has a camera app. When the chooser cannot be launched the slot is emptied. */
    method OnShowFileChooser(photo: Option<Uri>, launches: bool) returns (accepted: bool, callback: nat)
      requires Valid()
      modifies this
      ensures Valid()
      ensures callback == old(nextCallback) && nextCallback == old(nextCallback) + 1
      ensures files == old(files) + (if old(fileCallback).Some? then [FileDelivery(old(fileCallback).value, None)] else [])
      ensures accepted == launches
      ensures fileCallback == (if launches then Some(callback) else None)
      ensures pendingCamera == (if photo.Some? then photo else old(pendingCamera))
      ensures toasts == old(toasts) + (if launches then [] else [ChooserFailedToast])
      ensures geoOrigin == old(geoOrigin) && geoCallback == old(geoCallback) && answers == old(answers)
      ensures launched == old(launched) && overlayVisible == old(overlayVisible) && postedHides == old(postedHides)
      ensures backSteps == old(backSteps) && finished == old(finished)
    {
      CancelWaitingFile();
      OneShotSkip(geoCallback, Ids(answers, GeoCallback), nextCallback);
      OneShotDraw(None, Ids(files, FileCallback), nextCallback);
      callback := nextCallback;
      nextCallback := nextCallback + 1;
      fileCallback := Some(callback);
      pendingCamera := if photo.Some? then photo else pendingCamera;
      if launches {
        accepted := true;
      } else {
        fileCallback := None;
        toasts := toasts + [ChooserFailedToast];
        accepted := false;
      }
    }

    /** The chooser's result: the waiting callback, if any, is taken out of its slot and
        receives the chosen URIs, and the camera URI is cleared; without a waiting
        callback nothing changes. */
    method OnChooserResult(r: ActivityResult)
      requires Valid()
      modifies this
      ensures Valid()
      ensures fileCallback == None
      ensures old(fileCallback).None? ==> files == old(files) && pendingCamera == old(pendingCamera)
      ensures old(fileCallback).Some? ==>
        files == old(files) + [FileDelivery(old(fileCallback).value, ChosenUris(r, old(pendingCamera)))] && pendingCamera == None
      ensures geoOrigin == old(geoOrigin) && geoCallback == old(geoCallback) && nextCallback == old(nextCallback)
      ensures answers == old(answers) && launched == old(launched) && toasts == old(toasts)
      ensures overlayVisible == old(overlayVisible) && postedHides == old(postedHides)
      ensures backSteps == old(backSteps) && finished == old(finished)
    {
      var callback := fileCallback;
      fileCallback := None;
      if callback.None? {
        return;
      }
      var uris: Option<seq<Uri>>;
      if !r.ok {
        uris := None;
      } else if r.data.None? || r.data.value.data.None? {
        uris := if pendingCamera.Some? then Some([pendingCamera.value]) else None;
      } else if r.data.value.clip.Some? && |r.data.value.clip.value| > 0 {
        uris := r.data.value.clip;
      } else {
        uris := Some([r.data.value.data.value]);
      }
      pendingCamera := None;
      OneShotDeliver(callback, Ids(files, FileCallback), nextCallback);
      IdsSnoc(files, FileDelivery(callback.value, uris), FileCallback);
      files := files + [FileDelivery(callback.value, uris)];
    }

    /** `onGeolocationPermissionsShowPrompt`: with the permission already held, the new
        callback is answered at once with `allow`; otherwise it waits in the slot while the
        permission is asked for. */
    method OnGeolocationPrompt(origin: string, hasPermission: bool) returns (callback: nat)
      requires Valid()
      modifies this
      ensures Valid()
      ensures callback == old(nextCallback) && nextCallback == old(nextCallback) + 1
      ensures hasPermission ==>
        answers == old(answers) + [GeoAnswer(callback, Some(origin), true, false)]
        && geoOrigin == old(geoOrigin) && geoCallback == old(geoCallback)
      ensures !hasPermission ==> answers == old(answers) && geoOrigin == Some(origin) && geoCallback == Some(callback)
      ensures fileCallback == old(fileCallback) && pendingCamera == old(pendingCamera) && files == old(files)
      ensures launched == old(launched) && toasts == old(toasts)
      ensures overlayVisible == old(overlayVisible) && postedHides == old(postedHides)
      ensures backSteps == old(backSteps) && finished == old(finished)
    {
      OneShotSkip(fileCallback, Ids(files, FileCallback), nextCallback);
      OneShotDraw(geoCallback, Ids(answers, GeoCallback), nextCallback);
      callback := nextCallback;
      nextCallback := nextCallback + 1;
      if hasPermission {
        IdsSnoc(answers, GeoAnswer(callback, Some(origin), true, false), GeoCallback);
        answers := answers + [GeoAnswer(callback, Some(origin), true, false)];
        return;
      }
      geoOrigin := Some(origin);
      geoCallback := Some(callback);
    }

    /** The permission launcher's result: the waiting callback, if any, is taken out of its
        slot and answered with whether fine or coarse location was granted; a refusal is
        also toasted. */
    method OnLocationPermissionResult(grants: map<string, bool>)
      requires Valid()
      modifies this
      ensures Valid()
      ensures geoOrigin == None && geoCallback == None
      ensures answers == old(answers) +
        (if old(geoCallback).Some? then [GeoAnswer(old(geoCallback).value, old(geoOrigin), Granted(grants), false)] else [])
      ensures toasts == old(toasts) + (if Granted(grants) then [] else [LocationDeniedToast])
      ensures fileCallback == old(fileCallback) && pendingCamera == old(pendingCamera) && files == old(files)
      ensures nextCallback == old(nextCallback) && launched == old(launched)
      ensures overlayVisible == old(overlayVisible) && postedHides == old(postedHides)
      ensures backSteps == old(backSteps) && finished == old(finished)
    {
      var granted := (FineLocation in grants && grants[FineLocation]) || (CoarseLocation in grants && grants[CoarseLocation]);
      var cb := geoCallback;
      var origin := geoOrigin;
      geoCallback := None;
      geoOrigin := None;
      OneShotDeliver(cb, Ids(answers, GeoCallback), nextCallback);
      if cb.Some? {
        IdsSnoc(answers, GeoAnswer(cb.value, origin, granted, false), GeoCallback);
        answers := answers + [GeoAnswer(cb.value, origin, granted, false)];
      }
      if !granted {
        toasts := toasts + [LocationDeniedToast];
      }
    }

    /** `onProgressChanged`: from 80 on a delayed hide is posted, below it the overlay is shown. */
    method OnProgressChanged(progress: int)
      requires Valid()
      modifies this
      ensures Valid()
      ensures progress >= HideProgress ==> postedHides == old(postedHides) + 1 && overlayVisible == old(overlayVisible)
      ensures progress < HideProgress ==> postedHides == old(postedHides) && overlayVisible
      ensures fileCallback == old(fileCallback) && pendingCamera == old(pendingCamera) && files == old(files)
      ensures geoOrigin == old(geoOrigin) && geoCallback == old(geoCallback) && answers == old(answers)
      ensures nextCallback == old(nextCallback) && launched == old(launched) && toasts == old(toasts)
      ensures backSteps == old(backSteps) && finished == old(finished)
    {
      if progress >= HideProgress {
        postedHides := postedHides + 1;
      } else {
        overlayVisible := true;
      }
    }

    /** A posted hide runs (250 ms later) and hides the overlay. */
    method RunPostedHide()
      requires Valid() && postedHides > 0
      modifies this
      ensures Valid()
      ensures postedHides == old(postedHides) - 1 && !overlayVisible
      ensures fileCallback == old(fileCallback) && pendingCamera == old(pendingCamera) && files == old(files)
      ensures geoOrigin == old(geoOrigin) && geoCallback == old(geoCallback) && answers == old(answers)
      ensures nextCallback == old(nextCallback) && launched == old(launched) && toasts == old(toasts)
      ensures backSteps == old(backSteps) && finished == old(finished)
    {
      postedHides := postedHides - 1;
      overlayVisible := false;
    }

    /** The WebView loads a page itself (a link `ShouldOverrideUrlLoading` kept in the app):
        its history grows by one entry, so back can return to the page before. */
    method WebViewNavigated()
      requires Valid()
      modifies this
      ensures Valid()
      ensures backSteps == old(backSteps) + 1 && finished == old(finished)
      ensures fileCallback == old(fileCallback) && pendingCamera == old(pendingCamera) && files == old(files)
      ensures geoOrigin == old(geoOrigin) && geoCallback == old(geoCallback) && answers == old(answers)
      ensures nextCallback == old(nextCallback) && launched == old(launched) && toasts == old(toasts)
      ensures overlayVisible == old(overlayVisible) && postedHides == old(postedHides)
    {
      backSteps := backSteps + 1;
    }

    /** The back button: one page back in the WebView when it can go back, otherwise the
        activity finishes. */
    method HandleBack()
      requires Valid()
      modifies this
      ensures Valid()
      ensures old(backSteps) > 0 ==> backSteps == old(backSteps) - 1 && finished == old(finished)
      ensures old(backSteps) == 0 ==> backSteps == 0 && finished
      ensures fileCallback == old(fileCallback) && pendingCamera == old(pendingCamera) && files == old(files)
      ensures geoOrigin == old(geoOrigin) && geoCallback == old(geoCallback) && answers == old(answers)
      ensures nextCallback == old(nextCallback) && launched == old(launched) && toasts == old(toasts)
      ensures overlayVisible == old(overlayVisible) && postedHides == old(postedHides)
    {
      if backSteps > 0 {
        backSteps := backSteps - 1;
      } else {
        finished := true;
      }
    }
  }

  // ------------------------------------------------------------------ properties

  /** Both directions of the routing rule: the WebView loads a link itself exactly when the
      link has no scheme, or it is on the app's own host, does not mention the external
      site and is http or https in any letter case. */
  lemma RouteRule(u: Link)
    ensures !OverridesLoading(u) <==>
      u.scheme.None? ||
      (u.host == Some(AppHost) && !Text.Contains(u.text, ExternalSite)
       && (Text.Lower(u.scheme.value) == "http" || Text.Lower(u.scheme.value) == "https"))
  {
  }

  /** A link that mentions the external site leaves the app whatever its host, once it has a scheme. */
  lemma ExternalSiteLeaves(u: Link)
    requires u.scheme.Some?
    requires exists i :: Text.OccursAt(u.text, ExternalSite, i)
    ensures OverridesLoading(u)
  {
    Text.ContainsIff(u.text, ExternalSite);
  }

  /** The app's pages stay in the WebView whatever the letter case of the scheme. */
  lemma AppPagesStay(text: string)
    requires !Text.Contains(text, ExternalSite)
    ensures !OverridesLoading(Link(Some("https"), Some(AppHost), text))
    ensures !OverridesLoading(Link(Some("HTTPS"), Some(AppHost), text))
  {
    Text.LowerAt("HTTPS");
    assert Text.Lower("HTTPS") == "https";
  }

  /** `mailto:`, `tel:` and `geo:` links go to other apps even on the app's own host. */
  lemma OtherSchemesLeave(text: string, scheme: string)
    requires scheme == "mailto" || scheme == "tel" || scheme == "geo"
    ensures OverridesLoading(Link(Some(scheme), Some(AppHost), text))
  {
    Text.LowerAt(scheme);
    assert Text.Lower(scheme)[0] == scheme[0];
  }

  /** The chooser result, case by case: nothing for a cancelled result; the camera photo
      when no URI came back; otherwise the clip items in order when there are any, else the
      single URI. A delivered array is never empty and holds only URIs of the result or
      the camera photo. */
  lemma ChosenCases(r: ActivityResult, camera: Option<Uri>)
    ensures !r.ok ==> ChosenUris(r, camera).None?
    ensures r.ok && (r.data.None? || r.data.value.data.None?) ==>
      ChosenUris(r, camera) == (if camera.Some? then Some([camera.value]) else None)
    ensures r.ok && r.data.Some? && r.data.value.data.Some? ==>
      ChosenUris(r, camera) ==
        if r.data.value.clip.Some? && |r.data.value.clip.value| > 0 then r.data.value.clip else Some([r.data.value.data.value])
    ensures ChosenUris(r, camera).Some? ==> |ChosenUris(r, camera).value| > 0
    ensures ChosenUris(r, camera).Some? ==> forall u :: u in ChosenUris(r, camera).value ==>
      Some(u) == camera || (r.data.Some? && (Some(u) == r.data.value.data || (r.data.value.clip.Some? && u in r.data.value.clip.value)))
  {
  }

  /** Delivering one more value appends its callback. */
  lemma IdsSnoc<T>(delivered: seq<T>, d: T, callbackOf: T -> nat)
    ensures Ids(delivered + [d], callbackOf) == Ids(delivered, callbackOf) + [callbackOf(d)]
  {
  }

  /** Handing the waiting callback its value and emptying the slot keeps the slot one-shot. */
  lemma OneShotDeliver(waiting: Option<nat>, given: seq<nat>, next: nat)
    requires OneShot(waiting, given, next)
    ensures OneShot(None, given + (if waiting.Some? then [waiting.value] else []), next)
  {
    var g := given + (if waiting.Some? then [waiting.value] else []);
    forall i, j | 0 <= i < j < |g| ensures g[i] != g[j] {
      if j == |given| {
        assert g[i] == given[i] && g[j] == waiting.value;
      }
    }
  }

  /** Drawing a new number leaves the slot one-shot, both when the number waits in the
      slot and when it is answered at once. */
  lemma OneShotDraw(waiting: Option<nat>, given: seq<nat>, next: nat)
    requires OneShot(waiting, given, next)
    ensures OneShot(Some(next), given, next + 1)
    ensures OneShot(waiting, given + [next], next + 1)
  {
  }

  /** Numbers drawn elsewhere from the shared counter do not disturb a slot. */
  lemma OneShotSkip(waiting: Option<nat>, given: seq<nat>, next: nat)
    requires OneShot(waiting, given, next)
    ensures OneShot(waiting, given, next + 1)
  {
  }

  /** A callback never gets two values: in a valid activity each callback occurs at most
      once among the values delivered. */
  lemma DeliveredOnce(given: seq<nat>, waiting: Option<nat>, next: nat, i: int, j: int)
    requires OneShot(waiting, given, next) && 0 <= i < |given| && 0 <= j < |given| && i != j
    ensures given[i] != given[j]
  {
    if j < i {
      assert given[j] != given[i];
    }
  }
}
