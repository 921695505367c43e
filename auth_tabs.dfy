/** The sign-in panel of the client (`AuthTabs` in `app.js`): which form is shown, which tab
    is highlighted, the e-mail carried from one form to the next, and what a finished
    request does. Each `...Done` method is the part of a form's click handler that runs
    after `apiFetch` settled, given what it settled with. */
module AuthTabs {
  import opened Wrappers
  import opened Json
  import Web
  import Api
  import AppView

  /** `mode`. */
  datatype Mode = Login | Register | Verify | Forgot | Reset

  /** `{ login: 0, register: 1, forgot: 2 }[m]`: the tab that `setMode(m)` highlights. */
  function TabIndex(m: Mode): (r: Option<nat>)
    ensures r.Some? <==> m == Login || m == Register || m == Forgot
    ensures r.Some? ==> r.value < 3
  {
    match m
    case Login => Some(0)
    case Register => Some(1)
    case Forgot => Some(2)
    case _ => None
  }

  /** The success test of the handlers: `r.ok && j.ok`, with `j = json(r)`. A request
      that threw (`NetworkError`) never reaches it. */
  predicate Succeeded(r: Web.Reply) {
    r.Ok() && FieldTruthy(Api.ResponseJson(r), "ok")
  }

  /** `String(j[key])`, which is `"undefined"` for a missing field. */
  function FieldText(j: Json, key: string): (s: string)
    ensures Get(j, key).None? ==> s == "undefined"
    ensures Get(j, key).Some? && Get(j, key).value.JStr? ==> s == Get(j, key).value.s
  {
    match Get(j, key)
    case None => "undefined"
    case Some(v) => ToJsString(v)
  }

  /** What a successful sign-in or verification writes: both tokens, unconditionally. */
  function SignedIn(storage: map<string, string>, j: Json): map<string, string> {
    storage[Api.AccessKey := FieldText(j, "access_token")][Api.RefreshKey := FieldText(j, "refresh_token")]
  }

  class Panel {
    var mode: Mode
    /** The highlighted tab (`None`: no tab is highlighted). */
    var active: Option<nat>
    var carryEmail: string
    /** The form `draw()` last put in the box. */
    var shown: Mode

    /** The drawn form always matches the mode, and a highlight is one of the three tabs. */
    predicate Valid()
      reads this
    {
      shown == mode && (active.Some? ==> active.value < 3)
    }

    /** `AuthTabs()`: the sign-in form, with its tab highlighted and nothing carried. */
    constructor ()
      ensures Valid()
      ensures mode == Login && active == Some(0) && carryEmail == "" && shown == Login
    {
      mode := Login;
      active := Some(0);
      carryEmail := "";
      shown := Login;
    }

    /** `setMode(m)`: switches the form and moves the highlight to that form's tab, if it has one. */
    method SetMode(m: Mode)
      requires Valid()
      modifies this
      ensures Valid()
      ensures mode == m && shown == m && active == TabIndex(m) && carryEmail == old(carryEmail)
    {
      mode := m;
      active := TabIndex(m);
      shown := m;
    }

    /** The register handler after the request: on success it carries the e-mail and shows
        the verification form, without moving the highlight (it stays on "Crear cuenta");
        on failure only a message is shown. */
    method RegisterDone(d: Web.Delivery, email: string)
      requires Valid()
      modifies this
      ensures Valid()
      ensures d.Delivered? && Succeeded(d.reply) ==>
        mode == Verify && shown == Verify && carryEmail == email && active == old(active)
      ensures !(d.Delivered? && Succeeded(d.reply)) ==>
        mode == old(mode) && shown == old(shown) && carryEmail == old(carryEmail) && active == old(active)
    {
      if d.Delivered? && Succeeded(d.reply) {
        carryEmail := email;
        mode := Verify;
        shown := Verify;
      }
    }

    /** The forgot handler after the request: whatever the server answered, it carries the
        e-mail and shows the reset form. Only a request that threw leaves the panel as it was. */
    method ForgotDone(d: Web.Delivery, email: string)
      requires Valid()
      modifies this
      ensures Valid()
      ensures d.Delivered? ==> mode == Reset && shown == Reset && carryEmail == email && active == old(active)
      ensures d.NetworkError? ==>
        mode == old(mode) && shown == old(shown) && carryEmail == old(carryEmail) && active == old(active)
    {
      if d.Delivered? {
        carryEmail := email;
        mode := Reset;
        shown := Reset;
      }
    }

    /** The reset handler after the request: on success the sign-in form is shown (the
        highlight is not moved); otherwise nothing changes. */
    method ResetDone(d: Web.Delivery)
      requires Valid()
      modifies this
      ensures Valid()
      ensures d.Delivered? && Succeeded(d.reply) ==> mode == Login && shown == Login
      ensures !(d.Delivered? && Succeeded(d.reply)) ==> mode == old(mode) && shown == old(shown)
      ensures carryEmail == old(carryEmail) && active == old(active)
    {
      if d.Delivered? && Succeeded(d.reply) {
        mode := Login;
        shown := Login;
      }
    }
  }

  /** The login and verify handlers after the request: on success both tokens are written
      from the body, whatever they hold, and the hash becomes `#/`; on failure nothing changes. */
  method SignInDone(w: Web.Window, d: Web.Delivery)
    modifies w
    ensures d.Delivered? && Succeeded(d.reply) ==>
      w.storage == SignedIn(old(w.storage), Api.ResponseJson(d.reply)) && w.hash == "#/"
    ensures !(d.Delivered? && Succeeded(d.reply)) ==> w.storage == old(w.storage) && w.hash == old(w.hash)
    ensures w.query == old(w.query)
  {
    if d.Delivered? && Succeeded(d.reply) {
      var j := Api.ResponseJson(d.reply);
      w.SetItem(Api.AccessKey, FieldText(j, "access_token"));
      w.SetItem(Api.RefreshKey, FieldText(j, "refresh_token"));
      w.SetHash("#/");
    }
  }

  /** After a successful sign-in the client counts as signed in exactly when the access
      token text is non-empty (a body without the field leaves the text `"undefined"`, which
      counts); the guard then shows the dashboard at `#/`, and otherwise sends the client
      back to `#/auth`. No other storage entry changes. */
  lemma SignInLands(storage: map<string, string>, j: Json)
    ensures Api.IsAuthed(SignedIn(storage, j)) <==> FieldText(j, "access_token") != ""
    ensures Get(j, "access_token").None? ==> Api.IsAuthed(SignedIn(storage, j))
    ensures Api.IsAuthed(SignedIn(storage, j)) ==>
      AppView.Render("#/", true) == AppView.ShowShell("/")
    ensures !Api.IsAuthed(SignedIn(storage, j)) ==>
      AppView.Render("#/", false) == AppView.Redirect("#/auth")
    ensures Api.TokensOf(SignedIn(storage, j)).refresh == FieldText(j, "refresh_token") || FieldText(j, "refresh_token") == ""
    ensures Api.Others(SignedIn(storage, j)) == Api.Others(storage)
  {
    assert "#/"[..2] == "#/" && "#/"[2..] == "";
  }
}
