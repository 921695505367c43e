/** The e-mail helpers of the server (`mailer.py`): the sender line, the no-key guard,
    and the choice of texts and links for a one-time-code message. The HTML template is
    abstracted to the fields it is given; the HTTP call to the mail service is not modelled. */
module Mailer {
  import opened Wrappers
  import Text

  // ------------------------------------------------------------------ sender

  /** The first `>` at or after `k`. */
  function CloseAfter(s: string, k: nat): (r: Option<nat>)
    ensures r.Some? ==> k <= r.value < |s| && s[r.value] == '>' && forall m :: k <= m < r.value ==> s[m] != '>'
    ensures r.None? ==> forall m :: k <= m < |s| ==> s[m] != '>'
    decreases |s| - k
  {
    if k >= |s| then None
    else if s[k] == '>' then Some(k)
    else CloseAfter(s, k + 1)
  }

  /** The pattern `<([^>]+)>` matches starting at `i`. */
  predicate MatchesAt(s: string, i: nat) {
    i < |s| && s[i] == '<' && CloseAfter(s, i + 1).Some? && CloseAfter(s, i + 1).value > i + 1
  }

  /** `re.search(r"<([^>]+)>", s)` from position `i`: the leftmost match, as the
      positions of its `<` and `>`. */
  function SearchFrom(s: string, i: nat): (r: Option<(nat, nat)>)
    ensures r.Some? ==> i <= r.value.0 && MatchesAt(s, r.value.0) && r.value.1 == CloseAfter(s, r.value.0 + 1).value
    ensures r.Some? ==> forall k :: i <= k < r.value.0 ==> !MatchesAt(s, k)
    ensures r.None? ==> forall k :: i <= k < |s| ==> !MatchesAt(s, k)
    decreases |s| - i
  {
    if i >= |s| then None
    else if MatchesAt(s, i) then Some((i, CloseAfter(s, i + 1).value))
    else SearchFrom(s, i + 1)
  }

  const DefaultSender: string := "KataraLM <no-reply@katara.local>"

  /** The address `_format_sender` keeps: the stripped text of the first `<...>` group,
      or the whole stripped value when there is none. */
  function SenderAddress(from: string): string {
    match SearchFrom(from, 0)
    case Some((i, j)) => Text.Trim(Text.Py, from[i + 1..j])
    case None => Text.Trim(Text.Py, from)
  }

  /** `_format_sender(from)`. */
  function FormatSender(from: string): (r: string)
    ensures from == "" ==> r == DefaultSender
    ensures from != "" ==> r == "KataraLM <" + SenderAddress(from) + ">"
  {
    if from == "" then DefaultSender else "KataraLM <" + SenderAddress(from) + ">"
  }

  /** The display name is always KataraLM; `"Name <addr>"` keeps `addr`, stripped. */
  lemma SenderOfNamed(name: string, addr: string)
    requires '<' !in name && '>' !in addr && addr != ""
    ensures FormatSender(name + "<" + addr + ">") == "KataraLM <" + Text.Trim(Text.Py, addr) + ">"
  {
    var s := name + "<" + addr + ">";
    var i := |name|;
    var j := |name| + 1 + |addr|;
    assert s[i] == '<' && s[j] == '>';
    assert forall m :: i + 1 <= m < j ==> s[m] == addr[m - i - 1];
    assert CloseAfter(s, i + 1) == Some(j) by {
      CloseIs(s, i + 1, j);
    }
    assert MatchesAt(s, i);
    forall k | 0 <= k < i ensures !MatchesAt(s, k) {
      assert s[k] == name[k];
    }
    var r := SearchFrom(s, 0);
    assert r.Some? && r.value.0 == i;
    assert s[i + 1..j] == addr;
  }

  /** `CloseAfter` finds the `>` at `j` when none comes earlier. */
  lemma {:induction false} CloseIs(s: string, k: nat, j: nat)
    requires k <= j < |s| && s[j] == '>' && forall m :: k <= m < j ==> s[m] != '>'
    ensures CloseAfter(s, k) == Some(j)
    decreases j - k
  {
    if k < j {
      CloseIs(s, k + 1, j);
    }
  }

  /** A bare address is kept as it is, once stripped. */
  lemma SenderOfBare(addr: string)
    requires addr != "" && '<' !in addr
    ensures FormatSender(addr) == "KataraLM <" + Text.Trim(Text.Py, addr) + ">"
  {
    forall k | 0 <= k < |addr| ensures !MatchesAt(addr, k) {
      assert addr[k] != '<';
    }
  }

  // ------------------------------------------------------------------ messages

  /** The request `send_email` would post. */
  datatype Outgoing = Outgoing(from: string, to: seq<string>, subject: string, html: Html)

  /** The two kinds of message `send_otp_email` writes: e-mail verification, and password
      reset for every other purpose. */
  datatype Kind = VerifyMail | ResetMail

  function KindOf(purpose: string): (k: Kind)
    ensures k == VerifyMail <==> purpose == "verify_email"
  {
    if purpose == "verify_email" then VerifyMail else ResetMail
  }

  /** The fields the template receives; the fixed texts are those of `kind`. The year is not modelled. */
  datatype Html = Html(kind: Kind, code: string, ctaUrl: string, logoUrl: string, bannerUrl: string,
                       contactEmail: string, whatsappLink: string, termsUrl: string, privacyUrl: string)

  /** `send_email(key, from, to, subject, html)`: nothing is sent without an API key. */
  function SendEmail(apiKey: string, from: string, to: string, subject: string, html: Html): (r: Option<Outgoing>)
    ensures r.None? <==> apiKey == ""
    ensures r.Some? ==> r.value.from == FormatSender(from) && r.value.to == [to] && r.value.subject == subject
  {
    if apiKey == "" then None else Some(Outgoing(FormatSender(from), [to], subject, html))
  }

  /** `a or b` for strings. */
  function Or(a: string, b: string): (r: string)
    ensures a != "" ==> r == a
    ensures a == "" ==> r == b
  {
    if a != "" then a else b
  }

  function Subject(k: Kind): string {
    match k
    case VerifyMail => "Verifica tu correo - KataraLM"
    case ResetMail => "Recuperación de contraseña - KataraLM"
  }

  function Title(k: Kind): string {
    match k
    case VerifyMail => "Verificación de correo"
    case ResetMail => "Recuperación de contraseña"
  }

  function Body(k: Kind): string {
    match k
    case VerifyMail => "Gracias por registrarte. Ingresa este código para verificar tu correo y activar tu cuenta."
    case ResetMail => "Usa este código para restablecer tu contraseña. Si no fuiste tú, ignora este mensaje."
  }

  function CtaText(k: Kind): string {
    match k
    case VerifyMail => "Ver términos"
    case ResetMail => "Ver privacidad"
  }

  /** The template fields `send_otp_email` fills in. */
  function OtpHtml(publicBaseUrl: string, purpose: string, code: string, contactEmail: string,
                   whatsappLink: string, termsUrl: string, privacyUrl: string): Html
  {
    var kind := KindOf(purpose);
    Html(kind, code, if kind == VerifyMail then Or(termsUrl, publicBaseUrl) else Or(privacyUrl, publicBaseUrl),
         publicBaseUrl + "/brand/KataraLM_logo.png", publicBaseUrl + "/brand/KataraLM_banner.png",
         contactEmail, whatsappLink, Or(termsUrl, "#"), Or(privacyUrl, "#"))
  }

  /** `send_otp_email(...)`: the message it would post, or None when no API key is set. */
  function SendOtpEmail(publicBaseUrl: string, apiKey: string, from: string, to: string, purpose: string,
                        code: string, contactEmail: string, whatsappLink: string, termsUrl: string,
                        privacyUrl: string): Option<Outgoing>
  {
    var html := OtpHtml(publicBaseUrl, purpose, code, contactEmail, whatsappLink, termsUrl, privacyUrl);
    SendEmail(apiKey, from, to, Subject(html.kind), html)
  }

  /** The purpose branch: verification messages point at the terms, every other purpose is
      a password reset pointing at the privacy policy; an empty link falls back to the public
      base URL for the button and to `#` in the footer. The code is always carried. */
  lemma OtpTexts(publicBaseUrl: string, purpose: string, code: string, contactEmail: string,
                 whatsappLink: string, termsUrl: string, privacyUrl: string)
    ensures var h := OtpHtml(publicBaseUrl, purpose, code, contactEmail, whatsappLink, termsUrl, privacyUrl);
      && h.code == code
      && (purpose == "verify_email" ==> h.kind == VerifyMail && h.ctaUrl == Or(termsUrl, publicBaseUrl))
      && (purpose != "verify_email" ==> h.kind == ResetMail && h.ctaUrl == Or(privacyUrl, publicBaseUrl))
      && h.termsUrl != "" && h.privacyUrl != ""
      && (termsUrl == "" ==> h.termsUrl == "#") && (privacyUrl == "" ==> h.privacyUrl == "#")
  {
  }

  /** Without an API key nothing is sent; with one, the message goes to exactly the given
      address, from KataraLM, with the subject of its purpose. */
  lemma OtpDelivery(publicBaseUrl: string, apiKey: string, from: string, to: string, purpose: string,
                    code: string, contactEmail: string, whatsappLink: string, termsUrl: string, privacyUrl: string)
    ensures var m := SendOtpEmail(publicBaseUrl, apiKey, from, to, purpose, code, contactEmail, whatsappLink, termsUrl, privacyUrl);
      && (m.None? <==> apiKey == "")
      && (m.Some? ==>
            m.value.to == [to] && Text.StartsWith(m.value.from, "KataraLM <") &&
            m.value.subject == Subject(KindOf(purpose)) &&
            m.value.html.code == code)
  {
    var f := FormatSender(from);
    assert f[..10] == "KataraLM <";
  }
}
