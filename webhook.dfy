/**
 * The checks and the URL construction of `set_webhook`: the bot must be
 * built, RENDER_EXTERNAL_URL must be set and start with "https://", and the
 * webhook target is then "https://" + that value + "/webhook".
 */
module Webhook {
  import opened Wrappers

  const Scheme := "https://"
  const WebhookPath := "/webhook"

  /** The errors `set_webhook` raises before any network call: no built
      application, and a missing or non-`https://` RENDER_EXTERNAL_URL. */
  datatype SetupError = NotInitialized | RenderUrlInvalid

  /** `set_webhook` up to the URL it registers; `initialized` is whether the
      global application exists, `renderUrl` the environment value (None when
      unset). */
  function WebhookUrl(initialized: bool, renderUrl: Option<string>): (r: Result<string, SetupError>)
    ensures !initialized ==> r == Failure(NotInitialized)
    ensures initialized ==>
              (r == Failure(RenderUrlInvalid) <==> renderUrl.None? || !(Scheme <= renderUrl.value))
    ensures initialized ==> (r.Success? <==> renderUrl.Some? && Scheme <= renderUrl.value)
    ensures r.Success? ==> r.value == Scheme + renderUrl.value + WebhookPath
  {
    if !initialized then Failure(NotInitialized)
    else if renderUrl.None? || renderUrl.value == "" || !(Scheme <= renderUrl.value) then Failure(RenderUrlInvalid)
    else Success(Scheme + renderUrl.value + WebhookPath)
  }

  /** The value between the leading scheme and the trailing path of a target. */
  function RenderUrlOf(url: string): (v: string)
    requires |url| >= |Scheme| + |WebhookPath|
    ensures |v| == |url| - |Scheme| - |WebhookPath|
  {
    url[|Scheme|..|url| - |WebhookPath|]
  }

  /** The target determines the environment value: it is the target with the
      added scheme and path taken off, and ends with "/webhook". */
  lemma RenderUrlRoundTrip(renderUrl: Option<string>)
    requires WebhookUrl(true, renderUrl).Success?
    ensures var url := WebhookUrl(true, renderUrl).value;
            RenderUrlOf(url) == renderUrl.value &&
            url[|url| - |WebhookPath|..] == WebhookPath
  {
    var v := renderUrl.value;
    var url := Scheme + v + WebhookPath;
    assert url[|Scheme|..|url| - |WebhookPath|] == v;
    assert url[|url| - |WebhookPath|..] == WebhookPath;
  }

  /** Since the accepted value already starts with "https://", every target
      the bot registers starts with "https://https://". */
  lemma DoubledScheme(renderUrl: Option<string>)
    requires WebhookUrl(true, renderUrl).Success?
    ensures Scheme + Scheme <= WebhookUrl(true, renderUrl).value
  {
    var v := renderUrl.value;
    assert v[..|Scheme|] == Scheme;
    assert (Scheme + v + WebhookPath)[..2 * |Scheme|] == Scheme + v[..|Scheme|];
  }

  /** Two different accepted values give two different targets. */
  lemma WebhookUrlInjective(a: Option<string>, b: Option<string>)
    requires WebhookUrl(true, a).Success? && WebhookUrl(true, b).Success?
    requires WebhookUrl(true, a) == WebhookUrl(true, b)
    ensures a == b
  {
    RenderUrlRoundTrip(a);
    RenderUrlRoundTrip(b);
  }
}
