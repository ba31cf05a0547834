/** The settings object the popup edits and the other two scripts read.
    Fields an older stored object may lack (`enabled`, `security`) are
    optional; the popup fills them in when it loads. */
module Config {
  import opened Wrappers

  /** `security: { pin }`; a missing or null pin is None. */
  datatype Security = Security(pin: Option<string>)

  datatype Settings = Settings(
    enabled: Option<bool>,
    aiEnabled: bool,
    keywordsEnabled: bool,
    timestampsEnabled: bool,
    siteBlockingEnabled: bool,
    sensitivity: int,
    defaultAction: string,
    keywords: seq<string>,
    security: Option<Security>)

  /** The settings the popup starts from when nothing is stored. */
  const Defaults := Settings(
    Some(true), true, true, true, true, 50, "blur",
    ["gay", "lesbian", "queer", "homosexual"], Some(Security(None)))

  /** All fields other than `enabled` and `security` agree. */
  predicate SameOtherFields(a: Settings, b: Settings) {
    && a.aiEnabled == b.aiEnabled
    && a.keywordsEnabled == b.keywordsEnabled
    && a.timestampsEnabled == b.timestampsEnabled
    && a.siteBlockingEnabled == b.siteBlockingEnabled
    && a.sensitivity == b.sensitivity
    && a.defaultAction == b.defaultAction
    && a.keywords == b.keywords
  }

  /** The popup's start-up rule: take the stored settings or the defaults,
      then supply `security: {pin: null}` and `enabled: true` where missing. */
  function Normalise(stored: Option<Settings>): (r: Settings)
    ensures stored.None? ==> r == Defaults
    ensures r.enabled.Some? && r.security.Some?
    ensures stored.Some? ==> SameOtherFields(r, stored.value)
    ensures stored.Some? && stored.value.enabled.Some? ==> r.enabled == stored.value.enabled
    ensures stored.Some? && stored.value.enabled.None? ==> r.enabled == Some(true)
    ensures stored.Some? && stored.value.security.Some? ==> r.security == stored.value.security
    ensures stored.Some? && stored.value.security.None? ==> r.security == Some(Security(None))
  {
    var s := stored.GetOr(Defaults);
    var s1 := if s.security.None? then s.(security := Some(Security(None))) else s;
    if s1.enabled.None? then s1.(enabled := Some(true)) else s1
  }

  /** Loading normalised settings again changes nothing. */
  lemma NormaliseIdempotent(stored: Option<Settings>)
    ensures Normalise(Some(Normalise(stored))) == Normalise(stored)
  {
  }
}
