/** The popup's settings logic: the keyword list editor (`parseKeywords`
    and the `join(', ')` that fills the text box), the rule for accepting a
    new PIN, and the login gate that holds a sensitive action until the
    right PIN is entered. */
module Popup {
  import opened Wrappers
  import opened Text
  import opened Config

  // ---------------------------------------------------------------------
  // Keywords

  /** One piece of the split, trimmed, kept only when non-empty. */
  function Keep(piece: string): seq<string> {
    var t := Trim(piece);
    if |t| > 0 then [t] else []
  }

  /** `.map(k => k.trim()).filter(k => k.length > 0)`. */
  function Clean(pieces: seq<string>): seq<string> {
    if pieces == [] then [] else Keep(pieces[0]) + Clean(pieces[1..])
  }

  /** `parseKeywords(input)`. */
  function ParseKeywords(input: string): seq<string> {
    Clean(SplitComma(input))
  }

  /** What the text box round-trips: non-empty, no blank at either end, no comma. */
  predicate WellFormedKeyword(k: string) {
    k != "" && IsTrimmed(k) && ',' !in k
  }

  predicate AllWellFormed(ks: seq<string>) {
    forall k :: 0 <= k < |ks| ==> WellFormedKeyword(ks[k])
  }

  lemma {:induction false} CleanWellFormed(pieces: seq<string>)
    requires forall k :: 0 <= k < |pieces| ==> ',' !in pieces[k]
    ensures AllWellFormed(Clean(pieces))
  {
    if pieces != [] {
      CleanWellFormed(pieces[1..]);
      TrimShape(pieces[0]);
      var i, j :| 0 <= i <= j <= |pieces[0]| && Trim(pieces[0]) == pieces[0][i..j];
      assert ',' !in Trim(pieces[0]);
    }
  }

  /** Every keyword `parseKeywords` returns is non-empty, trimmed and free
      of commas. */
  lemma ParseKeywordsWellFormed(input: string)
    ensures AllWellFormed(ParseKeywords(input))
  {
    SplitCommaPieces(input);
    CleanWellFormed(SplitComma(input));
  }

  lemma {:induction false} CleanConcat(a: seq<string>, b: seq<string>)
    ensures Clean(a + b) == Clean(a) + Clean(b)
  {
    if a == [] {
      assert a + b == b;
    } else {
      var c := a + b;
      assert c[0] == a[0] && c[1..] == a[1..] + b;
      calc {
        Clean(c);
        Keep(a[0]) + Clean(a[1..] + b);
        { CleanConcat(a[1..], b); }
        Keep(a[0]) + (Clean(a[1..]) + Clean(b));
        (Keep(a[0]) + Clean(a[1..])) + Clean(b);
      }
    }
  }

  /** Keywords come out in the order of the comma-separated pieces: the
      keywords before a comma precede those after it. */
  lemma ParseKeywordsKeepsOrder(a: string, b: string)
    ensures ParseKeywords(a + [','] + b) == ParseKeywords(a) + ParseKeywords(b)
  {
    SplitCommaConcat(a, b);
    CleanConcat(SplitComma(a), SplitComma(b));
  }

  /** The blank `join(', ')` puts after each comma is trimmed away. */
  lemma ParseIgnoresLeadingBlank(s: string)
    ensures ParseKeywords([' '] + s) == ParseKeywords(s)
  {
    SplitCommaLeadingBlank(s);
    TrimDropsLeadingBlank(SplitComma(s)[0]);
    var ps := SplitComma(s);
    assert ps == [ps[0]] + ps[1..];
    CleanConcat([[' '] + ps[0]], ps[1..]);
    CleanConcat([ps[0]], ps[1..]);
  }

  /** A well-formed keyword in front of further pieces survives cleaning. */
  lemma CleanKeepsWellFormed(k: string, ps: seq<string>)
    requires WellFormedKeyword(k)
    ensures Clean([k] + ps) == [k] + Clean(ps)
  {
    assert ([k] + ps)[0] == k && ([k] + ps)[1..] == ps;
    TrimOfTrimmed(k);
  }

  /** One step of the round trip: a keyword joined with `", "` in front of
      more text parses to that keyword followed by the text's keywords. */
  lemma ParseJoinedHead(k: string, rest: string)
    requires WellFormedKeyword(k)
    ensures ParseKeywords(k + ", " + rest) == [k] + ParseKeywords(rest)
  {
    var ps := SplitComma([' '] + rest);
    assert SplitComma(k + ", " + rest) == [k] + ps by {
      assert k + ", " + rest == k + [','] + ([' '] + rest);
      SplitCommaConcat(k, [' '] + rest);
      SplitCommaFree(k);
    }
    CleanKeepsWellFormed(k, ps);
    ParseIgnoresLeadingBlank(rest);
  }

  /** Round trip: a list of well-formed keywords shown as `ks.join(', ')`
      and saved again with `parseKeywords` is the same list. */
  lemma {:induction false} JoinThenParse(ks: seq<string>)
    requires AllWellFormed(ks)
    ensures ParseKeywords(JoinComma(ks)) == ks
  {
    if |ks| == 1 {
      SplitCommaFree(ks[0]);
      CleanKeepsWellFormed(ks[0], []);
      assert [ks[0]] + [] == [ks[0]];
    } else if |ks| > 1 {
      JoinThenParse(ks[1..]);
      ParseJoinedHead(ks[0], JoinComma(ks[1..]));
      assert ks == [ks[0]] + ks[1..];
    }
  }

  /** Saving the keyword box unedited never changes the stored list once it
      has been through `parseKeywords`. */
  lemma ResaveIsStable(input: string)
    ensures ParseKeywords(JoinComma(ParseKeywords(input))) == ParseKeywords(input)
  {
    ParseKeywordsWellFormed(input);
    JoinThenParse(ParseKeywords(input));
  }

  // ---------------------------------------------------------------------
  // New PIN

  predicate IsDigit(c: char) { '0' <= c <= '9' }

  predicate HexDigit(c: char) { IsDigit(c) || 'a' <= c <= 'f' || 'A' <= c <= 'F' }

  /** One or more decimal digits. */
  predicate Digits(s: string) {
    |s| > 0 && forall i :: 0 <= i < |s| ==> IsDigit(s[i])
  }

  predicate DigitsOrEmpty(s: string) {
    forall i :: 0 <= i < |s| ==> IsDigit(s[i])
  }

  /** `digits`, `digits.`, `digits.digits` or `.digits`. */
  predicate Mantissa(m: string) {
    || Digits(m)
    || exists i :: 0 <= i < |m| && m[i] == '.' && DigitsOrEmpty(m[..i]) && DigitsOrEmpty(m[i + 1..]) && |m| >= 2
  }

  /** `e` or `E`, an optional sign, digits. */
  predicate ExponentPart(e: string) {
    && |e| >= 2 && (e[0] == 'e' || e[0] == 'E')
    && (Digits(e[1..]) || ((e[1] == '+' || e[1] == '-') && Digits(e[2..])))
  }

  predicate UnsignedDecimal(u: string) {
    || u == "Infinity"
    || Mantissa(u)
    || exists i :: 0 <= i < |u| && Mantissa(u[..i]) && ExponentPart(u[i..])
  }

  predicate DecimalLiteral(s: string) {
    UnsignedDecimal(s) || (|s| > 0 && (s[0] == '+' || s[0] == '-') && UnsignedDecimal(s[1..]))
  }

  /** `0x`, `0o` or `0b` followed by digits of that base. */
  predicate NonDecimalInteger(s: string) {
    && |s| >= 3 && s[0] == '0'
    && (|| ((s[1] == 'x' || s[1] == 'X') && forall i :: 2 <= i < |s| ==> HexDigit(s[i]))
        || ((s[1] == 'o' || s[1] == 'O') && forall i :: 2 <= i < |s| ==> '0' <= s[i] <= '7')
        || ((s[1] == 'b' || s[1] == 'B') && forall i :: 2 <= i < |s| ==> s[i] == '0' || s[i] == '1'))
  }

  /** `!isNaN(s)`: the string converts to a number. Conversion trims the
      same whitespace as `trim`; an empty remainder converts to 0. */
  predicate ConvertsToNumber(s: string) {
    var t := Trim(s);
    t == "" || DecimalLiteral(t) || NonDecimalInteger(t)
  }

  /** The PIN setup test `newPin && newPin.length === 4 && !isNaN(newPin)`;
      None is a cancelled prompt. */
  predicate NewPinAccepted(newPin: Option<string>) {
    newPin.Some? && newPin.value != "" && |newPin.value| == 4 && ConvertsToNumber(newPin.value)
  }

  /** Every string of exactly four decimal digits is accepted. */
  lemma FourDigitsAccepted(p: string)
    requires |p| == 4 && Digits(p)
    ensures NewPinAccepted(Some(p))
  {
    assert !IsSpace(p[0]) && !IsSpace(p[3]);
    TrimOfTrimmed(p);
  }

  lemma BlankPinAccepted()
    ensures NewPinAccepted(Some("    "))
  {
    assert Trim("    ") == "";
  }

  lemma ExponentPinAccepted()
    ensures NewPinAccepted(Some("1e10"))
  {
    TrimOfTrimmed("1e10");
    assert Mantissa("1e10"[..1]) && ExponentPart("1e10"[1..]);
  }

  lemma HexPinAccepted()
    ensures NewPinAccepted(Some("0x1F"))
  {
    TrimOfTrimmed("0x1F");
    assert NonDecimalInteger("0x1F");
  }

  lemma SignedPinAccepted()
    ensures NewPinAccepted(Some("-1.5"))
  {
    TrimOfTrimmed("-1.5");
    var u := "-1.5"[1..];
    assert u == "1.5";
    assert u[1] == '.' && u[..1] == "1" && u[2..] == "5";
    assert Mantissa(u);
  }

  /** The test accepts more than digits: four blanks, an exponent, a hex
      literal and a signed decimal all convert to numbers. */
  lemma NonDigitPinsAccepted()
    ensures NewPinAccepted(Some("    "))
    ensures NewPinAccepted(Some("1e10"))
    ensures NewPinAccepted(Some("0x1F"))
    ensures NewPinAccepted(Some("-1.5"))
  {
    BlankPinAccepted();
    ExponentPinAccepted();
    HexPinAccepted();
    SignedPinAccepted();
  }

  // ---------------------------------------------------------------------
  // Login gate

  /** `settings.security && settings.security.pin` is truthy. */
  predicate PinProtected(s: Settings) {
    s.security.Some? && s.security.value.pin.Some? && s.security.value.pin.value != ""
  }

  /** `pinInput.value === settings.security.pin`; the handler reads
      `settings.security` unguarded, relying on the start-up normalisation
      to have filled it in. */
  predicate PinMatches(input: string, s: Settings)
    requires s.security.Some?
  {
    s.security.value.pin == Some(input)
  }

  /** The actions the popup defers behind the login: open the settings
      view, set the master switch, offer to remove the PIN. */
  datatype Callback = ShowSettingsView | ApplyEnabled(desired: bool) | OfferPinRemoval

  /** The settings after running a callback; `confirmRemove` is the answer
      to the removal `confirm` dialog. */
  function SettingsAfter(cb: Option<Callback>, s: Settings, confirmRemove: bool): Settings {
    match cb
    case Some(ApplyEnabled(d)) => s.(enabled := Some(d))
    case Some(OfferPinRemoval) => if confirmRemove then s.(security := Some(Security(None))) else s
    case _ => s
  }

  /** What the deferred callbacks may change. Only the master-switch change
      touches `enabled`, and it sets it to the desired value; only the PIN
      removal touches `security`, and only when confirmed; nothing else
      changes any setting. Running a callback a second time has no further
      effect, and running none, which is what a second unlock does once
      the pending callback is cleared, keeps everything. */
  lemma GatedCallbacksTakeEffectOnce(cb: Option<Callback>, s: Settings, confirmRemove: bool)
    ensures var r := SettingsAfter(cb, s, confirmRemove);
      && r.(enabled := s.enabled, security := s.security) == s
      && (if cb.Some? && cb.value.ApplyEnabled? then r.enabled == Some(cb.value.desired) else r.enabled == s.enabled)
      && (if cb == Some(OfferPinRemoval) && confirmRemove then r.security == Some(Security(None))
          else r.security == s.security)
      && SettingsAfter(cb, r, confirmRemove) == r
      && SettingsAfter(None, r, confirmRemove) == r
  {
  }

  /** The popup page's state. */
  class Popup {
    var settings: Settings
    /** `pendingAuthCallback`. */
    var pending: Option<Callback>
    /** The login view is shown (and the main view hidden). */
    var loginShown: bool
    /** The settings view is shown (and the dashboard hidden). */
    var settingsShown: bool

    ghost predicate Valid()
      reads this
    {
      settings.enabled.Some? && settings.security.Some?
    }

    /** Start-up: normalised settings, main view and dashboard shown. */
    constructor (stored: Option<Settings>)
      ensures Valid()
      ensures settings == Normalise(stored) && pending.None? && !loginShown && !settingsShown
    {
      settings := Normalise(stored);
      pending := None;
      loginShown := false;
      settingsShown := false;
    }

    /** `requestLogin(cb)`: any earlier pending callback is replaced. */
    method RequestLogin(cb: Callback)
      modifies this`pending, this`loginShown
      ensures pending == Some(cb) && loginShown
    {
      pending := Some(cb);
      loginShown := true;
    }

    /** The unlock button. A correct PIN shows the main view, runs the
        pending callback once and clears it; a wrong one changes nothing. */
    method Unlock(input: string, confirmRemove: bool)
      requires Valid()
      modifies this
      ensures Valid()
      ensures PinMatches(input, old(settings)) ==>
        && !loginShown && pending.None?
        && settings == SettingsAfter(old(pending), old(settings), confirmRemove)
        && settingsShown == (old(settingsShown) || old(pending) == Some(ShowSettingsView))
      ensures !PinMatches(input, old(settings)) ==>
        && loginShown == old(loginShown) && pending == old(pending)
        && settings == old(settings) && settingsShown == old(settingsShown)
    {
      if PinMatches(input, settings) {
        loginShown := false;
        if pending.Some? {
          match pending.value {
            case ShowSettingsView =>
              settingsShown := true;
            case ApplyEnabled(d) =>
              settings := settings.(enabled := Some(d));
            case OfferPinRemoval =>
              if confirmRemove {
                settings := settings.(security := Some(Security(None)));
              }
          }
          pending := None;
        }
      }
    }

    /** The settings button: behind the login when a PIN is set. */
    method OpenSettings()
      modifies this`pending, this`loginShown, this`settingsShown
      ensures PinProtected(settings) ==>
        pending == Some(ShowSettingsView) && loginShown && settingsShown == old(settingsShown)
      ensures !PinProtected(settings) ==>
        settingsShown && pending == old(pending) && loginShown == old(loginShown)
    {
      if PinProtected(settings) {
        RequestLogin(ShowSettingsView);
      } else {
        settingsShown := true;
      }
    }

    /** The back button. */
    method CloseSettings()
      modifies this`settingsShown
      ensures !settingsShown
    {
      settingsShown := false;
    }

    /** The master switch moved to `desired`. With a PIN set, `enabled` is
        left as it was and the change waits for the login. */
    method ToggleMaster(desired: bool)
      requires Valid()
      modifies this
      ensures Valid() && settingsShown == old(settingsShown)
      ensures PinProtected(old(settings)) ==>
        settings == old(settings) && pending == Some(ApplyEnabled(desired)) && loginShown
      ensures !PinProtected(old(settings)) ==>
        settings == old(settings).(enabled := Some(desired))
        && pending == old(pending) && loginShown == old(loginShown)
    {
      if PinProtected(settings) {
        RequestLogin(ApplyEnabled(desired));
      } else {
        settings := settings.(enabled := Some(desired));
      }
    }

    /** The PIN setup button; `newPin` is the prompt's answer. With a PIN
        set, removal waits for the login; otherwise an accepted answer
        becomes the PIN. */
    method SetupPin(newPin: Option<string>)
      requires Valid()
      modifies this
      ensures Valid() && settingsShown == old(settingsShown)
      ensures PinProtected(old(settings)) ==>
        settings == old(settings) && pending == Some(OfferPinRemoval) && loginShown
      ensures !PinProtected(old(settings)) ==>
        && pending == old(pending) && loginShown == old(loginShown)
        && settings == (if NewPinAccepted(newPin) then old(settings).(security := Some(Security(newPin)))
                        else old(settings))
    {
      if PinProtected(settings) {
        RequestLogin(OfferPinRemoval);
      } else if NewPinAccepted(newPin) {
        settings := settings.(security := Some(Security(newPin)));
      }
    }

    /** The text the keyword box is filled with; when the stored keywords
        are well formed, as every list the save button stores is, it
        parses back to exactly that list. */
    function KeywordsText(): (r: string)
      reads this
      ensures AllWellFormed(settings.keywords) ==> ParseKeywords(r) == settings.keywords
    {
      if AllWellFormed(settings.keywords) then
        JoinThenParse(settings.keywords);
        JoinComma(settings.keywords)
      else
        JoinComma(settings.keywords)
    }

    /** The save button: the keyword box becomes the keyword list. */
    method SaveKeywords(input: string)
      requires Valid()
      modifies this`settings
      ensures Valid()
      ensures settings == old(settings).(keywords := ParseKeywords(input))
      ensures AllWellFormed(settings.keywords)
    {
      settings := settings.(keywords := ParseKeywords(input));
      ParseKeywordsWellFormed(input);
    }
  }
}
