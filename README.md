# censureme: a Dafny model of the suppression, site-blocking and settings logic

censureme is a browser extension that hides unwanted parts of videos. It has three scripts, and this project
models the decision logic of each one:

- **The content script** runs a detection cycle every two seconds for every `<video>` on the page. A cycle
  first looks for the video in a scene database. It checks whether the URL or the title matches one of the
  video's patterns, and whether the playback time falls inside a timestamped scene. Next it looks for
  configured keywords in the page text. Last, it sends a frame to an image classifier: a black frame is never
  sent, and a reply counts as a detection when one of its predictions is of class `Porn`, `Hentai` or `Sexy`
  with a probability over `(100 - sensitivity) / 100`. A match
  triggers an action (`blur`, `overlay`, `skip`, `mute`; anything else blurs). `removeAction` undoes it
  again.
- **The background worker** loads a blocklist on install and on browser start-up (background.js:26, 31), and
  lazily whenever a request finds none loaded; each load is a call of `Background.Worker.LoadBlocklist`. It
  redirects main-frame navigations whose host contains a blocked site, or whose URL contains a blocked keyword.
- **The popup** edits the settings. Sensitive actions (opening the settings, flipping the master switch,
  removing the PIN) are held behind a PIN login, and the keyword list is edited as comma-separated text.

Module layout. Most modules follow one source file; the shared settings model is used by all three scripts,
and the string helpers by all three scripts' lowercasing, substring, trim and split operations.

- `Wrappers` (wrappers.dfy): `Option`.
- `Text` (text.dfy): ASCII lowercasing, substring search, the ECMAScript `trim`, `split(',')` and
  `join(', ')`.
- `Config` (settings.dfy): the settings object and the popup's start-up normalisation.
- `Detection` (detection.dfy): `checkTimestamps`, `checkKeywords`, the black-frame scan and the classifier
  threshold.
- `Effects` (effects.dfy): the `Video` and `Page` classes, `applyAction`, `removeAction`, `showOverlay` and
  `handleNavigation`.
- `Monitor` (monitor.dfy): one detection cycle, as a specification function `Cycle` and as the method
  `Monitor.Step` that updates a video in place. Also `attachVideoListener` and the re-scan of the page's
  videos.
- `Background` (background.dfy): `shouldBlockUrl` and the worker's blocklist state.
- `Popup` (popup.dfy): `parseKeywords`, the PIN acceptance rule and the login gate.

Inputs the scripts get from the browser are parameters of the model:

- the page URL, title and text;
- the sampled frame's bytes;
- the classifier's reply;
- the stored settings;
- the fetched blocklist;
- the answer to a `prompt` or `confirm` dialog.

The video's paused, ended and muted state are fields of the `Video` object.

Where the code does less or more than its own comments, messages and names say, the model follows the code:

- **Effects stack.** The comment at content.js:321 says `applyAction` first clears any previous effects. It
  resets only the filter and an overlay under the video's own parent. A mute therefore survives a later
  blur, and an overlay appended to the body survives every later action but `overlay`
  (`Effects.EffectsStack`).
- **removeAction can run twice in one cycle.** It runs once when the active scene ends (content.js:182-187),
  and again on the classifier or cleanup paths. With at most one overlay on the page the second call changes
  nothing (`Monitor.SceneEndClears`, `Effects.RemoveIdempotent`).
- **A black frame counts as "no detection".** The comment at content.js:286 says such a frame only skips the
  classifier. When no scene is active, the cycle then calls `removeAction` (content.js:201-202), so the frame
  does not leave the state untouched (`Monitor.BlackFrameIsNoDetection`).
- **A stale effect can persist.** The comment at content.js:205 promises a clean-up when nothing else
  triggers. With the classifier off and keywords on, a cycle that matches nothing leaves an earlier effect in
  place (`Monitor.ClassifierOffKeepsEffect`).
- **Keywords are not lowercased.** `checkKeywords` lowercases the page text but not the keywords, so a
  keyword containing an upper-case letter never matches (`Detection.UppercaseKeywordNeverMatches`).
- **The PIN test accepts non-digits.** The prompt (popup.js:268) and the error (popup.js:276) ask for
  exactly 4 digits, but a new PIN only needs `length === 4 && !isNaN(pin)`. So `"    "`, `"1e10"`,
  `"0x1F"` and `"-1.5"` are all accepted (`Popup.NonDigitPinsAccepted`).
- **An empty keyword masks every later one.** `checkKeywords` returns the matched word itself, and the cycle
  tests it for truthiness. An empty keyword matches every page, but `""` is falsy, so the keyword path never
  fires and no later keyword is tried (`Monitor.EmptyKeywordMasksLater`). The popup never stores an empty
  keyword (`Popup.ParseKeywordsWellFormed`); only stored settings written elsewhere can hold one.
- **A navigation doubles the cycles.** The comment at content.js:136 says the reset makes videos be analysed
  again for the new URL. `handleNavigation` clears the attached flag but never stops the interval already
  running for a video. The re-scan then starts a second cycle for the same video, and the old one goes on
  with its stale `activeScene` (content.js:163). So "attached at most once" holds only between navigations
  (`Monitor.NavigateAndRescan`).
- **The master switch does not reach the content script.** content.js reads `aiEnabled`, `timestampsEnabled`
  and `keywordsEnabled` but never `enabled`, so the popup's master switch gates only site blocking
  (background.js:91). A cycle is the same whatever `enabled` holds (`Monitor.MasterSwitchIgnored`).
- **Two sets of defaults.** The background worker's install defaults (background.js:10-24) include the
  keyword `romance`. The popup's defaults (`Config.Defaults`) do not.

## Model

| member | source | states |
|---|---|---|
| Config.Normalise | popup.js:28-42 | With nothing stored the result is the default settings. `enabled` and `security` are always present afterwards. A stored `enabled` or `security` is kept, a missing one becomes `true` or `{pin: null}`, and every other field is kept. |
| Config.NormaliseIdempotent | popup.js:28-42 | Normalising already-normalised settings changes nothing. |
| Text.LowerExcludesUpper | content.js:254-259 | A word containing an upper-case letter never occurs in a lowercased text. |
| Text.Lower | content.js:254 | `toLowerCase` as a character-wise map that folds `A`-`Z`; the fact used about it is `Text.LowerExcludesUpper`. |
| Text.Contains | content.js:224-227 | `includes`: the needle occurs at some position of the text. The empty needle occurs in every text (`Text.ContainsEmpty`). |
| Text.Trim | popup.js:303 | `trim` drops ECMAScript whitespace and line terminators from both ends; what it removes is stated by `Text.TrimShape`. |
| Text.SplitComma | popup.js:303 | `split(',')` always yields at least one piece, so the empty string splits into one empty piece. The pieces hold no comma (`Text.SplitCommaPieces`). |
| Text.JoinComma | popup.js:55 | `join(', ')`: the pieces with the two-character separator between neighbours; `Popup.JoinThenParse` undoes it. |
| Text.TrimShape | popup.js:303 | `trim` returns the slice `s[i..j]` of its input left after removing a prefix `s[..i]` and a suffix `s[j..]` made only of whitespace, and that slice has no whitespace at either end. |
| Text.SplitCommaPieces | popup.js:303 | No piece produced by `split(',')` contains a comma. |
| Text.SplitCommaFree | popup.js:303 | A string without a comma splits into just itself. |
| Text.SplitCommaConcat | popup.js:303 | Splitting `a + ',' + b` gives the pieces of `a` followed by the pieces of `b`. |
| Detection.FirstSceneFrom | content.js:231-244 | Returns the first scene, from index `from` on, whose inclusive start/end range contains the playback time; returns none exactly when no such scene exists. |
| Detection.FirstHitFrom | content.js:222-246 | Returns the first (video, scene) pair in database order where the video's patterns match and the scene contains the time. Matching videos without such a scene are skipped. Returns none exactly when no pair exists. |
| Detection.CheckTimestamps | content.js:214-249 | No database gives no match. Otherwise there is no match exactly when no pattern-matched video has a scene at the time. A match is the database's first hit, carrying the action configured for its type (blur when the type is unknown), its type, its description and its end time. |
| Detection.SceneAction | content.js:234-235 | The action of a scene type is the `defaultAction` configured for it in `sceneTypes`, and `blur` for a type with no entry. |
| Detection.UnconfiguredTypeBlurs | content.js:234-235 | A scene whose type is missing from `sceneTypes` is handled by blurring. |
| Detection.FirstKeywordFrom | content.js:258-260 | Returns the first keyword from index `from` on that occurs in the text; returns none exactly when no such keyword exists. |
| Detection.CheckKeywords | content.js:251-262 | Returns none exactly when no keyword occurs in the lowercased page text. Otherwise returns the first such keyword in list order. |
| Detection.UppercaseKeywordNeverMatches | content.js:254-259 | A keyword holding an upper-case letter is never reported. |
| Detection.EmptyKeywordAlwaysMatches | content.js:258-260 | An empty keyword matches every page. |
| Detection.IsAllBlack | content.js:273-283 | The strided scan answers true exactly when no pixel sampled every 400 bytes has a red, green or blue value above 10. |
| Detection.Threshold | content.js:306 | `(100 - sensitivity) / 100` as an exact rational; its points and monotonicity are stated by `Detection.ThresholdPoints` and `Detection.SensitivityMonotone`. |
| Detection.Triggers | content.js:309 | A prediction triggers exactly when its class is `Porn`, `Hentai` or `Sexy` and its probability is strictly above the threshold. |
| Detection.Round | content.js:310 | `Math.round` as the floor of `x + 1/2`, so halves round up. |
| Detection.Inference | content.js:264-318 | What `runAIInference` yields: nothing for an all-black frame, else `Detection.Classify` of the reply. `Detection.BlackFrameYieldsNothing` states the first case. |
| Detection.FirstTriggerFrom | content.js:308-312 | Returns the first prediction, from index `from` on, of a forbidden class with probability strictly above the threshold; returns none exactly when no such prediction exists. |
| Detection.Classify | content.js:299-313 | A failed or undefined reply, or one without predictions, gives nothing. Otherwise the result is nothing exactly when no prediction triggers. A result is the first triggering prediction, reported with its class and its rounded percentage. |
| Detection.RunInference | content.js:264-318 | The frame is sent exactly when it is not all black. A black frame yields nothing. A sent frame yields the threshold rule applied to the reply. |
| Detection.ThresholdPoints | content.js:301-310 | Sensitivity 50, 100 and 0 give thresholds 0.5, 0 and 1. The comparison is strict, and only forbidden classes count. |
| Detection.FullSensitivityTriggers | content.js:304-309 | At sensitivity 100, any forbidden class with positive probability triggers. |
| Detection.ZeroSensitivityNeverTriggers | content.js:305-309 | At sensitivity 0, no probability of at most 1 triggers. |
| Detection.SensitivityMonotone | content.js:306-309 | Raising the sensitivity never loses a detection. |
| Detection.BlackFrameYieldsNothing | content.js:285-288 | An all-black frame yields no detection, whatever the classifier would say. |
| Effects.ShowOverlayFx | content.js:371-406 | `showOverlay` on the effect state: the document's first overlay goes, one is appended. Its bound is stated by `Effects.ShowOverlayLeavesOne`. |
| Effects.ApplyFx | content.js:320-355 | `applyAction` on the effect state, with the same switch over actions; its properties are stated by `Effects.ApplyEffects`, `Effects.EffectsStack` and `Effects.UserMuteKept`. |
| Effects.RemoveFx | content.js:357-369 | `removeAction` on the effect state; its properties are stated by `Effects.RemoveClears` and `Effects.RemoveIdempotent`. |
| Effects.ApplyEffects | content.js:320-355 | Blur is left exactly for `blur` and for unknown actions. Only `skip` moves the time, by 5 s. Only `mute` on an unmuted video mutes it and marks the mute as the script's own. No action unmutes. `overlay` leaves an overlay. |
| Effects.ShowOverlayLeavesOne | content.js:371-406 | With at most one overlay on the page, `showOverlay` leaves exactly one. |
| Effects.RemoveIdempotent | content.js:357-369 | With at most one overlay on the page, `removeAction` twice is the same as once. |
| Effects.RemoveClears | content.js:357-369 | `removeAction` leaves no filter, no overlay and no mark; the video stays muted exactly when the user muted it. |
| Effects.EffectsStack | content.js:320-355 | A mute survives a later blur. An overlay that is not under the video's parent survives a blur, and every other action but `overlay` leaves the overlay count unchanged. |
| Effects.OverlayBoundKept | content.js:320-374 | Neither `applyAction` nor `removeAction` raises the overlay count above one. |
| Effects.UserMuteKept | content.js:343-347 | A mute the user made is never undone, and never marked as the script's. |
| Effects.ShowOverlay | content.js:371-406 | Removes the document's first overlay, if any, and appends one. The page keeps at most one overlay. |
| Effects.ApplyAction | content.js:320-355 | The video's effect state and the page's overlays become exactly `ApplyFx` of the old state. The page keeps at most one overlay. |
| Effects.RemoveAction | content.js:357-369 | The video's effect state and the page's overlays become exactly `RemoveFx` of the old state. The page keeps at most one overlay. |
| Effects.HandleNavigation | content.js:132-150 | Every attached video loses its attached flag, its filter and any mute the script made; its other state is kept. Unattached videos are untouched. One overlay is removed. |
| Monitor.Cycle | content.js:166-211 | One interval callback as a function of the old state, with timestamps first, then the scene-end removal, then `Monitor.Checks`. The lemmas below state its behaviour, and `Monitor.Monitor.Step` is proved equal to it. |
| Monitor.Checks | content.js:189-209 | The keyword test, the classifier and the cleanup, in the source's order. The keyword path fires only on a truthy match (`Monitor.KeywordFires`). |
| Monitor.KeywordHit | content.js:189-190 | `checkKeywords` is consulted only when keywords are enabled; otherwise there is no keyword hit. |
| Monitor.KeywordFires | content.js:190-191 | `if (keywordMatch)`: keywords are on and `checkKeywords` returned a non-empty word. |
| Monitor.EmptyKeywordMasksLater | content.js:189-195 | With `""` first in the list, the keyword path never fires, and the cycle is the same whatever keywords follow. |
| Monitor.MasterSwitchIgnored | content.js:166-211 | The cycle does not depend on `settings.enabled`: changing it changes no outcome. |
| Monitor.PausedCycleChangesNothing | content.js:167 | A paused or ended video is left exactly as it was. |
| Monitor.TimestampMatchWins | content.js:169-180 | With timestamps on and a scene at the current time, that scene becomes the active one. Its action is applied only when its description differs from the active scene's. Nothing is removed. |
| Monitor.TimestampMatchSkipsOtherChecks | content.js:172-180 | With a timestamp match, the cycle does not depend on the page text, the frame, the reply, or any setting other than `timestampsEnabled`. |
| Monitor.SceneEndClears | content.js:182-203 | When the active scene is over, it is cleared and `removeAction` runs once or twice. If nothing else triggers, the result equals a single removal. |
| Monitor.ClassifierOffKeepsEffect | content.js:189-209 | With the classifier off and keywords on, a cycle with no scene at the current time, no truthy keyword match and no active scene leaves an earlier effect in place. |
| Monitor.BlackFrameIsNoDetection | content.js:197-203 | A black frame behaves as a missing reply. With the classifier on, no active scene, no timestamp match and no truthy keyword match, it removes the current effect. |
| Monitor.CycleKeepsOverlayBound | content.js:166-211 | A cycle never leaves more than one overlay on the page. |
| Monitor.CycleKeepsUserMute | content.js:166-211 | A mute the user made survives every cycle. |
| Monitor.Monitor.constructor | content.js:157-164 | A new cycle watches the given video and has no active scene. |
| Monitor.Monitor.Step | content.js:166-211 | One run of the interval callback. The video's effect state, the active scene and the number of removals become exactly those given by `Cycle` on the old state, where a keyword match on `""` counts as no match. The page keeps at most one overlay. |
| Monitor.Monitor.RunChecks | content.js:189-209 | The keyword, classifier and cleanup part of a cycle, where only a truthy keyword match applies the default action. The video's effect state and the number of removals become exactly those given by `Checks` on the old state, and the active scene is not touched. The page keeps at most one overlay. |
| Monitor.Attach | content.js:157-164 | An attached video gets no second cycle. Any other video becomes attached and gets a new cycle with no active scene. No effect operation touches the attached flag, so only the navigation reset makes a video bindable again, and it does not stop the earlier cycle (`Monitor.NavigateAndRescan`). |
| Monitor.AllAttachedNoneUnbound | content.js:152-154 | When every video is attached, a re-scan binds nothing. |
| Monitor.NoneAttachedAllUnbound | content.js:137-153 | After the navigation reset no video is attached, so the re-scan finds every video to bind. |
| Monitor.Rescan | content.js:152-154 | Every video of the page ends up attached. Exactly the previously unattached ones get a new cycle each, in document order. No effect changes, and `paused` and `ended` are kept. Cycles bound before are not stopped. |
| Monitor.NavigateAndRescan | content.js:132-166 | After `handleNavigation` and the re-scan, one overlay is gone and every video is attached with a new cycle. A previously attached video has lost its filter and the script's own mute, and keeps its time, paused and ended state. Every other video keeps its effect state. A video that already had a cycle keeps the old one, with its old active scene, beside the new one. |
| Background.AnyEntryFrom | background.js:64-76 | The early-return loop answers true exactly when some entry from `from` on, lowercased, occurs in the text. |
| Background.ShouldBlockUrl | background.js:56-82 | A missing or disabled list, or an unparsable URL, blocks nothing. A host containing a listed site is blocked. Otherwise the URL is blocked exactly when it contains a listed keyword. |
| Background.MoreEntriesStillBlock | background.js:56-82 | Adding sites or keywords never unblocks a URL. |
| Background.CaseInsensitive | background.js:61-73 | The decision ignores the case of the URL and the host. |
| Background.FallbackBlocksNothing | background.js:43 | The list used after a failed load blocks nothing. |
| Background.NavigationGate | background.js:90-91 | The settings test of `onBeforeNavigate`: settings are stored, `enabled` is true and `siteBlockingEnabled` is true. `Background.Worker.OnBeforeNavigate` uses it. |
| Background.Worker.constructor | background.js:3 | The worker starts with no blocklist loaded. |
| Background.Worker.LoadBlocklist | background.js:36-45 | Also the eager loads on install and start-up (background.js:26, 31). The list becomes the fetched one, or the empty enabled fallback when the fetch fails. |
| Background.Worker.EnsureBlocklist | background.js:48-53 | A loaded list is kept. A missing one is loaded. The list is returned. |
| Background.Worker.GetBlocklist | background.js:110-115 | Answers the ensured list. |
| Background.Worker.UpdateBlocklist | background.js:117-121 | The supplied value replaces the list wholesale. |
| Background.Worker.OnBeforeNavigate | background.js:85-106 | Only a main-frame navigation with `enabled` and `siteBlockingEnabled` set loads the list and can redirect, and it redirects exactly when `shouldBlockUrl` holds. Any other navigation changes nothing. |
| Popup.ParseKeywords | popup.js:302-304 | `split(',')`, then `trim` on each piece, then dropping the empty ones. Its properties are stated by `Popup.ParseKeywordsWellFormed`, `Popup.ParseKeywordsKeepsOrder` and `Popup.JoinThenParse`. |
| Popup.CleanWellFormed | popup.js:303 | Trimming and dropping empty pieces yields keywords that are non-empty, trimmed and free of the comma. |
| Popup.ParseKeywordsWellFormed | popup.js:302-304 | Every keyword `parseKeywords` returns is non-empty, trimmed and free of commas. |
| Popup.CleanConcat | popup.js:303 | The map/filter step distributes over concatenation. |
| Popup.ParseKeywordsKeepsOrder | popup.js:302-304 | Parsing `a + ',' + b` gives the keywords of `a` followed by those of `b`. |
| Popup.ParseIgnoresLeadingBlank | popup.js:303 | A blank in front of the input changes nothing. |
| Popup.ParseJoinedHead | popup.js:302-304 | A well-formed keyword followed by the `", "` separator of the join at popup.js:55 and more text parses to that keyword, then the keywords of the rest. |
| Popup.JoinThenParse | popup.js:302-304 | A list of well-formed keywords, shown as `join(', ')` (popup.js:55) and parsed again, is the same list. |
| Popup.ResaveIsStable | popup.js:162-165 | Saving the keyword box unedited (filled by the join at popup.js:55) leaves an already-parsed list unchanged. |
| Popup.NewPinAccepted | popup.js:269 | `newPin && newPin.length === 4 && !isNaN(newPin)`: the prompt was not cancelled, and the answer has four characters and converts to a number under the ECMAScript string-to-number grammar. |
| Popup.FourDigitsAccepted | popup.js:268-269 | Every four-digit answer is accepted as a new PIN. |
| Popup.NonDigitPinsAccepted | popup.js:269 | Because the test is `!isNaN`, four blanks, an exponent, a hex literal and a signed decimal are accepted too. |
| Popup.PinProtected | popup.js:62 | `settings.security && settings.security.pin` is truthy: a security object is present and its PIN is a non-empty string. The same test gates popup.js:85 and popup.js:254. |
| Popup.PinMatches | popup.js:226 | The typed PIN equals the stored one. The security object must be present, as the start-up normalisation (popup.js:41) guarantees; `Popup.Popup.Unlock` discharges this from the popup's invariant. |
| Popup.SettingsAfter | popup.js:63-93 | The settings after the unlock handler runs a deferred callback: the master-switch change sets `enabled`, and a confirmed PIN removal clears the PIN (popup.js:255-262). `Popup.GatedCallbacksTakeEffectOnce` states what these may change. |
| Popup.GatedCallbacksTakeEffectOnce | popup.js:88-93 | Only the master-switch callback changes `enabled`, setting it to the desired value. Only a confirmed PIN removal (popup.js:255-262) changes `security`. No callback changes any other setting. A callback run a second time has no further effect, and running none, as the unlock handler does once the pending callback is cleared (popup.js:232-235), keeps every setting. |
| Popup.Popup.constructor | popup.js:28-42 | Starts from the normalised settings, on the main view and the dashboard, with nothing pending. |
| Popup.Popup.RequestLogin | popup.js:219-222 | The callback replaces any pending one, and the login view is shown. |
| Popup.Popup.Unlock | popup.js:225-241 | A correct PIN hides the login, runs the pending callback once and clears it. A wrong PIN changes nothing. |
| Popup.Popup.OpenSettings | popup.js:61-69 | With a PIN set, the settings view waits for the login. Without one, it opens at once. |
| Popup.Popup.CloseSettings | popup.js:71-74 | The settings view is closed. |
| Popup.Popup.ToggleMaster | popup.js:80-100 | With a PIN set, `enabled` is kept and the change waits for the login. Without one, `enabled` becomes the desired value. |
| Popup.Popup.SetupPin | popup.js:251-278 | With a PIN set, removal waits for the login. Otherwise an accepted answer becomes the PIN, and anything else changes nothing. |
| Popup.Popup.KeywordsText | popup.js:55 | The keyword box text. When the stored keywords are well formed, it parses back to exactly the stored list. |
| Popup.Popup.SaveKeywords | popup.js:162-165 | The keyword list becomes `parseKeywords` of the box, and everything else is kept. The stored list is then well formed, so the box shows it without change. |

## Left out

- Timers and event plumbing: the 2-second interval, the 500 ms URL poll, `popstate` and `yt-navigate-finish`,
  the `MutationObserver` and the 1-second re-attach delay. Each is modelled as one call of the operation it
  triggers (`Monitor.Monitor.Step`, `Effects.HandleNavigation`, `Monitor.Rescan`); interleaving and concurrency
  are not modelled.
- offscreen.js, sandbox.js and the worker's offscreen-document and `analyzeFrame` plumbing: the classifier is
  represented by its reply, a parameter of the model.
- Canvas drawing and JPEG encoding: the frame is given as its RGBA bytes.
- Detection.RunInference: does not model an unreadable canvas. For a cross-origin video, `getImageData`
  throws (content.js:274); the `catch` at content.js:314-316 then returns null with no message sent. The model
  always has the frame's bytes, so that path appears only as a frame whose reply is `NoReply`, which gives
  the same cycle outcome (no detection) but counts the message as sent.
- The overlay's markup and styles: the page holds only a count of overlay elements.
- Storage, `fetch`, the settings-change listener and the "test censorship" message with its 3-second undo:
  stored settings, the parsed database and the parsed blocklist are parameters.
- URL parsing: the host is given already parsed, or as None for a URL that `new URL` rejects.
- The redirect URL and `encodeURIComponent`: `Background.Worker.OnBeforeNavigate` answers only whether the
  tab is redirected.
- The popup's DOM: the toggles, slider and select, the status display, alerts, the login error message, and
  the individual handlers that assign one field and save. Dialog answers are parameters.
- Text.Lower: lowercases ASCII letters only, because Unicode case mapping is not modelled.
- Effects.ApplyAction: does not clamp `currentTime + 5` to the video's duration, because media behaviour is
  not modelled, and it uses exact reals rather than IEEE doubles.
- Detection.CheckTimestamps: a scene type that names a property of `Object.prototype` (such as
  `constructor`) is treated as unconfigured and blurs, because prototype lookup is not modelled.
- Detection.Classify: probabilities and the threshold are exact reals rather than doubles, so rounding at the
  threshold boundary is not modelled.
- Popup.NewPinAccepted: `isNaN` is modelled by the string-to-number grammar of section 7.1.4.1 of ECMA-262
  (ToNumber applied to the String type) as a syntax test only; the numeric value is never computed.
- Content settings loaded as `{}` when nothing is stored: the model passes a full `Settings` value to every
  cycle; a missing object reads as every flag off.
