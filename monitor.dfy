/** The per-video detection cycle of the content script (the body of the
    two-second interval that `attachVideoListener` starts), the binding of
    videos to cycles, and the re-scan that follows a navigation. */
module Monitor {
  import opened Wrappers
  import opened Config
  import opened Detection
  import opened Effects

  /** Everything a cycle reads besides the video and its active scene: the
      scene database, the page URL and title, the page text, the sampled
      frame, what the classifier would answer for it, and whether an
      overlay lies under the video's parent element. */
  datatype Signals = Signals(
    db: Option<Database>,
    url: string,
    title: string,
    text: string,
    frame: seq<byte>,
    reply: Reply,
    overlayInParent: bool)

  /** The state after a cycle and the number of `removeAction` calls it made. */
  datatype Outcome = Outcome(fx: Fx, active: Option<SceneMatch>, removals: nat)

  function SceneAt(sig: Signals, t: real): Option<SceneMatch> {
    CheckTimestamps(sig.db, sig.url, sig.title, t)
  }

  /** The keyword check as the cycle runs it: only when keywords are enabled. */
  function KeywordHit(cfg: Settings, sig: Signals): Option<string> {
    if cfg.keywordsEnabled then CheckKeywords(cfg.keywords, sig.text) else None
  }

  /** `if (keywordMatch)`: `checkKeywords` answers the matched word itself,
      and the empty word is falsy, so a match on `""` counts as no match. */
  predicate KeywordFires(cfg: Settings, sig: Signals) {
    KeywordHit(cfg, sig).Some? && KeywordHit(cfg, sig).value != ""
  }

  /** One detection cycle. Priority: timestamps, then keywords, then the
      classifier; `active` is the closure variable `activeScene`. */
  function Cycle(cfg: Settings, paused: bool, ended: bool, fx: Fx, active: Option<SceneMatch>, sig: Signals): Outcome {
    if paused || ended then Outcome(fx, active, 0)
    else
      var tm := SceneAt(sig, fx.currentTime);
      if tm.Some? && cfg.timestampsEnabled then
        if active.None? || active.value.description != tm.value.description then
          Outcome(ApplyFx(fx, tm.value.action, sig.overlayInParent), tm, 0)
        else
          Outcome(fx, active, 0)
      else
        var sceneEnded := active.Some? && tm.None?;
        Checks(cfg, if sceneEnded then RemoveFx(fx) else fx, if sceneEnded then None else active,
               if sceneEnded then 1 else 0, tm.None?, sig)
  }

  /** The rest of a cycle without a timestamp action: the keyword check, then
      the classifier or, with the classifier off, the cleanup. `removals`
      removals have already been made and `noScene` tells whether no scene
      is at the current time. */
  function Checks(cfg: Settings, fx: Fx, active: Option<SceneMatch>, removals: nat, noScene: bool, sig: Signals): Outcome {
    if KeywordFires(cfg, sig) then
      Outcome(ApplyFx(fx, cfg.defaultAction, sig.overlayInParent), active, removals)
    else if cfg.aiEnabled then
      if Inference(sig.frame, sig.reply, cfg.sensitivity).Some? then
        Outcome(ApplyFx(fx, cfg.defaultAction, sig.overlayInParent), active, removals)
      else if active.None? then
        Outcome(RemoveFx(fx), active, removals + 1)
      else
        Outcome(fx, active, removals)
    else if noScene && !cfg.keywordsEnabled then
      Outcome(RemoveFx(fx), active, removals + 1)
    else
      Outcome(fx, active, removals)
  }

  /** The content script never reads `settings.enabled`: the popup's master
      switch has no effect on a cycle, only on site blocking. */
  lemma MasterSwitchIgnored(cfg: Settings, e: Option<bool>, paused: bool, ended: bool, fx: Fx,
                            active: Option<SceneMatch>, sig: Signals)
    ensures Cycle(cfg.(enabled := e), paused, ended, fx, active, sig) == Cycle(cfg, paused, ended, fx, active, sig)
  {
  }

  /** A paused or ended video is left exactly as it was. */
  lemma PausedCycleChangesNothing(cfg: Settings, paused: bool, ended: bool, fx: Fx, active: Option<SceneMatch>, sig: Signals)
    requires paused || ended
    ensures Cycle(cfg, paused, ended, fx, active, sig) == Outcome(fx, active, 0)
  {
  }

  /** With timestamps enabled and a scene at the current time, that scene
      becomes the active one; its action is applied only when its
      description differs from the active scene's, and nothing is removed. */
  lemma TimestampMatchWins(cfg: Settings, fx: Fx, active: Option<SceneMatch>, sig: Signals)
    requires cfg.timestampsEnabled && SceneAt(sig, fx.currentTime).Some?
    ensures var r := Cycle(cfg, false, false, fx, active, sig);
      var tm := SceneAt(sig, fx.currentTime).value;
      && r.removals == 0
      && (active.Some? && active.value.description == tm.description ==> r == Outcome(fx, active, 0))
      && (active.None? || active.value.description != tm.description ==>
            r == Outcome(ApplyFx(fx, tm.action, sig.overlayInParent), Some(tm), 0))
  {
  }

  /** With a timestamp match, no keyword or classifier check runs: the cycle
      does not depend on the page text, the frame, the classifier reply or
      any setting besides `timestampsEnabled`. */
  lemma TimestampMatchSkipsOtherChecks(cfg: Settings, cfg': Settings, fx: Fx, active: Option<SceneMatch>, sig: Signals, sig': Signals)
    requires cfg.timestampsEnabled && cfg'.timestampsEnabled
    requires sig'.db == sig.db && sig'.url == sig.url && sig'.title == sig.title
    requires sig'.overlayInParent == sig.overlayInParent
    requires SceneAt(sig, fx.currentTime).Some?
    ensures Cycle(cfg, false, false, fx, active, sig) == Cycle(cfg', false, false, fx, active, sig')
  {
  }

  /** When the active scene is over (no scene at the current time), the
      marker is cleared and `removeAction` runs: once for the scene end and,
      on the classifier paths, possibly a second time in the same cycle.
      If nothing else triggers, the state is that of one removal. */
  lemma SceneEndClears(cfg: Settings, fx: Fx, active: Option<SceneMatch>, sig: Signals)
    requires active.Some? && SceneAt(sig, fx.currentTime).None?
    requires fx.overlays <= 1
    ensures var r := Cycle(cfg, false, false, fx, active, sig);
      && r.active.None?
      && 1 <= r.removals <= 2
      && ((!KeywordFires(cfg, sig) && !(cfg.aiEnabled && Inference(sig.frame, sig.reply, cfg.sensitivity).Some?))
          ==> r.fx == RemoveFx(fx))
  {
    RemoveIdempotent(fx);
  }

  /** With the classifier off and keywords on, a cycle in which nothing
      matches and no scene was active leaves any earlier effect in place. */
  lemma ClassifierOffKeepsEffect(cfg: Settings, fx: Fx, sig: Signals)
    requires !cfg.aiEnabled && cfg.keywordsEnabled
    requires SceneAt(sig, fx.currentTime).None? && !KeywordFires(cfg, sig)
    ensures Cycle(cfg, false, false, fx, None, sig) == Outcome(fx, None, 0)
  {
  }

  /** An empty first keyword matches every page, and since the match is the
      falsy `""` the keyword path never fires: no later keyword is ever
      tried, and the cycle is the one a list holding only `""` gives. */
  lemma {:induction false} EmptyKeywordMasksLater(cfg: Settings, paused: bool, ended: bool, fx: Fx,
                                                  active: Option<SceneMatch>, sig: Signals, rest: seq<string>)
    requires cfg.keywords == [""] + rest
    ensures !KeywordFires(cfg, sig)
    ensures Cycle(cfg, paused, ended, fx, active, sig) == Cycle(cfg.(keywords := [""]), paused, ended, fx, active, sig)
  {
    if cfg.keywordsEnabled {
      EmptyKeywordAlwaysMatches(cfg.keywords, sig.text);
      EmptyKeywordAlwaysMatches([""], sig.text);
      assert KeywordHit(cfg, sig) == Some("");
      assert KeywordHit(cfg.(keywords := [""]), sig) == Some("");
    }
  }

  /** An all-black frame counts as "no detection": the cycle is the one a
      missing classifier reply would give, and with no scene active it
      removes the current effect. */
  lemma BlackFrameIsNoDetection(cfg: Settings, fx: Fx, active: Option<SceneMatch>, sig: Signals)
    requires AllBlack(sig.frame)
    ensures Cycle(cfg, false, false, fx, active, sig) == Cycle(cfg, false, false, fx, active, sig.(reply := NoReply))
    ensures cfg.aiEnabled && active.None? && SceneAt(sig, fx.currentTime).None? && !KeywordFires(cfg, sig) ==>
      Cycle(cfg, false, false, fx, active, sig).fx == RemoveFx(fx)
  {
  }

  /** A cycle keeps at most one overlay on the page. */
  lemma CycleKeepsOverlayBound(cfg: Settings, paused: bool, ended: bool, fx: Fx, active: Option<SceneMatch>, sig: Signals)
    requires fx.overlays <= 1
    ensures Cycle(cfg, paused, ended, fx, active, sig).fx.overlays <= 1
  {
    if !(paused || ended) {
      var tm := SceneAt(sig, fx.currentTime);
      var fx1 := if active.Some? && tm.None? then RemoveFx(fx) else fx;
      OverlayBoundKept(fx, cfg.defaultAction, sig.overlayInParent);
      OverlayBoundKept(fx1, cfg.defaultAction, sig.overlayInParent);
      if tm.Some? {
        OverlayBoundKept(fx, tm.value.action, sig.overlayInParent);
      }
    }
  }

  /** A mute the user made survives every cycle. */
  lemma CycleKeepsUserMute(cfg: Settings, paused: bool, ended: bool, fx: Fx, active: Option<SceneMatch>, sig: Signals)
    requires fx.muted && !fx.selfMuted
    ensures Cycle(cfg, paused, ended, fx, active, sig).fx.muted
    ensures !Cycle(cfg, paused, ended, fx, active, sig).fx.selfMuted
  {
    if !(paused || ended) {
      var tm := SceneAt(sig, fx.currentTime);
      var fx1 := if active.Some? && tm.None? then RemoveFx(fx) else fx;
      UserMuteKept(fx, cfg.defaultAction, sig.overlayInParent);
      UserMuteKept(fx1, cfg.defaultAction, sig.overlayInParent);
      UserMuteKept(RemoveFx(fx1), cfg.defaultAction, sig.overlayInParent);
      if tm.Some? {
        UserMuteKept(fx, tm.value.action, sig.overlayInParent);
      }
    }
  }

  /** The detection cycle bound to one video. */
  class Monitor {
    const video: Video
    /** The closure variable `activeScene`. */
    var activeScene: Option<SceneMatch>

    constructor (video: Video)
      ensures this.video == video && activeScene.None?
    {
      this.video := video;
      activeScene := None;
    }

    /** One run of the interval callback; the classifier reply is the one
        the background worker would give for this frame. */
    method Step(page: Page, cfg: Settings, db: Option<Database>, url: string, title: string, text: string,
                frame: array<byte>, reply: Reply, overlayInParent: bool) returns (removals: nat)
      requires page.Valid()
      modifies this`activeScene, page`overlays, video`blurred, video`muted, video`selfMuted, video`currentTime
      ensures page.Valid()
      ensures var r := Cycle(cfg, old(video.paused), old(video.ended), old(FxOf(video, page)), old(activeScene),
                             Signals(db, url, title, text, old(frame[..]), reply, overlayInParent));
        FxOf(video, page) == r.fx && activeScene == r.active && removals == r.removals
    {
      removals := 0;
      if video.paused || video.ended {
        return;
      }
      ghost var fx0, a0 := FxOf(video, page), activeScene;
      var sig := Signals(db, url, title, text, frame[..], reply, overlayInParent);
      var tm := CheckTimestamps(db, url, title, video.currentTime);
      assert tm == SceneAt(sig, fx0.currentTime);
      if tm.Some? && cfg.timestampsEnabled {
        if activeScene.None? || activeScene.value.description != tm.value.description {
          activeScene := tm;
          ApplyAction(page, video, tm.value.action, overlayInParent);
        }
        assert Cycle(cfg, false, false, fx0, a0, sig) == Outcome(FxOf(video, page), activeScene, 0);
        return;
      }
      if activeScene.Some? && tm.None? {
        activeScene := None;
        RemoveAction(page, video);
        removals := removals + 1;
      }
      assert Cycle(cfg, false, false, fx0, a0, sig) == Checks(cfg, FxOf(video, page), activeScene, removals, tm.None?, sig);
      removals := RunChecks(page, cfg, sig, frame, removals, tm.None?);
    }

    /** The keyword, classifier and cleanup part of `Step`. */
    method RunChecks(page: Page, cfg: Settings, sig: Signals, frame: array<byte>, before: nat, noScene: bool)
      returns (removals: nat)
      requires sig.frame == frame[..] && page.Valid()
      modifies page`overlays, video`blurred, video`muted, video`selfMuted, video`currentTime
      ensures page.Valid()
      ensures var r := Checks(cfg, old(FxOf(video, page)), activeScene, before, noScene, sig);
        FxOf(video, page) == r.fx && removals == r.removals
    {
      removals := before;
      if cfg.keywordsEnabled {
        var keywordMatch := CheckKeywords(cfg.keywords, sig.text);
        if keywordMatch.Some? && keywordMatch.value != "" {
          ApplyAction(page, video, cfg.defaultAction, sig.overlayInParent);
          return;
        }
      }
      if cfg.aiEnabled {
        var prediction, _ := RunInference(frame, sig.reply, cfg.sensitivity);
        if prediction.Some? {
          ApplyAction(page, video, cfg.defaultAction, sig.overlayInParent);
        } else if activeScene.None? {
          RemoveAction(page, video);
          removals := removals + 1;
        }
      } else if noScene && !cfg.keywordsEnabled {
        RemoveAction(page, video);
        removals := removals + 1;
      }
    }
  }

  /** `attachVideoListener`: a no-op on an attached video, otherwise marks
      it attached and starts a cycle with no active scene. */
  method Attach(video: Video) returns (m: Monitor?)
    modifies video`attached
    ensures video.attached
    ensures old(video.attached) ==> m == null
    ensures !old(video.attached) ==> m != null && fresh(m) && m.video == video && m.activeScene.None?
  {
    if video.attached {
      return null;
    }
    video.attached := true;
    m := new Monitor(video);
  }

  function VideosOf(ms: seq<Monitor>): seq<Video> {
    seq(|ms|, k requires 0 <= k < |ms| => ms[k].video)
  }

  /** The videos of vs that are not attached, in order. */
  ghost function Unbound(vs: seq<Video>): seq<Video>
    reads set v | v in vs
  {
    if vs == [] then []
    else Unbound(vs[..|vs| - 1]) + (if vs[|vs| - 1].attached then [] else [vs[|vs| - 1]])
  }

  /** When every video is attached, none is left to bind. */
  lemma {:induction false} AllAttachedNoneUnbound(vs: seq<Video>)
    requires forall v :: v in vs ==> v.attached
    ensures Unbound(vs) == []
  {
    if vs != [] {
      AllAttachedNoneUnbound(vs[..|vs| - 1]);
    }
  }

  /** When no video is attached, every one of them is left to bind. */
  lemma {:induction false} NoneAttachedAllUnbound(vs: seq<Video>)
    requires forall v :: v in vs ==> !v.attached
    ensures Unbound(vs) == vs
  {
    if vs != [] {
      NoneAttachedAllUnbound(vs[..|vs| - 1]);
      assert vs[..|vs| - 1] + [vs[|vs| - 1]] == vs;
    }
  }

  /** `document.querySelectorAll('video').forEach(attachVideoListener)`:
      every video not yet attached gets exactly one new cycle, in document
      order; afterwards every video is attached. */
  method Rescan(page: Page) returns (bound: seq<Monitor>)
    requires page.Valid()
    modifies set v | v in page.videos
    ensures page.videos == old(page.videos)
    ensures forall v :: v in page.videos ==> v.attached
    ensures VideosOf(bound) == old(Unbound(page.videos))
    ensures forall k :: 0 <= k < |bound| ==> fresh(bound[k]) && bound[k].activeScene.None?
    ensures forall v :: v in page.videos ==> FxOf(v, page) == old(FxOf(v, page))
    ensures forall v :: v in page.videos ==> v.paused == old(v.paused) && v.ended == old(v.ended)
  {
    bound := [];
    var i := 0;
    while i < |page.videos|
      invariant 0 <= i <= |page.videos|
      invariant page.videos == old(page.videos)
      invariant forall k :: 0 <= k < i ==> page.videos[k].attached
      invariant forall k :: i <= k < |page.videos| ==> page.videos[k].attached == old(page.videos[k].attached)
      invariant forall v :: v in page.videos ==> FxOf(v, page) == old(FxOf(v, page))
      invariant forall v :: v in page.videos ==> v.paused == old(v.paused) && v.ended == old(v.ended)
      invariant VideosOf(bound) == old(Unbound(page.videos[..i]))
      invariant forall k :: 0 <= k < |bound| ==> fresh(bound[k]) && bound[k].activeScene.None?
    {
      var v := page.videos[i];
      assert page.videos[..i + 1][..i] == page.videos[..i];
      var m := Attach(v);
      if m != null {
        bound := bound + [m];
      }
      i := i + 1;
    }
    assert page.videos[..i] == page.videos;
  }

  /** A navigation followed by the delayed re-scan. `handleNavigation`
      clears the attached flag but never stops a running interval, so every
      video of the page, the one cycle m watches included, gets a new cycle;
      m is not retired and keeps its active scene from before the
      navigation. After one navigation a video is therefore watched by two
      cycles. */
  method NavigateAndRescan(page: Page, m: Monitor) returns (bound: seq<Monitor>, k: nat)
    requires page.Valid() && m.video in page.videos
    modifies page`overlays, set v | v in page.videos
    ensures page.Valid() && page.videos == old(page.videos) && VideosOf(bound) == page.videos
    ensures page.overlays == DropOverlay(old(page.overlays))
    ensures forall v :: v in page.videos ==> v.attached
    ensures forall v :: v in page.videos && old(v.attached) ==>
      && !v.blurred && !v.selfMuted
      && v.muted == (old(v.muted) && !old(v.selfMuted))
      && v.currentTime == old(v.currentTime)
      && v.paused == old(v.paused) && v.ended == old(v.ended)
    ensures forall v :: v in page.videos && !old(v.attached) ==>
      FxOf(v, page) == old(FxOf(v, page)).(overlays := page.overlays)
      && v.paused == old(v.paused) && v.ended == old(v.ended)
    ensures k < |bound| && bound[k].video == m.video && fresh(bound[k]) && bound[k] != m
    ensures m.activeScene == old(m.activeScene)
  {
    HandleNavigation(page);
    NoneAttachedAllUnbound(page.videos);
    bound := Rescan(page);
    var j :| 0 <= j < |page.videos| && page.videos[j] == m.video;
    assert VideosOf(bound)[j] == bound[j].video;
    k := j;
  }
}
