/** The suppression effects of the content script: what `applyAction`,
    `removeAction` and `showOverlay` do to a video element and to the page,
    and the reset `handleNavigation` performs. */
module Effects {

  /** The parts of a `<video>` element the content script reads or writes. */
  class Video {
    var paused: bool
    var ended: bool
    var currentTime: real
    var muted: bool
    /** `style.filter` is the blur filter (rather than empty). */
    var blurred: bool
    /** `dataset.censurMuted === 'true'`: the mute was set by this script. */
    var selfMuted: bool
    /** `dataset.censurAttached` is set: a detection cycle is bound. */
    var attached: bool

    constructor (paused: bool, ended: bool, currentTime: real, muted: bool)
      ensures this.paused == paused && this.ended == ended
      ensures this.currentTime == currentTime && this.muted == muted
      ensures !blurred && !selfMuted && !attached
    {
      this.paused, this.ended := paused, ended;
      this.currentTime, this.muted := currentTime, muted;
      blurred, selfMuted, attached := false, false, false;
    }
  }

  /** The document: how many `.censur-overlay` elements it holds, and its
      video elements in document order. */
  class Page {
    var overlays: nat
    var videos: seq<Video>

    ghost predicate Valid()
      reads this
    {
      && overlays <= 1
      && forall i, j :: 0 <= i < j < |videos| ==> videos[i] != videos[j]
    }

    constructor (videos: seq<Video>)
      requires forall i, j :: 0 <= i < j < |videos| ==> videos[i] != videos[j]
      ensures Valid() && this.videos == videos && overlays == 0
    {
      this.videos := videos;
      overlays := 0;
    }
  }

  /** The effect state of one video together with the page's overlays. */
  datatype Fx = Fx(blurred: bool, muted: bool, selfMuted: bool, currentTime: real, overlays: nat)

  function FxOf(video: Video, page: Page): Fx
    reads video, page
  {
    Fx(video.blurred, video.muted, video.selfMuted, video.currentTime, page.overlays)
  }

  /** Seconds `skip` jumps forward. */
  const SkipSeconds: real := 5.0

  /** `querySelector('.censur-overlay')` followed by `remove()`: at most one
      overlay goes. */
  function DropOverlay(n: nat): nat {
    if n > 0 then n - 1 else 0
  }

  /** `showOverlay`: drop the first overlay of the document, append a new one. */
  function ShowOverlayFx(fx: Fx): Fx {
    fx.(overlays := DropOverlay(fx.overlays) + 1)
  }

  /** `applyAction(video, action)`. The filter is always reset first; an
      overlay is removed first only when it lies under the video's parent
      (`overlayInParent`). No action ever unmutes. */
  function ApplyFx(fx: Fx, action: string, overlayInParent: bool): Fx {
    var cleared := fx.(blurred := false,
                       overlays := if overlayInParent then DropOverlay(fx.overlays) else fx.overlays);
    if action == "blur" then cleared.(blurred := true)
    else if action == "overlay" then ShowOverlayFx(cleared)
    else if action == "skip" then cleared.(currentTime := cleared.currentTime + SkipSeconds)
    else if action == "mute" then
      if cleared.muted then cleared else cleared.(muted := true, selfMuted := true)
    else cleared.(blurred := true)
  }

  /** `removeAction(video)`: clear the filter, drop an overlay, and unmute
      only a mute this script made. */
  function RemoveFx(fx: Fx): Fx {
    fx.(blurred := false,
        overlays := DropOverlay(fx.overlays),
        muted := if fx.selfMuted then false else fx.muted,
        selfMuted := false)
  }

  /** What each action leaves behind: the blur filter exactly for `blur` and
      for any unknown action; five seconds more playback time exactly for
      `skip`; a mute added only by `mute` on an unmuted video; and nothing
      unmuted. */
  lemma ApplyEffects(fx: Fx, action: string, overlayInParent: bool)
    ensures var r := ApplyFx(fx, action, overlayInParent);
      && (r.blurred <==> action !in {"overlay", "skip", "mute"})
      && r.currentTime == (if action == "skip" then fx.currentTime + SkipSeconds else fx.currentTime)
      && (fx.muted ==> r.muted && r.selfMuted == fx.selfMuted)
      && (!fx.muted ==> (r.muted <==> action == "mute") && (r.selfMuted <==> action == "mute" || fx.selfMuted))
      && (action == "overlay" ==> r.overlays >= 1)
  {
  }

  /** With at most one overlay on the page, `showOverlay` leaves exactly one. */
  lemma ShowOverlayLeavesOne(fx: Fx)
    requires fx.overlays <= 1
    ensures ShowOverlayFx(fx).overlays == 1
  {
  }

  /** With at most one overlay on the page, `removeAction` is idempotent. */
  lemma RemoveIdempotent(fx: Fx)
    requires fx.overlays <= 1
    ensures RemoveFx(RemoveFx(fx)) == RemoveFx(fx)
  {
  }

  /** After `removeAction` no filter, overlay or self-made mute remains. */
  lemma RemoveClears(fx: Fx)
    requires fx.overlays <= 1
    ensures var r := RemoveFx(fx);
      !r.blurred && r.overlays == 0 && !r.selfMuted && (r.muted <==> fx.muted && !fx.selfMuted)
  {
  }

  /** Effects can stack: a mute survives a later blur, and an overlay that is
      not under the video's parent survives any later action but `overlay`. */
  lemma EffectsStack(fx: Fx, p: bool)
    ensures var m := ApplyFx(fx, "mute", p);
      ApplyFx(m, "blur", p).muted && ApplyFx(m, "blur", p).blurred
    ensures fx.overlays == 1 ==> ApplyFx(fx, "blur", false).overlays == 1 && ApplyFx(fx, "blur", false).blurred
    ensures forall a :: a != "overlay" ==> ApplyFx(fx, a, false).overlays == fx.overlays
  {
  }

  /** Neither operation raises the overlay count above one. */
  lemma OverlayBoundKept(fx: Fx, action: string, p: bool)
    requires fx.overlays <= 1
    ensures ApplyFx(fx, action, p).overlays <= 1
    ensures RemoveFx(fx).overlays <= 1
  {
  }

  /** A mute the user made (not marked as this script's) is never undone by
      either operation. */
  lemma UserMuteKept(fx: Fx, action: string, p: bool)
    requires fx.muted && !fx.selfMuted
    ensures ApplyFx(fx, action, p).muted && !ApplyFx(fx, action, p).selfMuted
    ensures RemoveFx(fx).muted && !RemoveFx(fx).selfMuted
  {
  }

  method ShowOverlay(page: Page)
    requires page.Valid()
    modifies page`overlays
    ensures page.Valid()
    ensures page.overlays == DropOverlay(old(page.overlays)) + 1
  {
    if page.overlays > 0 {
      page.overlays := page.overlays - 1;
    }
    page.overlays := page.overlays + 1;
  }

  method ApplyAction(page: Page, video: Video, action: string, overlayInParent: bool)
    requires page.Valid()
    modifies page`overlays, video`blurred, video`muted, video`selfMuted, video`currentTime
    ensures page.Valid()
    ensures FxOf(video, page) == ApplyFx(old(FxOf(video, page)), action, overlayInParent)
  {
    OverlayBoundKept(FxOf(video, page), action, overlayInParent);
    video.blurred := false;
    if overlayInParent && page.overlays > 0 {
      page.overlays := page.overlays - 1;
    }
    if action == "blur" {
      video.blurred := true;
    } else if action == "overlay" {
      ShowOverlay(page);
    } else if action == "skip" {
      video.currentTime := video.currentTime + SkipSeconds;
    } else if action == "mute" {
      if !video.muted {
        video.muted := true;
        video.selfMuted := true;
      }
    } else {
      video.blurred := true;
    }
  }

  method RemoveAction(page: Page, video: Video)
    requires page.Valid()
    modifies page`overlays, video`blurred, video`muted, video`selfMuted
    ensures page.Valid()
    ensures FxOf(video, page) == RemoveFx(old(FxOf(video, page)))
  {
    video.blurred := false;
    if page.overlays > 0 {
      page.overlays := page.overlays - 1;
    }
    if video.selfMuted {
      video.muted := false;
      video.selfMuted := false;
    }
  }

  /** `handleNavigation` without its re-attach timer: every attached video
      loses its attached flag, its filter and a mute this script made; then
      one overlay is removed. Videos that were not attached are untouched. */
  method HandleNavigation(page: Page)
    requires page.Valid()
    modifies page`overlays, set v | v in page.videos
    ensures page.Valid() && page.videos == old(page.videos)
    ensures page.overlays == DropOverlay(old(page.overlays))
    ensures forall v :: v in page.videos && old(v.attached) ==>
      && !v.attached && !v.blurred && !v.selfMuted
      && v.muted == (old(v.muted) && !old(v.selfMuted))
      && v.currentTime == old(v.currentTime)
      && v.paused == old(v.paused) && v.ended == old(v.ended)
    ensures forall v :: v in page.videos && !old(v.attached) ==> unchanged(v)
  {
    var i := 0;
    while i < |page.videos|
      invariant 0 <= i <= |page.videos|
      invariant page.videos == old(page.videos) && page.overlays == old(page.overlays)
      invariant forall k :: 0 <= k < i && old(page.videos[k].attached) ==>
        var v := page.videos[k];
        && !v.attached && !v.blurred && !v.selfMuted
        && v.muted == (old(v.muted) && !old(v.selfMuted))
        && v.currentTime == old(v.currentTime)
        && v.paused == old(v.paused) && v.ended == old(v.ended)
      invariant forall k :: 0 <= k < i && !old(page.videos[k].attached) ==> unchanged(page.videos[k])
      invariant forall k :: i <= k < |page.videos| ==> unchanged(page.videos[k])
    {
      var v := page.videos[i];
      if v.attached {
        v.attached := false;
        v.blurred := false;
        if v.selfMuted {
          v.muted := false;
          v.selfMuted := false;
        }
      }
      i := i + 1;
    }
    if page.overlays > 0 {
      page.overlays := page.overlays - 1;
    }
  }
}
