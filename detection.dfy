/** The decision rules of the content script that read, but never change,
    page state: the scene-database lookup (`checkTimestamps`), the keyword
    scan (`checkKeywords`), the black-frame pre-filter and the sensitivity
    threshold applied to a classifier reply (both in `runAIInference`). */
module Detection {
  import opened Wrappers
  import opened Text

  // ---------------------------------------------------------------------
  // Scene database

  datatype Scene = Scene(start: real, end: real, sceneType: string, description: string)

  datatype VideoEntry = VideoEntry(urlPatterns: seq<string>, scenes: seq<Scene>)

  /** `sceneTypes` maps a scene type to the `defaultAction` configured for it. */
  datatype Database = Database(videos: seq<VideoEntry>, sceneTypes: map<string, string>)

  /** The object `checkTimestamps` returns. */
  datatype SceneMatch = SceneMatch(action: string, sceneType: string, description: string, endTime: real)

  /** Action used for a scene whose type has no entry in `sceneTypes`. */
  const UnknownTypeAction := "blur"

  /** A URL pattern matches when, lowercased, it occurs in the lowercased
      page URL or the lowercased document title. */
  predicate PatternMatches(pattern: string, url: string, title: string) {
    Contains(Lower(url), Lower(pattern)) || Contains(Lower(title), Lower(pattern))
  }

  predicate VideoMatches(v: VideoEntry, url: string, title: string) {
    exists k :: 0 <= k < |v.urlPatterns| && PatternMatches(v.urlPatterns[k], url, title)
  }

  /** Both bounds are inclusive. */
  predicate InScene(s: Scene, t: real) {
    s.start <= t <= s.end
  }

  /** Scene j of database video i applies at playback time t. */
  predicate IsHit(db: Database, url: string, title: string, t: real, i: int, j: int) {
    && 0 <= i < |db.videos|
    && VideoMatches(db.videos[i], url, title)
    && 0 <= j < |db.videos[i].scenes|
    && InScene(db.videos[i].scenes[j], t)
  }

  /** (i', j') comes before (i, j) in database order. */
  predicate Before(i': int, j': int, i: int, j: int) {
    i' < i || (i' == i && j' < j)
  }

  /** (i, j) is a hit and no hit comes before it. */
  ghost predicate IsFirstHit(db: Database, url: string, title: string, t: real, i: int, j: int) {
    && IsHit(db, url, title, t, i, j)
    && forall i', j' :: Before(i', j', i, j) ==> !IsHit(db, url, title, t, i', j')
  }

  datatype Position = Position(video: nat, scene: nat)

  /** The first scene at or after index `from` that contains t. */
  function FirstSceneFrom(scenes: seq<Scene>, t: real, from: nat): (r: Option<nat>)
    requires from <= |scenes|
    ensures r.Some? ==> from <= r.value < |scenes| && InScene(scenes[r.value], t)
    ensures r.Some? ==> forall j :: from <= j < r.value ==> !InScene(scenes[j], t)
    ensures r.None? ==> forall j :: from <= j < |scenes| ==> !InScene(scenes[j], t)
    decreases |scenes| - from
  {
    if from == |scenes| then None
    else if InScene(scenes[from], t) then Some(from)
    else FirstSceneFrom(scenes, t, from + 1)
  }

  /** The loop over `videos` in `checkTimestamps`, from video `from` on: a
      video whose patterns match but that has no scene at t is passed over. */
  function FirstHitFrom(db: Database, url: string, title: string, t: real, from: nat): (r: Option<Position>)
    requires from <= |db.videos|
    ensures r.Some? ==> from <= r.value.video && IsHit(db, url, title, t, r.value.video, r.value.scene)
    ensures r.Some? ==> forall i', j' :: from <= i' && Before(i', j', r.value.video, r.value.scene) ==> !IsHit(db, url, title, t, i', j')
    ensures r.None? ==> forall i, j :: from <= i ==> !IsHit(db, url, title, t, i, j)
    decreases |db.videos| - from
  {
    if from == |db.videos| then None
    else
      var v := db.videos[from];
      var s := if VideoMatches(v, url, title) then FirstSceneFrom(v.scenes, t, 0) else None;
      if s.Some? then Some(Position(from, s.value))
      else FirstHitFrom(db, url, title, t, from + 1)
  }

  function SceneAction(sceneTypes: map<string, string>, sceneType: string): string {
    if sceneType in sceneTypes then sceneTypes[sceneType] else UnknownTypeAction
  }

  /** `checkTimestamps(t)`: nothing without a database; otherwise the first
      scene, in database order, of a video whose patterns match the page,
      with the action configured for its type. */
  function CheckTimestamps(db: Option<Database>, url: string, title: string, t: real): (r: Option<SceneMatch>)
    ensures db.None? ==> r.None?
    ensures db.Some? ==> (r.None? <==> forall i, j :: !IsHit(db.value, url, title, t, i, j))
    ensures r.Some? ==> exists i, j ::
      (&& IsFirstHit(db.value, url, title, t, i, j)
       && var s := db.value.videos[i].scenes[j];
          r.value == SceneMatch(SceneAction(db.value.sceneTypes, s.sceneType), s.sceneType, s.description, s.end))
  {
    if db.None? then None
    else
      match FirstHitFrom(db.value, url, title, t, 0)
      case None => None
      case Some(p) =>
        var s := db.value.videos[p.video].scenes[p.scene];
        assert IsFirstHit(db.value, url, title, t, p.video, p.scene);
        Some(SceneMatch(SceneAction(db.value.sceneTypes, s.sceneType), s.sceneType, s.description, s.end))
  }

  /** A scene type without configuration is handled by blurring. */
  lemma UnconfiguredTypeBlurs(db: Database, url: string, title: string, t: real)
    requires CheckTimestamps(Some(db), url, title, t).Some?
    requires CheckTimestamps(Some(db), url, title, t).value.sceneType !in db.sceneTypes
    ensures CheckTimestamps(Some(db), url, title, t).value.action == UnknownTypeAction
  {
  }

  // ---------------------------------------------------------------------
  // Keywords

  /** The keyword loop of `checkKeywords` over an already lowercased text. */
  function FirstKeywordFrom(keywords: seq<string>, hay: string, from: nat): (r: Option<nat>)
    requires from <= |keywords|
    ensures r.Some? ==> from <= r.value < |keywords| && Contains(hay, keywords[r.value])
    ensures r.Some? ==> forall k :: from <= k < r.value ==> !Contains(hay, keywords[k])
    ensures r.None? ==> forall k :: from <= k < |keywords| ==> !Contains(hay, keywords[k])
    decreases |keywords| - from
  {
    if from == |keywords| then None
    else if Contains(hay, keywords[from]) then Some(from)
    else FirstKeywordFrom(keywords, hay, from + 1)
  }

  /** `checkKeywords()`: the first keyword in list order that occurs in the
      lowercased page text. The keywords themselves are not lowercased. */
  function CheckKeywords(keywords: seq<string>, text: string): (r: Option<string>)
    ensures r.None? <==> forall k :: 0 <= k < |keywords| ==> !Contains(Lower(text), keywords[k])
    ensures r.Some? ==> exists i ::
      (&& 0 <= i < |keywords| && r.value == keywords[i]
       && Contains(Lower(text), keywords[i])
       && forall k :: 0 <= k < i ==> !Contains(Lower(text), keywords[k]))
  {
    match FirstKeywordFrom(keywords, Lower(text), 0)
    case None => None
    case Some(i) => Some(keywords[i])
  }

  /** A keyword holding an upper-case letter is never reported, whatever
      the page text. */
  lemma UppercaseKeywordNeverMatches(keywords: seq<string>, text: string, i: nat, k: nat)
    requires i < |keywords| && k < |keywords[i]| && IsUpper(keywords[i][k])
    ensures CheckKeywords(keywords, text) != Some(keywords[i])
  {
    LowerExcludesUpper(text, keywords[i], k);
  }

  /** An empty keyword is found in every text. */
  lemma EmptyKeywordAlwaysMatches(keywords: seq<string>, text: string)
    requires "" in keywords
    ensures CheckKeywords(keywords, text).Some?
  {
    ContainsEmpty(Lower(text));
  }

  // ---------------------------------------------------------------------
  // Black-frame pre-filter

  newtype byte = x: int | 0 <= x < 256

  /** Byte offset between two sampled pixels (every 100th RGBA pixel). */
  const Stride: nat := 400

  /** Largest channel value still counted as black. */
  const BlackLevel: byte := 10

  /** The pixel starting at byte i has a red, green or blue value above the
      black level; a channel past the end of the data reads as undefined,
      which is never above it. The alpha byte is not looked at. */
  predicate Bright(data: seq<byte>, i: nat) {
    || (i < |data| && data[i] > BlackLevel)
    || (i + 1 < |data| && data[i + 1] > BlackLevel)
    || (i + 2 < |data| && data[i + 2] > BlackLevel)
  }

  /** No sampled pixel (byte offsets 0, 400, 800, ...) is bright. */
  predicate AllBlack(data: seq<byte>) {
    forall i: nat :: i < |data| && i % Stride == 0 ==> !Bright(data, i)
  }

  /** The strided scan of `runAIInference`, stopping at the first bright
      sample. */
  method IsAllBlack(data: array<byte>) returns (black: bool)
    ensures black == AllBlack(data[..])
  {
    black := true;
    var i: nat := 0;
    while i < data.Length
      invariant i % Stride == 0
      invariant forall k: nat :: k < i && k < data.Length && k % Stride == 0 ==> !Bright(data[..], k)
      decreases data.Length - i
    {
      if data[i] > BlackLevel || (i + 1 < data.Length && data[i + 1] > BlackLevel)
        || (i + 2 < data.Length && data[i + 2] > BlackLevel)
      {
        assert Bright(data[..], i);
        black := false;
        return;
      }
      i := i + Stride;
    }
  }

  // ---------------------------------------------------------------------
  // Classifier reply and sensitivity threshold

  datatype Prediction = Prediction(className: string, probability: real)

  /** What the background worker answers to an `analyzeFrame` message.
      NoReply stands for an undefined answer or a failed call; a reply
      without a predictions array has `predictions` None. */
  datatype Reply = NoReply | Reply(success: bool, predictions: Option<seq<Prediction>>)

  /** A classifier match: the class and `Math.round(probability * 100)`. */
  datatype AiMatch = AiMatch(className: string, percent: int)

  const ForbiddenClasses: seq<string> := ["Porn", "Hentai", "Sexy"]

  /** `(100 - sensitivity) / 100`. */
  function Threshold(sensitivity: int): real {
    (100 - sensitivity) as real / 100.0
  }

  predicate Triggers(p: Prediction, threshold: real) {
    p.className in ForbiddenClasses && p.probability > threshold
  }

  /** `Math.round(x)`: the nearest integer, halves rounded up. */
  function Round(x: real): int {
    (x + 0.5).Floor
  }

  function FirstTriggerFrom(preds: seq<Prediction>, threshold: real, from: nat): (r: Option<nat>)
    requires from <= |preds|
    ensures r.Some? ==> from <= r.value < |preds| && Triggers(preds[r.value], threshold)
    ensures r.Some? ==> forall k :: from <= k < r.value ==> !Triggers(preds[k], threshold)
    ensures r.None? ==> forall k :: from <= k < |preds| ==> !Triggers(preds[k], threshold)
    decreases |preds| - from
  {
    if from == |preds| then None
    else if Triggers(preds[from], threshold) then Some(from)
    else FirstTriggerFrom(preds, threshold, from + 1)
  }

  /** The threshold rule applied to a classifier reply: nothing unless the
      reply is a success with predictions; otherwise the first prediction in
      reply order whose class is forbidden and whose probability is strictly
      above the threshold. */
  function Classify(reply: Reply, sensitivity: int): (r: Option<AiMatch>)
    ensures !(reply.Reply? && reply.success && reply.predictions.Some?) ==> r.None?
    ensures reply.Reply? && reply.success && reply.predictions.Some? ==>
      var ps := reply.predictions.value;
      && (r.None? <==> forall k :: 0 <= k < |ps| ==> !Triggers(ps[k], Threshold(sensitivity)))
      && (r.Some? ==> exists i ::
            (&& 0 <= i < |ps| && Triggers(ps[i], Threshold(sensitivity))
             && (forall k :: 0 <= k < i ==> !Triggers(ps[k], Threshold(sensitivity)))
             && r.value == AiMatch(ps[i].className, Round(ps[i].probability * 100.0))))
  {
    if reply.Reply? && reply.success && reply.predictions.Some? then
      var ps := reply.predictions.value;
      match FirstTriggerFrom(ps, Threshold(sensitivity), 0)
      case None => None
      case Some(i) => Some(AiMatch(ps[i].className, Round(ps[i].probability * 100.0)))
    else None
  }

  /** What `runAIInference` yields: nothing for an all-black frame (no
      message is sent), else the threshold rule on the reply. */
  function Inference(frame: seq<byte>, reply: Reply, sensitivity: int): Option<AiMatch> {
    if AllBlack(frame) then None else Classify(reply, sensitivity)
  }

  /** `runAIInference`: scans the frame and consults the classifier only
      when some sampled pixel is bright; `sent` tells whether the
      `analyzeFrame` message goes out. */
  method RunInference(frame: array<byte>, reply: Reply, sensitivity: int) returns (d: Option<AiMatch>, sent: bool)
    ensures sent <==> !AllBlack(frame[..])
    ensures !sent ==> d.None?
    ensures sent ==> d == Classify(reply, sensitivity)
  {
    var black := IsAllBlack(frame);
    if black {
      return None, false;
    }
    sent := true;
    d := Classify(reply, sensitivity);
  }

  /** The threshold at the middle and both ends of the sensitivity slider,
      and the two sides of the middle one. */
  lemma ThresholdPoints()
    ensures Threshold(50) == 0.5 && Threshold(100) == 0.0 && Threshold(0) == 1.0
    ensures Triggers(Prediction("Porn", 0.51), Threshold(50))
    ensures !Triggers(Prediction("Porn", 0.49), Threshold(50))
    ensures !Triggers(Prediction("Neutral", 0.99), Threshold(50))
  {
  }

  /** At sensitivity 100 any forbidden class with positive probability in a
      successful reply triggers. */
  lemma FullSensitivityTriggers(ps: seq<Prediction>, i: nat)
    requires i < |ps| && ps[i].className in ForbiddenClasses && ps[i].probability > 0.0
    ensures Classify(Reply(true, Some(ps)), 100).Some?
  {
    assert Triggers(ps[i], Threshold(100));
  }

  /** At sensitivity 0 no probability of at most 1 triggers. */
  lemma ZeroSensitivityNeverTriggers(reply: Reply)
    requires reply.Reply? && reply.predictions.Some? ==>
      forall k :: 0 <= k < |reply.predictions.value| ==> reply.predictions.value[k].probability <= 1.0
    ensures Classify(reply, 0).None?
  {
  }

  /** Raising the sensitivity never turns a detection into none. */
  lemma {:induction false} SensitivityMonotone(reply: Reply, low: int, high: int)
    requires low <= high
    requires Classify(reply, low).Some?
    ensures Classify(reply, high).Some?
  {
    var ps := reply.predictions.value;
    var i :| 0 <= i < |ps| && Triggers(ps[i], Threshold(low));
    assert Threshold(high) <= Threshold(low);
    assert Triggers(ps[i], Threshold(high));
  }

  /** An all-black frame yields no detection, whatever the classifier would
      have answered. */
  lemma BlackFrameYieldsNothing(frame: seq<byte>, reply: Reply, sensitivity: int)
    requires AllBlack(frame)
    ensures Inference(frame, reply, sensitivity).None?
  {
  }
}
