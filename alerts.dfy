/**
 * The alert dispatcher: the banner, haptic and speech effects of each
 * frame's hazard, with a cooldown per channel, plus the guard that decides
 * when a labeler result replaces the cached obstacle label.
 */
module Alerts {
  import opened Wrappers
  import opened DepthScan
  import opened Hazards
  import opened Speech

  /** Minimum time (ms) that must have passed, strictly, before the next haptic pulse. */
  const VibrationIntervalMs: int := 500
  /** Minimum time (ms) that must have passed, strictly, before the next utterance. */
  const TtsIntervalMs: int := 2500
  /** A labeler result replaces the cached label only above this confidence. */
  const LabelConfidenceFloor: real := 0.75

  /** Banner colours: #FFA500, yellow, cyan and red. */
  datatype Color = Orange | Yellow | Cyan | Red

  /** One result of the image labeler. */
  datatype LabelResult = LabelResult(text: string, confidence: real)

  /** What a frame does besides the banner: ask for a label, vibrate, speak. */
  datatype Effects = Effects(labelRequested: bool, vibrated: bool, spoken: Option<string>)

  const NoEffects := Effects(false, false, None)

  // ---------------------------------------------------------------------
  // Banner texts
  // ---------------------------------------------------------------------

  /** "STOP! (label)" when detection is on and a label is cached, else "STOP!". */
  function ObstacleText(detectionEnabled: bool, objectLabel: string): (r: string)
    ensures |r| >= 5 && r[..5] == "STOP!"
    ensures r == "STOP!" <==> !(detectionEnabled && |objectLabel| > 0)
    ensures detectionEnabled && |objectLabel| > 0 ==>
      && |r| == |objectLabel| + 8
      && r[5..7] == " (" && r[7..|r| - 1] == objectLabel && r[|r| - 1] == ')'
  {
    if detectionEnabled && |objectLabel| > 0 then "STOP! (" + objectLabel + ")" else "STOP!"
  }

  /** The banner text and colour for a hazard; none for Clear, which hides the banner. */
  function Warning(h: Hazard, detectionEnabled: bool, objectLabel: string): (w: Option<(string, Color)>)
    ensures w.None? <==> h == Clear
  {
    match h
    case Obstacle => Some((ObstacleText(detectionEnabled, objectLabel), Orange))
    case TiltTooHigh => Some(("Tilt Phone Down \U{2198}", Yellow))
    case Staircase => Some(("Descending Stairs Ahead \U{2B07}\U{FE0F}", Cyan))
    case DeepDropOff => Some(("Very Deep Surface Detected", Red))
    case TiltTooLow => Some(("Tilt Phone Up \U{2197}", Yellow))
    case Clear => None
  }

  /**
   * The spoken obstacle warning: "STOP" followed, when a label is shown, by
   * a space and the label's speakable characters.
   */
  lemma ObstacleSpeech(detectionEnabled: bool, objectLabel: string)
    ensures Sanitize(ObstacleText(detectionEnabled, objectLabel)) ==
      if detectionEnabled && |objectLabel| > 0 then "STOP " + Sanitize(objectLabel) else "STOP"
  {
    StopSpeech();
    if detectionEnabled && |objectLabel| > 0 {
      LabelledStopSpeech(objectLabel);
    }
  }

  /** "STOP!" is spoken as "STOP". */
  lemma StopSpeech()
    ensures Sanitize("STOP!") == "STOP"
  {
    assert AllSpeakable("STOP");
    SanitizeFixedPoint("STOP");
    assert "STOP!" == "STOP" + "!";
    SanitizeAppend("STOP", "!");
    SanitizeChar('!');
  }

  /** "STOP! (" is spoken as "STOP ". */
  lemma OpenStopSpeech()
    ensures Sanitize("STOP! (") == "STOP "
  {
    StopSpeech();
    assert "STOP! (" == "STOP!" + [' '] + ['('];
    SanitizeAppend("STOP!" + [' '], ['(']);
    SanitizeAppend("STOP!", [' ']);
    SanitizeChar(' ');
    SanitizeChar('(');
  }

  /** "STOP! (label)" is spoken as "STOP label", the label itself sanitised. */
  lemma LabelledStopSpeech(objectLabel: string)
    ensures Sanitize("STOP! (" + objectLabel + ")") == "STOP " + Sanitize(objectLabel)
  {
    var open, close := "STOP! (", ")";
    calc {
      Sanitize(open + objectLabel + close);
      { SanitizeAppend(open + objectLabel, close); }
      Sanitize(open + objectLabel) + Sanitize(close);
      { SanitizeAppend(open, objectLabel); SanitizeChar(')'); }
      Sanitize(open) + Sanitize(objectLabel) + "";
      { OpenStopSpeech(); }
      "STOP " + Sanitize(objectLabel);
    }
  }

  /** A speakable text followed by unspeakable symbols is spoken as that text. */
  lemma SpeakableThenSymbols(text: string, symbols: string)
    requires AllSpeakable(text)
    requires forall i :: 0 <= i < |symbols| ==> !Speakable(symbols[i])
    ensures Sanitize(text + symbols) == text
  {
    SanitizeFixedPoint(text);
    SanitizeAppend(text, symbols);
    SanitizeKeepsNone(symbols);
  }

  /** Text with no speakable character is spoken as nothing. */
  lemma {:induction false} SanitizeKeepsNone(symbols: string)
    requires forall i :: 0 <= i < |symbols| ==> !Speakable(symbols[i])
    ensures Sanitize(symbols) == ""
  {
    if |symbols| > 0 {
      SanitizeKeepsNone(Init(symbols));
    }
  }

  /** What the speech engine is asked to say for each hazard's banner. */
  function SpokenWarning(h: Hazard, detectionEnabled: bool, objectLabel: string): string {
    match h
    case Obstacle => if detectionEnabled && |objectLabel| > 0 then "STOP " + Sanitize(objectLabel) else "STOP"
    case TiltTooHigh => "Tilt Phone Down "
    case Staircase => "Descending Stairs Ahead "
    case DeepDropOff => "Very Deep Surface Detected"
    case TiltTooLow => "Tilt Phone Up "
    case Clear => ""
  }

  /** The arrow of the tilt-down banner is not spoken. */
  lemma TiltDownSpeech()
    ensures Sanitize("Tilt Phone Down \U{2198}") == "Tilt Phone Down "
  {
    assert AllSpeakable("Tilt Phone Down ");
    assert "Tilt Phone Down \U{2198}" == "Tilt Phone Down " + "\U{2198}";
    SpeakableThenSymbols("Tilt Phone Down ", "\U{2198}");
  }

  /** Neither the arrow nor its emoji selector of the stairs banner is spoken. */
  lemma StairsSpeech()
    ensures Sanitize("Descending Stairs Ahead \U{2B07}\U{FE0F}") == "Descending Stairs Ahead "
  {
    assert AllSpeakable("Descending Stairs Ahead ");
    assert "Descending Stairs Ahead \U{2B07}\U{FE0F}" == "Descending Stairs Ahead " + "\U{2B07}\U{FE0F}";
    SpeakableThenSymbols("Descending Stairs Ahead ", "\U{2B07}\U{FE0F}");
  }

  /** The drop-off banner is spoken as written. */
  lemma DeepSpeech()
    ensures Sanitize("Very Deep Surface Detected") == "Very Deep Surface Detected"
  {
    assert AllSpeakable("Very Deep Surface Detected");
    SanitizeFixedPoint("Very Deep Surface Detected");
  }

  /** The arrow of the tilt-up banner is not spoken. */
  lemma TiltUpSpeech()
    ensures Sanitize("Tilt Phone Up \U{2197}") == "Tilt Phone Up "
  {
    assert AllSpeakable("Tilt Phone Up ");
    assert "Tilt Phone Up \U{2197}" == "Tilt Phone Up " + "\U{2197}";
    SpeakableThenSymbols("Tilt Phone Up ", "\U{2197}");
  }

  /**
   * Each banner is spoken without its arrow or emoji and, for an obstacle,
   * without the punctuation around the label.
   */
  lemma BannerSpeech(h: Hazard, detectionEnabled: bool, objectLabel: string)
    requires h != Clear
    ensures Sanitize(Warning(h, detectionEnabled, objectLabel).value.0) == SpokenWarning(h, detectionEnabled, objectLabel)
  {
    match h {
      case Obstacle => ObstacleSpeech(detectionEnabled, objectLabel);
      case TiltTooHigh => TiltDownSpeech();
      case Staircase => StairsSpeech();
      case DeepDropOff => DeepSpeech();
      case TiltTooLow => TiltUpSpeech();
    }
  }

  // ---------------------------------------------------------------------
  // Label acceptance
  // ---------------------------------------------------------------------

  /** The cached label after one labeler result list arrives. */
  function AcceptLabel(current: string, labels: seq<LabelResult>): (r: string)
    ensures r == current || (|labels| > 0 && r == labels[0].text)
  {
    if |labels| > 0 && labels[0].confidence > LabelConfidenceFloor then labels[0].text else current
  }

  /** The first result of a list is confident enough to be accepted. */
  predicate Confident(labels: seq<LabelResult>) {
    |labels| > 0 && labels[0].confidence > LabelConfidenceFloor
  }

  /** The cached label after a run of labeler results, applied in order. */
  function LabelAfter(current: string, results: seq<seq<LabelResult>>): string {
    if |results| == 0 then current
    else AcceptLabel(LabelAfter(current, results[..|results| - 1]), results[|results| - 1])
  }

  /** The first label of the last confident result, if any. */
  function LastConfident(results: seq<seq<LabelResult>>): Option<string> {
    if |results| == 0 then None
    else if Confident(results[|results| - 1]) then Some(results[|results| - 1][0].text)
    else LastConfident(results[..|results| - 1])
  }

  /**
   * The cached label is the label of the most recent confident result;
   * results at or below the floor never change it.
   */
  lemma {:induction false} LabelIsLastConfident(current: string, results: seq<seq<LabelResult>>)
    ensures LabelAfter(current, results) == LastConfident(results).GetOr(current)
  {
    if |results| > 0 {
      LabelIsLastConfident(current, results[..|results| - 1]);
    }
  }

  // ---------------------------------------------------------------------
  // Cooldowns
  // ---------------------------------------------------------------------

  /** A channel fires when enabled and strictly more than `interval` has passed. */
  predicate ChannelFires(enabled: bool, last: int, now: int, interval: int) {
    enabled && now - last > interval
  }

  /** The time between firing `i - 1` and firing `i` of a log. */
  function Gap(log: seq<int>, i: int): int
    requires 0 < i < |log|
  {
    log[i] - log[i - 1]
  }

  /** Consecutive firing times are more than `interval` apart. */
  predicate Spaced(log: seq<int>, interval: int) {
    forall i :: 0 < i < |log| ==> Gap(log, i) > interval
  }

  /** A firing appended after a spaced log keeps it spaced. */
  lemma SpacedSnoc(log: seq<int>, interval: int, t: int)
    requires Spaced(log, interval)
    requires |log| > 0 ==> t - log[|log| - 1] > interval
    ensures Spaced(log + [t], interval)
  {
    var l := log + [t];
    forall i | 0 < i < |l|
      ensures Gap(l, i) > interval
    {
      if i < |log| {
        assert Gap(l, i) == Gap(log, i);
      }
    }
  }

  /** A firing prepended before a spaced log keeps it spaced. */
  lemma SpacedCons(t: int, log: seq<int>, interval: int)
    requires Spaced(log, interval)
    requires |log| > 0 ==> log[0] - t > interval
    ensures Spaced([t] + log, interval)
  {
    var l := [t] + log;
    forall i | 1 < i < |l|
      ensures Gap(l, i) > interval
    {
      assert Gap(l, i) == Gap(log, i - 1);
    }
  }

  /** In a spaced log, any two firings are more than `interval` apart. */
  lemma {:induction false} SpacedPairwise(log: seq<int>, interval: int, i: int, j: int)
    requires interval >= 0 && Spaced(log, interval) && 0 <= i < j < |log|
    ensures log[j] - log[i] > interval
    decreases j - i
  {
    assert Gap(log, j) > interval;
    if j > i + 1 {
      SpacedPairwise(log, interval, i, j - 1);
    }
  }

  /**
   * The times at which a channel fires over a run of non-Clear frames at
   * the given times, starting from the last firing time `last`. This replays
   * `TriggerObstacleWarning`'s per-call contract frame by frame: a frame
   * fires exactly when `ChannelFires` holds, and only a firing frame moves
   * the last firing time to its own time.
   */
  function Firings(enabled: bool, last: int, times: seq<int>, interval: int): (r: seq<int>)
    decreases |times|
    ensures |r| <= |times|
    ensures forall k :: 0 <= k < |r| ==> r[k] in times
    ensures !enabled ==> r == []
  {
    if |times| == 0 then []
    else if ChannelFires(enabled, last, times[0], interval) then [times[0]] + Firings(enabled, times[0], times[1..], interval)
    else Firings(enabled, last, times[1..], interval)
  }

  /**
   * Whatever the frame times, the firings are spaced by more than the
   * interval, and each comes more than the interval after `last`.
   */
  lemma {:induction false} FiringsSpaced(enabled: bool, last: int, times: seq<int>, interval: int)
    requires interval >= 0
    decreases |times|
    ensures Spaced(Firings(enabled, last, times, interval), interval)
    ensures forall k :: 0 <= k < |Firings(enabled, last, times, interval)| ==>
      Firings(enabled, last, times, interval)[k] - last > interval
  {
    if |times| > 0 {
      if ChannelFires(enabled, last, times[0], interval) {
        FiringsSpaced(enabled, times[0], times[1..], interval);
        SpacedCons(times[0], Firings(enabled, times[0], times[1..], interval), interval);
      } else {
        FiringsSpaced(enabled, last, times[1..], interval);
      }
    }
  }

  lemma {:induction false} NoFiringWithin(enabled: bool, last: int, times: seq<int>, interval: int)
    requires forall k :: 0 <= k < |times| ==> times[k] - last <= interval
    decreases |times|
    ensures Firings(enabled, last, times, interval) == []
  {
    if |times| > 0 {
      NoFiringWithin(enabled, last, times[1..], interval);
    }
  }

  /**
   * A burst of non-Clear frames that all fall within one interval of the
   * first, which is itself past the cooldown, fires exactly once.
   */
  lemma BurstFiresOnce(last: int, times: seq<int>, interval: int)
    requires |times| > 0 && times[0] - last > interval
    requires forall k :: 0 <= k < |times| ==> times[k] - times[0] <= interval
    ensures Firings(true, last, times, interval) == [times[0]]
  {
    NoFiringWithin(true, times[0], times[1..], interval);
  }

  // ---------------------------------------------------------------------
  // The dispatcher
  // ---------------------------------------------------------------------

  class AlertDispatcher {
    var isObjDetectionEnabled: bool
    var isVibrationEnabled: bool
    var isTtsEnabled: bool
    var currentObjectLabel: string
    var lastVibrationTime: int
    var lastTtsTime: int
    var bannerVisible: bool
    var bannerText: string
    /** None until a warning sets a colour (the layout's own colour). */
    var bannerColor: Option<Color>
    /** The times of every haptic pulse and every utterance so far. */
    ghost var hapticLog: seq<int>
    ghost var speechLog: seq<int>

    /**
     * Each log is spaced by its channel's interval and ends with the
     * channel's last firing time.
     */
    ghost predicate Valid()
      reads this
    {
      && Spaced(hapticLog, VibrationIntervalMs)
      && (|hapticLog| > 0 ==> hapticLog[|hapticLog| - 1] == lastVibrationTime)
      && Spaced(speechLog, TtsIntervalMs)
      && (|speechLog| > 0 ==> speechLog[|speechLog| - 1] == lastTtsTime)
    }

    constructor (objDetection: bool, vibration: bool, speech: bool)
      ensures Valid()
      ensures isObjDetectionEnabled == objDetection && isVibrationEnabled == vibration && isTtsEnabled == speech
      ensures currentObjectLabel == "" && lastVibrationTime == 0 && lastTtsTime == 0
      ensures !bannerVisible && bannerText == "" && bannerColor == None
      ensures hapticLog == [] && speechLog == []
    {
      isObjDetectionEnabled, isVibrationEnabled, isTtsEnabled := objDetection, vibration, speech;
      currentObjectLabel := "";
      lastVibrationTime, lastTtsTime := 0, 0;
      bannerVisible, bannerText, bannerColor := false, "", None;
      hapticLog, speechLog := [], [];
    }

    /**
     * Show the warning, then vibrate and speak (the text sanitised), each
     * only when its channel is enabled and its cooldown has passed; only a
     * channel that fires records the time.
     */
    method TriggerObstacleWarning(text: string, color: Color, now: int) returns (vibrated: bool, spoken: Option<string>)
      requires Valid()
      modifies this`bannerVisible, this`bannerText, this`bannerColor
      modifies this`lastVibrationTime, this`lastTtsTime, this`hapticLog, this`speechLog
      ensures Valid()
      ensures bannerVisible && bannerText == text && bannerColor == Some(color)
      ensures vibrated == ChannelFires(isVibrationEnabled, old(lastVibrationTime), now, VibrationIntervalMs)
      ensures lastVibrationTime == if vibrated then now else old(lastVibrationTime)
      ensures hapticLog == if vibrated then old(hapticLog) + [now] else old(hapticLog)
      ensures spoken == if ChannelFires(isTtsEnabled, old(lastTtsTime), now, TtsIntervalMs)
                        then Some(Sanitize(text)) else None
      ensures lastTtsTime == if spoken.Some? then now else old(lastTtsTime)
      ensures speechLog == if spoken.Some? then old(speechLog) + [now] else old(speechLog)
    {
      bannerVisible, bannerText, bannerColor := true, text, Some(color);
      vibrated, spoken := false, None;
      if isVibrationEnabled && now - lastVibrationTime > VibrationIntervalMs {
        vibrated := true;
        lastVibrationTime := now;
        SpacedSnoc(hapticLog, VibrationIntervalMs, now);
        hapticLog := hapticLog + [now];
      }
      if isTtsEnabled && now - lastTtsTime > TtsIntervalMs {
        var speakText := Sanitize(text);
        spoken := Some(speakText);
        lastTtsTime := now;
        SpacedSnoc(speechLog, TtsIntervalMs, now);
        speechLog := speechLog + [now];
      }
    }

    /** Hide the banner; no timestamp changes. */
    method ClearWarning()
      modifies this`bannerVisible
      ensures !bannerVisible
    {
      bannerVisible := false;
    }

    /**
     * The warning cascade's effects for one hazard: an obstacle requests a
     * label and warns with the cached label; Clear only hides the banner.
     */
    method Dispatch(h: Hazard, now: int) returns (e: Effects)
      requires Valid()
      modifies this`bannerVisible, this`bannerText, this`bannerColor
      modifies this`lastVibrationTime, this`lastTtsTime, this`hapticLog, this`speechLog
      ensures Valid()
      ensures e.labelRequested <==> h == Obstacle
      ensures h == Clear ==> !bannerVisible && e == NoEffects
      ensures h == Clear ==> bannerText == old(bannerText) && bannerColor == old(bannerColor)
      ensures h != Clear ==> bannerVisible
      ensures h != Clear ==> bannerText == Warning(h, isObjDetectionEnabled, currentObjectLabel).value.0
      ensures h != Clear ==> bannerColor == Some(Warning(h, isObjDetectionEnabled, currentObjectLabel).value.1)
      ensures e.vibrated <==>
        h != Clear && ChannelFires(isVibrationEnabled, old(lastVibrationTime), now, VibrationIntervalMs)
      ensures e.spoken.Some? <==>
        h != Clear && ChannelFires(isTtsEnabled, old(lastTtsTime), now, TtsIntervalMs)
      ensures e.spoken.Some? ==> e.spoken.value == Sanitize(bannerText)
      ensures lastVibrationTime == if e.vibrated then now else old(lastVibrationTime)
      ensures hapticLog == if e.vibrated then old(hapticLog) + [now] else old(hapticLog)
      ensures lastTtsTime == if e.spoken.Some? then now else old(lastTtsTime)
      ensures speechLog == old(speechLog) + (if e.spoken.Some? then [now] else [])
    {
      var w := Warning(h, isObjDetectionEnabled, currentObjectLabel);
      match w {
        case None =>
          ClearWarning();
          e := NoEffects;
        case Some((text, color)) =>
          var vibrated, spoken := TriggerObstacleWarning(text, color, now);
          e := Effects(h == Obstacle, vibrated, spoken);
      }
    }

    /** A labeler result arrives: keep its first label only if confident. */
    method OnLabels(labels: seq<LabelResult>)
      modifies this`currentObjectLabel
      ensures currentObjectLabel == AcceptLabel(old(currentObjectLabel), labels)
    {
      if |labels| > 0 && labels[0].confidence > LabelConfidenceFloor {
        currentObjectLabel := labels[0].text;
      }
    }

    /**
     * One depth frame: derive the tilt, scan the region, classify, and
     * dispatch. A frame without a depth image, or with a read outside the
     * buffer, is abandoned and changes nothing.
     */
    method ProcessDepth(depth: Option<Plane>, roi: Roi, forwardY: real, now: int)
      returns (outcome: Option<Hazard>, e: Effects)
      requires Valid() && roi.Valid()
      modifies this`bannerVisible, this`bannerText, this`bannerColor
      modifies this`lastVibrationTime, this`lastTtsTime, this`hapticLog, this`speechLog
      ensures Valid()
      ensures outcome == match depth
                         case None => None
                         case Some(plane) =>
                           match ScanSpec(plane, roi, Step)
                           case None => None
                           case Some(st) => Some(Classify(st, TotalPixels(roi, Step), TiltOf(forwardY)))
      ensures outcome.None? ==> e == NoEffects && unchanged(this)
      ensures outcome == Some(Clear) ==> !bannerVisible && e == NoEffects
      ensures outcome == Some(Clear) ==> bannerText == old(bannerText) && bannerColor == old(bannerColor)
      ensures outcome.Some? && outcome.value != Clear ==>
        && bannerVisible
        && bannerText == Warning(outcome.value, isObjDetectionEnabled, currentObjectLabel).value.0
        && bannerColor == Some(Warning(outcome.value, isObjDetectionEnabled, currentObjectLabel).value.1)
      ensures e.labelRequested <==> outcome == Some(Obstacle)
      ensures e.vibrated <==>
        outcome.Some? && outcome.value != Clear && ChannelFires(isVibrationEnabled, old(lastVibrationTime), now, VibrationIntervalMs)
      ensures e.spoken.Some? <==>
        outcome.Some? && outcome.value != Clear && ChannelFires(isTtsEnabled, old(lastTtsTime), now, TtsIntervalMs)
      ensures e.spoken.Some? ==> e.spoken.value == Sanitize(bannerText)
      ensures lastVibrationTime == if e.vibrated then now else old(lastVibrationTime)
      ensures hapticLog == if e.vibrated then old(hapticLog) + [now] else old(hapticLog)
      ensures lastTtsTime == if e.spoken.Some? then now else old(lastTtsTime)
      ensures speechLog == if e.spoken.Some? then old(speechLog) + [now] else old(speechLog)
    {
      var tilt := TiltOf(forwardY);
      if depth.None? {
        return None, NoEffects;
      }
      var stats := ScanDepth(depth.value, roi, Step);
      if stats.None? {
        return None, NoEffects;
      }
      var total := TotalPixels(roi, Step);
      var h := Classify(stats.value, total, tilt);
      outcome := Some(h);
      e := Dispatch(h, now);
    }
  }

  /**
   * Any two haptic pulses of a dispatcher, however many Clear frames came
   * between them, are more than 500 ms apart; likewise utterances and 2500 ms.
   */
  lemma CooldownRespected(d: AlertDispatcher, i: int, j: int)
    requires d.Valid()
    ensures 0 <= i < j < |d.hapticLog| ==> d.hapticLog[j] - d.hapticLog[i] > VibrationIntervalMs
    ensures 0 <= i < j < |d.speechLog| ==> d.speechLog[j] - d.speechLog[i] > TtsIntervalMs
  {
    if 0 <= i < j < |d.hapticLog| {
      SpacedPairwise(d.hapticLog, VibrationIntervalMs, i, j);
    }
    if 0 <= i < j < |d.speechLog| {
      SpacedPairwise(d.speechLog, TtsIntervalMs, i, j);
    }
  }
}
