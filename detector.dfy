/**
 * The sustained-emotion detector with cooldown: the decision taken at every detection
 * tick of main.py's main loop and of run_detection_loop in server/main.py.
 *
 * Each tick appends the classifier's reading to a sliding window, drops readings older
 * than the window length, and, unless signals are muted, fires a vibration signal when
 * one emotion is strongly and consistently detected over most of the window. Firing
 * mutes further signals for the cooldown period.
 */
module Detector {
  import opened Wrappers
  import Config
  import opened Counter

  /** One classifier reading taken at a detection tick: `(timestamp, emotion or None, confidence)`. */
  datatype Sample = Sample(ts: real, emotion: Option<string>, conf: real)

  /** Python truthiness of the emotion `e`: present, and not the empty string. */
  predicate HasEmotion(s: Sample) {
    s.emotion.Some? && s.emotion.value != ""
  }

  /** `e and conf >= STRONG_CONFIDENCE_THRESHOLD`: a sample the strong counter counts. */
  predicate IsStrong(s: Sample, threshold: real) {
    HasEmotion(s) && s.conf >= threshold
  }

  /** s is a strong sample of emotion e. */
  predicate StrongFor(s: Sample, e: string, threshold: real) {
    IsStrong(s, threshold) && s.emotion.value == e
  }

  /** What `hardware_bridge.send_vibration(vibrations, emotion, confidence)` is handed, and when. */
  datatype Signal = Signal(emotion: string, vibrations: nat, confidence: real, at: real)

  /**
   * The detector's parameters: SUSTAIN_WINDOW_SECONDS, SUSTAIN_RATIO,
   * STRONG_CONFIDENCE_THRESHOLD, SIGNAL_COOLDOWN_SECONDS, DETECTION_INTERVAL, the
   * emotion-to-vibration table, and ENABLE_AUTO_SIGNALING (which only server/main.py
   * reads; main.py behaves as if it were true).
   */
  datatype DetectorConfig = DetectorConfig(
    windowSeconds: real,
    sustainRatio: real,
    strongThreshold: real,
    cooldownSeconds: real,
    detectionInterval: real,
    mapping: map<string, nat>,
    autoSignaling: bool)
  {
    /** The ranges within which the detector's guarantees hold. */
    predicate Valid() {
      && windowSeconds >= 0.0
      && 0.0 < sustainRatio <= 1.0
      && 0.0 <= strongThreshold <= 1.0
      && cooldownSeconds >= 0.0
      && detectionInterval > 0.0
    }
  }

  /** The parameters config.py ships, with the auto-signaling switch of the caller. */
  function DefaultConfig(autoSignaling: bool): (c: DetectorConfig)
    ensures c.Valid()
    ensures c.autoSignaling == autoSignaling
    ensures forall e :: Config.Lookup(c.mapping, e) <= 6
  {
    forall e ensures Config.Lookup(Config.EmotionToVibration(), e) <= 6 {
      Config.LookupInHardwareRange(e);
    }
    DetectorConfig(
      Config.SustainWindowSeconds, Config.SustainRatio, Config.StrongConfidenceThreshold,
      Config.SignalCooldownSeconds, Config.DetectionInterval, Config.EmotionToVibration(),
      autoSignaling)
  }

  // ---------------------------------------------------------------------------
  // The sliding window

  /** Timestamps never decrease along w: each reading is no later than the next. */
  ghost predicate Sorted(w: seq<Sample>) {
    |w| < 2 || (w[0].ts <= w[1].ts && Sorted(w[1..]))
  }

  /** In a window in time order, an earlier reading is no later than a later one. */
  lemma {:induction false} SortedPairs(w: seq<Sample>, i: nat, j: nat)
    requires Sorted(w) && i <= j < |w|
    ensures w[i].ts <= w[j].ts
  {
    if i < j {
      assert w[1..][j - 1] == w[j];
      if i == 0 {
        SortedPairs(w[1..], 0, j - 1);
      } else {
        SortedPairs(w[1..], i - 1, j - 1);
        assert w[1..][i - 1] == w[i];
      }
    }
  }

  /** Any suffix of a window in time order is in time order. */
  lemma {:induction false} SortedSuffix(w: seq<Sample>, n: nat)
    requires Sorted(w) && n <= |w|
    ensures Sorted(w[n..])
  {
    if n > 0 && |w| >= 2 {
      SortedSuffix(w[1..], n - 1);
      assert w[1..][n - 1..] == w[n..];
    }
  }

  /** The length of the longest prefix of w whose readings are all older than cutoff. */
  function Stale(w: seq<Sample>, cutoff: real): (n: nat)
    ensures n <= |w|
    ensures forall i :: 0 <= i < n ==> w[i].ts < cutoff
    ensures n < |w| ==> w[n].ts >= cutoff
  {
    if w != [] && w[0].ts < cutoff then 1 + Stale(w[1..], cutoff) else 0
  }

  /**
   * `while history and history[0].ts < cutoff: history.popleft()`: the window without
   * the longest prefix of readings older than cutoff.
   */
  function Evict(w: seq<Sample>, cutoff: real): seq<Sample> {
    w[Stale(w, cutoff)..]
  }

  /** Eviction keeps a window in time order. */
  lemma EvictSorted(w: seq<Sample>, cutoff: real)
    requires Sorted(w)
    ensures Sorted(Evict(w, cutoff))
  {
    SortedSuffix(w, Stale(w, cutoff));
  }

  /** On a window in time order, every reading eviction keeps is from cutoff on. */
  lemma EvictRecent(w: seq<Sample>, cutoff: real)
    requires Sorted(w)
    ensures forall i :: 0 <= i < |Evict(w, cutoff)| ==> Evict(w, cutoff)[i].ts >= cutoff
  {
    var n := Stale(w, cutoff);
    forall i | 0 <= i < |w| - n
      ensures w[n..][i].ts >= cutoff
    {
      SortedPairs(w, n, n + i);
      assert w[n..][i] == w[n + i];
    }
  }

  /** The newest reading survives eviction when it is itself recent enough. */
  lemma EvictKeepsNewest(w: seq<Sample>, cutoff: real)
    requires w != [] && w[|w| - 1].ts >= cutoff
    ensures Evict(w, cutoff) != [] && Evict(w, cutoff)[|Evict(w, cutoff)| - 1] == w[|w| - 1]
  {
    var n := Stale(w, cutoff);
    assert n < |w|;
    assert w[n..][|w| - n - 1] == w[|w| - 1];
  }

  // ---------------------------------------------------------------------------
  // Strong counts

  /** The emotions of the strong samples of w, in window order: the keys fed to the Counter. */
  function StrongKeys(w: seq<Sample>, threshold: real): (ks: seq<string>)
    ensures |ks| <= |w|
  {
    if w == [] then []
    else
      var s := w[|w| - 1];
      StrongKeys(w[..|w| - 1], threshold) + (if IsStrong(s, threshold) then [s.emotion.value] else [])
  }

  /** The number of strong samples of emotion e in w. */
  function StrongCount(w: seq<Sample>, e: string, threshold: real): (n: nat)
    ensures n <= |w|
  {
    if w == [] then 0
    else StrongCount(w[..|w| - 1], e, threshold) + (if StrongFor(w[|w| - 1], e, threshold) then 1 else 0)
  }

  /** The index of the first strong sample of e in w, or |w| when there is none. */
  function FirstStrong(w: seq<Sample>, e: string, threshold: real): (i: nat)
    ensures i <= |w|
    ensures i < |w| ==> StrongFor(w[i], e, threshold)
    ensures forall j :: 0 <= j < i ==> !StrongFor(w[j], e, threshold)
  {
    if w == [] then 0
    else if StrongFor(w[0], e, threshold) then 0
    else 1 + FirstStrong(w[1..], e, threshold)
  }

  /** The Counter's count of e is the number of strong samples of e. */
  lemma {:induction false} StrongKeysCount(w: seq<Sample>, e: string, threshold: real)
    ensures multiset(StrongKeys(w, threshold))[e] == StrongCount(w, e, threshold)
  {
    if w != [] {
      StrongKeysCount(w[..|w| - 1], e, threshold);
    }
  }

  /** Two different emotions never have more strong samples together than the window has samples. */
  lemma {:induction false} StrongCountsDisjoint(w: seq<Sample>, a: string, b: string, threshold: real)
    requires a != b
    ensures StrongCount(w, a, threshold) + StrongCount(w, b, threshold) <= |w|
  {
    if w != [] {
      StrongCountsDisjoint(w[..|w| - 1], a, b, threshold);
    }
  }

  /** An emotion has a first strong sample exactly when it has strong samples. */
  lemma {:induction false} FirstStrongExists(w: seq<Sample>, e: string, threshold: real)
    ensures FirstStrong(w, e, threshold) < |w| <==> StrongCount(w, e, threshold) > 0
  {
    if w != [] {
      var p := w[..|w| - 1];
      FirstStrongExists(p, e, threshold);
      if FirstStrong(p, e, threshold) < |p| {
        assert w[FirstStrong(p, e, threshold)] == p[FirstStrong(p, e, threshold)];
      } else if StrongFor(w[|w| - 1], e, threshold) {
        assert FirstStrong(w, e, threshold) <= |p|;
      } else {
        assert forall j :: 0 <= j < |p| ==> w[j] == p[j];
      }
    }
  }

  /** Where the first strong sample of e lies once one more sample is appended. */
  lemma FirstStrongAppend(w: seq<Sample>, s: Sample, e: string, threshold: real)
    ensures FirstStrong(w + [s], e, threshold) ==
      if FirstStrong(w, e, threshold) < |w| then FirstStrong(w, e, threshold)
      else if StrongFor(s, e, threshold) then |w| else |w| + 1
  {
    var f, f' := FirstStrong(w, e, threshold), FirstStrong(w + [s], e, threshold);
    if f < |w| {
      assert (w + [s])[f] == w[f];
    } else if StrongFor(s, e, threshold) {
      assert (w + [s])[|w|] == s;
    }
    if f' < |w| {
      assert (w + [s])[f'] == w[f'];
    }
  }

  /**
   * The Counter's first-insertion order is the order of first strong samples: an
   * emotion inserted no later than another has its first strong sample no later.
   */
  lemma {:induction false} FirstStrongOrder(w: seq<Sample>, a: string, b: string, threshold: real)
    requires a in StrongKeys(w, threshold) && b in StrongKeys(w, threshold)
    requires First(StrongKeys(w, threshold), a) <= First(StrongKeys(w, threshold), b)
    ensures FirstStrong(w, a, threshold) <= FirstStrong(w, b, threshold)
  {
    var p, s := w[..|w| - 1], w[|w| - 1];
    assert w == p + [s];
    var ks0 := StrongKeys(p, threshold);
    var tail := if IsStrong(s, threshold) then [s.emotion.value] else [];
    assert StrongKeys(w, threshold) == ks0 + tail;
    StrongKeysCount(p, a, threshold);
    StrongKeysCount(p, b, threshold);
    FirstStrongExists(p, a, threshold);
    FirstStrongExists(p, b, threshold);
    FirstStrongAppend(p, s, a, threshold);
    FirstStrongAppend(p, s, b, threshold);
    if tail != [] {
      FirstAppend(ks0, s.emotion.value, a);
      FirstAppend(ks0, s.emotion.value, b);
    } else {
      assert StrongKeys(w, threshold) == ks0;
    }
    if a in ks0 && b in ks0 {
      FirstStrongOrder(p, a, b, threshold);
    }
  }

  /**
   * e is the dominant strong emotion of w: it has strong samples, no emotion has more,
   * and among those with as many its first strong sample comes first.
   */
  ghost predicate DominantIn(w: seq<Sample>, e: string, threshold: real) {
    && StrongCount(w, e, threshold) > 0
    && (forall x :: StrongCount(w, x, threshold) <= StrongCount(w, e, threshold))
    && (forall x :: StrongCount(w, x, threshold) == StrongCount(w, e, threshold) ==>
          FirstStrong(w, e, threshold) <= FirstStrong(w, x, threshold))
  }

  /** At most one emotion is dominant in a window. */
  lemma DominantInUnique(w: seq<Sample>, a: string, b: string, threshold: real)
    requires DominantIn(w, a, threshold) && DominantIn(w, b, threshold)
    ensures a == b
  {
    FirstStrongExists(w, a, threshold);
  }

  /** The Counter's dominant key over the strong samples is the dominant strong emotion. */
  lemma DominantBridge(w: seq<Sample>, e: string, threshold: real)
    requires IsDominant(StrongKeys(w, threshold), e)
    ensures DominantIn(w, e, threshold)
  {
    var ks := StrongKeys(w, threshold);
    forall x
      ensures StrongCount(w, x, threshold) == multiset(ks)[x]
    {
      StrongKeysCount(w, x, threshold);
    }
    forall x | StrongCount(w, x, threshold) == StrongCount(w, e, threshold)
      ensures FirstStrong(w, e, threshold) <= FirstStrong(w, x, threshold)
    {
      FirstStrongOrder(w, e, x, threshold);
    }
  }

  /**
   * The Counter the detection loop builds: `if e and conf >= threshold: counts[e] += 1`
   * for each sample of the window in turn.
   */
  function StrongTally(w: seq<Sample>, threshold: real): seq<Entry<string>> {
    if w == [] then []
    else
      var s := w[|w| - 1];
      var t := StrongTally(w[..|w| - 1], threshold);
      if IsStrong(s, threshold) then Bump(t, s.emotion.value) else t
  }

  /** Counting sample by sample is counting the stream of strong emotions. */
  lemma {:induction false} StrongTallyIsTally(w: seq<Sample>, threshold: real)
    ensures StrongTally(w, threshold) == Tally(StrongKeys(w, threshold))
  {
    if w != [] {
      var p, s := w[..|w| - 1], w[|w| - 1];
      StrongTallyIsTally(p, threshold);
      var ks := StrongKeys(p, threshold);
      if IsStrong(s, threshold) {
        assert StrongKeys(w, threshold) == ks + [s.emotion.value];
        assert (ks + [s.emotion.value])[..|ks|] == ks;
      } else {
        assert StrongKeys(w, threshold) == ks;
      }
    }
  }

  /** `counts.most_common(1)` over the strong samples: None, or the dominant strong emotion and its count. */
  lemma StrongMostCommon(w: seq<Sample>, threshold: real)
    ensures Top(StrongTally(w, threshold)).None? <==>
      forall i :: 0 <= i < |w| ==> !IsStrong(w[i], threshold)
    ensures Top(StrongTally(w, threshold)).Some? ==>
      var d := Top(StrongTally(w, threshold)).value;
      DominantIn(w, d.key, threshold) && d.count == StrongCount(w, d.key, threshold)
  {
    StrongTallyIsTally(w, threshold);
    var ks := StrongKeys(w, threshold);
    MostCommonIsDominant(ks);
    if ks != [] {
      var d := MostCommonEntry(ks).value;
      DominantBridge(w, d.key, threshold);
      StrongKeysCount(w, d.key, threshold);
      FirstStrongExists(w, d.key, threshold);
    } else {
      forall i | 0 <= i < |w|
        ensures !IsStrong(w[i], threshold)
      {
        if IsStrong(w[i], threshold) {
          var e := w[i].emotion.value;
          assert StrongFor(w[i], e, threshold);
          FirstStrongExists(w, e, threshold);
          StrongKeysCount(w, e, threshold);
        }
      }
    }
  }

  // ---------------------------------------------------------------------------
  // The decision

  /**
   * The sustained-emotion test of one tick, on the window after eviction: with
   * auto-signaling on, not muted and a non-empty window, the most common strong emotion
   * fires when its strong samples are at least SUSTAIN_RATIO of ALL samples of the window
   * (`strong_count / total >= SUSTAIN_RATIO`, stated without the division) and it maps
   * to a positive number of vibrations. The hardware is handed confidence 1.0.
   */
  function Decide(cfg: DetectorConfig, w: seq<Sample>, now: real, muteUntil: real): Option<Signal> {
    if !cfg.autoSignaling || now < muteUntil || w == [] then None
    else Judge(cfg, Top(StrongTally(w, cfg.strongThreshold)), |w|, now)
  }

  /**
   * The last tests of the decision, given `most_common(1)` of the strong labels and the
   * window size: the top emotion's share must reach the ratio and its mapping be non-zero.
   */
  function Judge(cfg: DetectorConfig, top: Option<Entry<string>>, total: nat, now: real): Option<Signal> {
    match top
    case None => None
    case Some(d) =>
      var vibrations := Config.Lookup(cfg.mapping, d.key);
      if d.count as real >= cfg.sustainRatio * (total as real) && vibrations > 0
      then Some(Signal(d.key, vibrations, 1.0, now))
      else None
  }

  /** The emotion e passes every test of the decision on window w. */
  ghost predicate Sustained(cfg: DetectorConfig, w: seq<Sample>, e: string) {
    && DominantIn(w, e, cfg.strongThreshold)
    && StrongCount(w, e, cfg.strongThreshold) as real >= cfg.sustainRatio * (|w| as real)
    && Config.Lookup(cfg.mapping, e) > 0
  }

  /**
   * A signal fires exactly when auto-signaling is on, the tick is not muted and some
   * emotion is dominant, sustained and mapped to a positive count; it then carries that
   * emotion, its mapped count, confidence 1.0 and the tick's time.
   */
  lemma DecideSpec(cfg: DetectorConfig, w: seq<Sample>, now: real, muteUntil: real)
    ensures Decide(cfg, w, now, muteUntil).Some? <==>
      cfg.autoSignaling && now >= muteUntil && exists e :: Sustained(cfg, w, e)
    ensures Decide(cfg, w, now, muteUntil).Some? ==>
      var sig := Decide(cfg, w, now, muteUntil).value;
      && Sustained(cfg, w, sig.emotion)
      && sig.vibrations == Config.Lookup(cfg.mapping, sig.emotion)
      && sig.confidence == 1.0 && sig.at == now
  {
    var T := cfg.strongThreshold;
    StrongMostCommon(w, T);
    var r := Decide(cfg, w, now, muteUntil);
    if r.Some? {
      assert Sustained(cfg, w, r.value.emotion);
    }
    if cfg.autoSignaling && now >= muteUntil && exists e :: Sustained(cfg, w, e) {
      var e :| Sustained(cfg, w, e);
      FirstStrongExists(w, e, T);
      var i := FirstStrong(w, e, T);
      assert IsStrong(w[i], T);
      var d := Top(StrongTally(w, T)).value;
      DominantInUnique(w, d.key, e, T);
    }
  }

  /** A firing emotion leaves every other emotion at most the rest of the window. */
  lemma SustainExcludesRivals(cfg: DetectorConfig, w: seq<Sample>, now: real, muteUntil: real, other: string)
    requires Decide(cfg, w, now, muteUntil).Some?
    requires other != Decide(cfg, w, now, muteUntil).value.emotion
    ensures StrongCount(w, other, cfg.strongThreshold) as real <= (|w| as real) - cfg.sustainRatio * (|w| as real)
  {
    DecideSpec(cfg, w, now, muteUntil);
    StrongCountsDisjoint(w, Decide(cfg, w, now, muteUntil).value.emotion, other, cfg.strongThreshold);
  }

  // ---------------------------------------------------------------------------
  // One tick, and a run of ticks

  /** The detector's state: the window and `mute_until`. */
  datatype State = State(window: seq<Sample>, muteUntil: real)

  /** The new state and the signal (if any) of one analysed tick. */
  datatype Outcome = Outcome(next: State, signal: Option<Signal>)

  /**
   * One analysed tick: append and evict (also while muted), decide, and on firing mute
   * until the tick's time plus the cooldown.
   */
  function Step(cfg: DetectorConfig, st: State, s: Sample): Outcome {
    var w := Evict(st.window + [s], s.ts - cfg.windowSeconds);
    var sig := Decide(cfg, w, s.ts, st.muteUntil);
    Outcome(State(w, if sig.Some? then s.ts + cfg.cooldownSeconds else st.muteUntil), sig)
  }

  /** The state after feeding the samples ss, one analysed tick each, from st. */
  function After(cfg: DetectorConfig, st: State, ss: seq<Sample>): State {
    if ss == [] then st else Step(cfg, After(cfg, st, ss[..|ss| - 1]), ss[|ss| - 1]).next
  }

  /** The signal the i-th sample of ss produces. */
  function SignalAt(cfg: DetectorConfig, st: State, ss: seq<Sample>, i: nat): Option<Signal>
    requires i < |ss|
  {
    Step(cfg, After(cfg, st, ss[..i]), ss[i]).signal
  }

  /** Timestamps never decrease along ss from index i to index j. */
  ghost predicate InTimeOrder(ss: seq<Sample>, i: nat, j: nat)
    requires i <= j < |ss|
  {
    forall a, b :: i <= a <= b <= j ==> ss[a].ts <= ss[b].ts
  }

  /** A tick's outcome from its parts: the evicted window and the decision on it. */
  lemma StepParts(cfg: DetectorConfig, st: State, s: Sample, w: seq<Sample>, sig: Option<Signal>)
    requires w == Evict(st.window + [s], s.ts - cfg.windowSeconds)
    requires sig == Decide(cfg, w, s.ts, st.muteUntil)
    ensures Step(cfg, st, s).signal == sig
    ensures Step(cfg, st, s).next.window == w
    ensures Step(cfg, st, s).next.muteUntil == if sig.Some? then s.ts + cfg.cooldownSeconds else st.muteUntil
  {
  }

  /** Every tick maintains the window, muted or not: append, then evict. */
  lemma StepWindow(cfg: DetectorConfig, st: State, s: Sample)
    ensures Step(cfg, st, s).next.window == Evict(st.window + [s], s.ts - cfg.windowSeconds)
  {
  }

  /** The window after feeding ss from w: append and evict each sample in turn. */
  function Windows(cfg: DetectorConfig, w: seq<Sample>, ss: seq<Sample>): seq<Sample> {
    if ss == [] then w
    else
      var s := ss[|ss| - 1];
      Evict(Windows(cfg, w, ss[..|ss| - 1]) + [s], s.ts - cfg.windowSeconds)
  }

  /**
   * The window never depends on the signals: muted or not, firing or not, a run of
   * ticks leaves the window that appending and evicting alone leave.
   */
  lemma {:induction false} AfterWindows(cfg: DetectorConfig, st: State, ss: seq<Sample>)
    ensures After(cfg, st, ss).window == Windows(cfg, st.window, ss)
  {
    if ss != [] {
      var p := ss[..|ss| - 1];
      AfterWindows(cfg, st, p);
      StepWindow(cfg, After(cfg, st, p), ss[|ss| - 1]);
    }
  }

  /** From an empty window, the window is a suffix of the samples fed, in their order. */
  lemma {:induction false} WindowsSuffix(cfg: DetectorConfig, ss: seq<Sample>)
    ensures var w := Windows(cfg, [], ss); |w| <= |ss| && w == ss[|ss| - |w|..]
  {
    if ss != [] {
      var p := ss[..|ss| - 1];
      WindowsSuffix(cfg, p);
      EvictSuffix(ss, Windows(cfg, [], p), ss[|ss| - 1].ts - cfg.windowSeconds);
    }
  }

  /**
   * Eviction only ever removes from the front: from an empty window, the window after
   * any run of ticks is a suffix of the samples fed, in their order.
   */
  lemma AfterWindowSuffix(cfg: DetectorConfig, muteUntil: real, ss: seq<Sample>)
    ensures var w := After(cfg, State([], muteUntil), ss).window;
      |w| <= |ss| && w == ss[|ss| - |w|..]
  {
    AfterWindows(cfg, State([], muteUntil), ss);
    WindowsSuffix(cfg, ss);
  }

  /** Appending the next sample to a suffix of the earlier ones and evicting leaves a suffix. */
  lemma EvictSuffix(ss: seq<Sample>, w: seq<Sample>, cutoff: real)
    requires ss != [] && |w| < |ss| && w == ss[..|ss| - 1][|ss| - 1 - |w|..]
    ensures var r := Evict(w + [ss[|ss| - 1]], cutoff);
      |r| <= |ss| && r == ss[|ss| - |r|..]
  {
    var a := |ss| - 1 - |w|;
    var n := Stale(w + [ss[|ss| - 1]], cutoff);
    assert w + [ss[|ss| - 1]] == ss[a..];
    assert ss[a..][n..] == ss[a + n..];
  }

  /** A muted tick fires nothing and leaves `mute_until` alone; the window is still maintained. */
  lemma StepWhileMuted(cfg: DetectorConfig, st: State, s: Sample)
    requires s.ts < st.muteUntil
    ensures Step(cfg, st, s).signal.None?
    ensures Step(cfg, st, s).next.muteUntil == st.muteUntil
    ensures Step(cfg, st, s).next.window == Evict(st.window + [s], s.ts - cfg.windowSeconds)
  {
  }

  /** After a signal at tick i, `mute_until` stays at its time plus the cooldown through tick j. */
  lemma {:induction false} MutedAfterSignal(cfg: DetectorConfig, st: State, ss: seq<Sample>, i: nat, j: nat)
    requires i < j < |ss| && InTimeOrder(ss, i, j)
    requires SignalAt(cfg, st, ss, i).Some?
    requires ss[j].ts < ss[i].ts + cfg.cooldownSeconds
    ensures After(cfg, st, ss[..j]).muteUntil == ss[i].ts + cfg.cooldownSeconds
  {
    var k := j - 1;
    if k > i {
      assert InTimeOrder(ss, i, k);
      MutedAfterSignal(cfg, st, ss, i, k);
      assert ss[k].ts <= ss[j].ts;
      StaysMuted(cfg, st, ss, k, ss[i].ts + cfg.cooldownSeconds);
    } else {
      MutesOnSignal(cfg, st, ss, k);
    }
  }

  /** The tick that fires sets `mute_until` to its time plus the cooldown. */
  lemma MutesOnSignal(cfg: DetectorConfig, st: State, ss: seq<Sample>, k: nat)
    requires k < |ss| && SignalAt(cfg, st, ss, k).Some?
    ensures After(cfg, st, ss[..k + 1]).muteUntil == ss[k].ts + cfg.cooldownSeconds
  {
    AfterOneMore(cfg, st, ss, k);
    StepMutes(cfg, After(cfg, st, ss[..k]), ss[k]);
  }

  /** A tick before `mute_until` leaves it where it is. */
  lemma StaysMuted(cfg: DetectorConfig, st: State, ss: seq<Sample>, k: nat, mute: real)
    requires k < |ss| && After(cfg, st, ss[..k]).muteUntil == mute && ss[k].ts < mute
    ensures After(cfg, st, ss[..k + 1]).muteUntil == mute
  {
    AfterOneMore(cfg, st, ss, k);
    StepWhileMuted(cfg, After(cfg, st, ss[..k]), ss[k]);
  }

  /** Feeding one more sample is one more step. */
  lemma AfterOneMore(cfg: DetectorConfig, st: State, ss: seq<Sample>, k: nat)
    requires k < |ss|
    ensures After(cfg, st, ss[..k + 1]).muteUntil == Step(cfg, After(cfg, st, ss[..k]), ss[k]).next.muteUntil
  {
    assert ss[..k + 1][..k] == ss[..k] && ss[..k + 1][k] == ss[k];
  }

  /** A tick that fires mutes until its time plus the cooldown. */
  lemma StepMutes(cfg: DetectorConfig, st: State, s: Sample)
    requires Step(cfg, st, s).signal.Some?
    ensures Step(cfg, st, s).next.muteUntil == s.ts + cfg.cooldownSeconds
  {
  }

  /**
   * Cooldown exclusivity: once a signal fires at the time t0, no tick before t0 plus the
   * cooldown fires again, whatever the window holds.
   */
  lemma CooldownExclusive(cfg: DetectorConfig, st: State, ss: seq<Sample>, i: nat, j: nat)
    requires i < j < |ss| && InTimeOrder(ss, i, j)
    requires SignalAt(cfg, st, ss, i).Some?
    requires ss[j].ts < ss[i].ts + cfg.cooldownSeconds
    ensures SignalAt(cfg, st, ss, j).None?
  {
    MutedAfterSignal(cfg, st, ss, i, j);
  }

  /** Once the cooldown is over, the earlier signal has no influence: only the window decides. */
  lemma CooldownExpires(cfg: DetectorConfig, w: seq<Sample>, now: real, mute1: real, mute2: real)
    requires now >= mute1 && now >= mute2
    ensures Decide(cfg, w, now, mute1) == Decide(cfg, w, now, mute2)
  {
  }

  /** A window without a single strong sample never fires (`if counts:` fails). */
  lemma NoStrongNoSignal(cfg: DetectorConfig, w: seq<Sample>, now: real, muteUntil: real)
    requires forall i :: 0 <= i < |w| ==> !IsStrong(w[i], cfg.strongThreshold)
    ensures Decide(cfg, w, now, muteUntil).None?
  {
    StrongMostCommon(w, cfg.strongThreshold);
  }

  /**
   * The window does not have to fill up first: a lone strong sample of a vibrating
   * emotion is the whole window, so its share is 1 and it fires at once.
   */
  lemma LoneStrongSampleFires(cfg: DetectorConfig, s: Sample, muteUntil: real)
    requires cfg.Valid() && cfg.autoSignaling && s.ts >= muteUntil
    requires IsStrong(s, cfg.strongThreshold) && Config.Lookup(cfg.mapping, s.emotion.value) > 0
    ensures Decide(cfg, [s], s.ts, muteUntil) ==
      Some(Signal(s.emotion.value, Config.Lookup(cfg.mapping, s.emotion.value), 1.0, s.ts))
  {
    var d := Entry(s.emotion.value, 1);
    LoneTally(s, cfg.strongThreshold);
    TopIsMostCommon([d]);
    assert Top(StrongTally([s], cfg.strongThreshold)) == Some(d);
  }

  /** The Counter of a lone strong sample holds its emotion once. */
  lemma LoneTally(s: Sample, threshold: real)
    requires IsStrong(s, threshold)
    ensures StrongTally([s], threshold) == [Entry(s.emotion.value, 1)]
  {
    assert [s][..0] == [];
    var t0: seq<Entry<string>> := [];
    assert Keys(t0) == [];
  }

  /** With the shipped table, a signal is never `neutral` and always asks for 1 to 6 vibrations. */
  lemma NeutralNeverFires(autoSignaling: bool, w: seq<Sample>, now: real, muteUntil: real)
    ensures var sig := Decide(DefaultConfig(autoSignaling), w, now, muteUntil);
      sig.Some? ==> sig.value.emotion != "neutral" && 1 <= sig.value.vibrations <= 6
  {
    var cfg := DefaultConfig(autoSignaling);
    DecideSpec(cfg, w, now, muteUntil);
    var sig := Decide(cfg, w, now, muteUntil);
    if sig.Some? {
      Config.LookupInHardwareRange(sig.value.emotion);
    }
  }

  /** The Counter loop: `for _, e, conf in history: if e and conf >= threshold: counts[e] += 1`. */
  method CountStrong(w: seq<Sample>, threshold: real) returns (counts: seq<Entry<string>>)
    ensures counts == StrongTally(w, threshold)
  {
    counts := [];
    for i := 0 to |w|
      invariant counts == StrongTally(w[..i], threshold)
    {
      var s := w[i];
      assert w[..i + 1][..i] == w[..i] && w[..i + 1][i] == s;
      if IsStrong(s, threshold) {
        counts := Bump(counts, s.emotion.value);
      }
    }
    assert w[..|w|] == w;
  }

  /**
   * The sustained-emotion test as the loop runs it on the freshly evicted window:
   * count, take the most common strong emotion, test the ratio and the mapping.
   */
  method Evaluate(cfg: DetectorConfig, w: seq<Sample>, now: real, muteUntil: real) returns (sig: Option<Signal>)
    ensures sig == Decide(cfg, w, now, muteUntil)
  {
    sig := None;
    if cfg.autoSignaling && now >= muteUntil && w != [] {
      var counts := CountStrong(w, cfg.strongThreshold);
      if counts != [] {
        TopIsMostCommon(counts);
        var d := counts[MostCommon(counts)];
        var vibrations := Config.Lookup(cfg.mapping, d.key);
        // `strong_count / total >= SUSTAIN_RATIO`, with total > 0
        if d.count as real >= cfg.sustainRatio * (|w| as real) {
          // only a non-zero mapping fires (neutral -> 0)
          if vibrations > 0 {
            sig := Some(Signal(d.key, vibrations, 1.0, now));
          }
        }
      }
    }
  }

  /**
   * The window is in time order and reaches back no further than the window length
   * before its newest sample.
   */
  ghost predicate WindowOk(cfg: DetectorConfig, w: seq<Sample>) {
    Sorted(w) && (w != [] ==> w[0].ts >= w[|w| - 1].ts - cfg.windowSeconds)
  }

  /** Appending a reading no older than the newest keeps a window in time order. */
  lemma {:induction false} SortedAppend(w: seq<Sample>, s: Sample)
    requires Sorted(w) && (w == [] || w[|w| - 1].ts <= s.ts)
    ensures Sorted(w + [s])
  {
    if |w| >= 2 {
      SortedAppend(w[1..], s);
      assert (w + [s])[1..] == w[1..] + [s];
    } else if |w| == 1 {
      assert (w + [s])[1..] == [s];
    }
  }

  /** Evicting against the newest reading's time minus the window length leaves a window in shape. */
  lemma EvictWindowOk(cfg: DetectorConfig, w: seq<Sample>)
    requires Sorted(w) && w != [] && cfg.windowSeconds >= 0.0
    ensures var r := Evict(w, w[|w| - 1].ts - cfg.windowSeconds);
      WindowOk(cfg, r) && r != [] && r[|r| - 1] == w[|w| - 1]
  {
    EvictSorted(w, w[|w| - 1].ts - cfg.windowSeconds);
    EvictKeepsNewest(w, w[|w| - 1].ts - cfg.windowSeconds);
  }

  /** Appending a sample no older than the newest one and evicting keeps the window in shape. */
  lemma WindowOkAfterStep(cfg: DetectorConfig, w: seq<Sample>, s: Sample)
    requires WindowOk(cfg, w)
    requires w == [] || w[|w| - 1].ts <= s.ts
    requires cfg.windowSeconds >= 0.0
    ensures var r := Evict(w + [s], s.ts - cfg.windowSeconds);
      WindowOk(cfg, r) && r != [] && r[|r| - 1] == s
  {
    SortedAppend(w, s);
    EvictWindowOk(cfg, w + [s]);
    assert (w + [s])[|w + [s]| - 1] == s;
  }

  // ---------------------------------------------------------------------------
  // The detection loop of main.py / run_detection_loop, as an object

  /** The loop's state: `analysis_history`, `mute_until` and `last_detection_time`. */
  class DetectionLoop {
    const cfg: DetectorConfig
    var window: seq<Sample>
    var muteUntil: real
    var lastDetection: real

    /**
     * The window is the most recent part of everything analysed, in time order, and
     * reaches back no further than the window length before the newest sample.
     */
    ghost predicate Valid()
      reads this
    {
      cfg.Valid() && WindowOk(cfg, window)
    }

    /** The newest analysed sample is no later than the last detection time. */
    ghost predicate Clocked()
      reads this
    {
      window == [] || window[|window| - 1].ts <= lastDetection
    }

    /** `last_detection_time = 0`, an empty deque, `mute_until = 0.0`. */
    constructor (cfg: DetectorConfig)
      requires cfg.Valid()
      ensures Valid() && Clocked()
      ensures this.cfg == cfg && window == [] && muteUntil == 0.0 && lastDetection == 0.0
    {
      this.cfg := cfg;
      window := [];
      muteUntil := 0.0;
      lastDetection := 0.0;
    }

    /** One analysed tick: record the sample, evict, and run the sustained-emotion test. */
    method Observe(sample: Sample) returns (sig: Option<Signal>)
      requires Valid()
      requires window == [] || window[|window| - 1].ts <= sample.ts
      modifies this
      ensures Valid()
      ensures var o := Step(cfg, State(old(window), old(muteUntil)), sample);
        window == o.next.window && muteUntil == o.next.muteUntil && sig == o.signal
      ensures lastDetection == old(lastDetection)
      ensures window != [] && window[|window| - 1] == sample
    {
      ghost var st := State(window, muteUntil);
      ghost var w := Evict(window + [sample], sample.ts - cfg.windowSeconds);
      StepParts(cfg, st, sample, w, Decide(cfg, w, sample.ts, muteUntil));
      Record(sample);
      sig := Fire(sample.ts);
    }

    /** `analysis_history.append(...)` followed by the eviction of stale readings. */
    method Record(sample: Sample)
      requires Valid()
      requires window == [] || window[|window| - 1].ts <= sample.ts
      modifies this
      ensures Valid()
      ensures window == Evict(old(window) + [sample], sample.ts - cfg.windowSeconds)
      ensures window != [] && window[|window| - 1] == sample
      ensures muteUntil == old(muteUntil) && lastDetection == old(lastDetection)
    {
      WindowOkAfterStep(cfg, window, sample);
      window := window + [sample];
      EvictOld(sample.ts - cfg.windowSeconds);
    }

    /** The sustained-emotion test on the current window; a signal mutes until the cooldown ends. */
    method Fire(now: real) returns (sig: Option<Signal>)
      requires Valid()
      modifies this
      ensures Valid()
      ensures sig == Decide(cfg, window, now, old(muteUntil))
      ensures muteUntil == if sig.Some? then now + cfg.cooldownSeconds else old(muteUntil)
      ensures window == old(window) && lastDetection == old(lastDetection)
    {
      sig := Evaluate(cfg, window, now, muteUntil);
      if sig.Some? {
        muteUntil := now + cfg.cooldownSeconds;
      }
    }

    /** `while history and history[0].ts < cutoff: history.popleft()` */
    method EvictOld(cutoff: real)
      modifies this
      ensures window == Evict(old(window), cutoff)
      ensures muteUntil == old(muteUntil) && lastDetection == old(lastDetection)
    {
      ghost var popped := 0;
      while window != [] && window[0].ts < cutoff
        invariant popped <= Stale(old(window), cutoff) && window == old(window)[popped..]
        invariant muteUntil == old(muteUntil) && lastDetection == old(lastDetection)
        decreases |window|
      {
        assert old(window)[popped] == window[0];
        window := window[1..];
        popped := popped + 1;
      }
    }

    /**
     * One pass of the main loop: analyse only when DETECTION_INTERVAL has elapsed since
     * the last analysis, and then record the classifier's reading taken now.
     */
    method Tick(now: real, emotion: Option<string>, conf: real) returns (analysed: bool, sig: Option<Signal>)
      requires Valid() && Clocked()
      modifies this
      ensures Valid() && Clocked()
      ensures analysed <==> now - old(lastDetection) >= cfg.detectionInterval
      ensures analysed ==>
        && lastDetection == now
        && var o := Step(cfg, State(old(window), old(muteUntil)), Sample(now, emotion, conf));
           window == o.next.window && muteUntil == o.next.muteUntil && sig == o.signal
      ensures !analysed ==>
        sig.None? && window == old(window) && muteUntil == old(muteUntil) && lastDetection == old(lastDetection)
    {
      analysed := now - lastDetection >= cfg.detectionInterval;
      sig := None;
      if analysed {
        lastDetection := now;
        sig := Observe(Sample(now, emotion, conf));
      }
    }
  }
}
