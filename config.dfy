/**
 * The constants of config.py that parameterise the sustained-emotion detector,
 * and the emotion-to-vibration table handed to the haptic hardware.
 */
module Config {

  /** EMOTION_TO_VIBRATION: the number of vibrations sent for each emotion. */
  function EmotionToVibration(): (m: map<string, nat>)
    ensures m.Keys == {"happy", "angry", "sad", "surprise", "fear", "disgust", "neutral"}
    // `neutral` is the "no strong emotion" emotion: it never vibrates.
    ensures m["neutral"] == 0
    // The hardware accepts 0..6 vibrations.
    ensures forall e :: e in m ==> m[e] <= 6
    // Every vibrating emotion has its own count, so the wearer can tell them apart.
    ensures forall e, f :: e in m && f in m && e != f && m[e] > 0 ==> m[e] != m[f]
  {
    map["happy" := 1, "angry" := 2, "sad" := 3, "surprise" := 4,
        "fear" := 5, "disgust" := 6, "neutral" := 0]
  }

  /** `mapping.get(emotion, 0)`: an unmapped emotion silently means "no vibration". */
  function Lookup(mapping: map<string, nat>, emotion: string): nat {
    if emotion in mapping then mapping[emotion] else 0
  }

  /** DETECTION_INTERVAL: seconds between two classifier runs. */
  const DetectionInterval: real := 0.5

  /** SUSTAIN_WINDOW_SECONDS: how far back the sliding window reaches. */
  const SustainWindowSeconds: real := 1.5

  /** SUSTAIN_RATIO: fraction of the window that must be strong and agree. */
  const SustainRatio: real := 0.8

  /** STRONG_CONFIDENCE_THRESHOLD: confidence from which a sample is "strong". */
  const StrongConfidenceThreshold: real := 0.8

  /** SIGNAL_COOLDOWN_SECONDS: how long signals stay muted after one fires. */
  const SignalCooldownSeconds: real := 5.0

  /** Every emotion of the table vibrates between 0 and 6 times, as a lookup of any emotion does. */
  lemma LookupInHardwareRange(emotion: string)
    ensures Lookup(EmotionToVibration(), emotion) <= 6
    ensures Lookup(EmotionToVibration(), emotion) > 0 ==> emotion != "neutral"
  {
    var m := EmotionToVibration();
    if emotion in m {
      assert m[emotion] <= 6;
    }
  }
}
