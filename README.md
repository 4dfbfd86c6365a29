# VibeSense core, modelled in Dafny

VibeSense watches a face through a camera, classifies the emotion shown at regular
detection ticks, and turns a *sustained* emotion into a vibration pattern on a haptic
device; a small Flask server exposes the same detector and accepts biometrics from a
phone. This project models the decision logic of that system and proves what it
guarantees:

- **Config** (`config.dfy`): the emotion-to-vibration table and the detector constants
  of `config.py`.
- **Counter** (`counter.dfy`): Python's `collections.Counter` the way the code uses it —
  increments in first-insertion order and `most_common(1)`, which returns the first entry
  of maximal count.
- **Detector** (`detector.dfy`): the sustained-emotion detector with cooldown that runs
  inside `main()` of `main.py` and inside `run_detection_loop` of `server/main.py`.
  Pure specification functions (`Evict`, `StrongTally`, `Decide`, `Step`, `After`) state
  what one tick and a run of ticks do; the class `DetectionLoop` holds the loop's mutable
  state (`analysis_history`, `mute_until`, `last_detection_time`) and its methods
  (`Tick`, `Observe`, `Record`, `EvictOld`, `Fire`), together with the module-level
  methods `Evaluate` and `CountStrong` that run the counting loop, are proved against
  those functions. The window invariant (time order, nothing older than the
  window length before the newest sample) is a class invariant; that the newest sample
  is last after each tick is an `ensures` of `Observe` and `Record`.
- **Api** (`api.dfy`): the read side of `server/main.py` — `_recent_emotions`, the
  dominant-by-count label of `_build_gemini_prompt`, Python's `str.strip()` and
  `str.split()[0]`, and the decision rules of the `/gemini` endpoint.
- **Server** (`server.dfy`): `receive_biometrics` of `server/server.py` (and its copy in
  `server/main.py`, which differs only in message texts and in not sending a confirmation
  message) with the `latest_biometrics` record as a class, and the prompt check of
  `call_gemini`. JSON bodies are a datatype covering every JSON value, so the handler's
  behaviour on lists, strings and numbers is modelled too.
- **Wrappers** (`wrappers.dfy`): `Option`, `Result`, and `ModelCall`, the outcome of a
  call to the Gemini model (its text, or the exception it raised).

The comments at config.py:40-42 speak of an emotion "sustained within a sliding window"
of 1.5 seconds, which suggests that a signal needs a window's worth of samples; the code
compares the strong count with the number of samples *currently* in the
window, so a single strong sample of a vibrating emotion in an empty detector is
100% of its window and fires at once (`Detector.LoneStrongSampleFires`).

Python semantics that matter and are modelled explicitly:

- `if e` is truthiness: `None` and the empty string are not labels.
- `isinstance(x, (int, float))` accepts booleans.
- `key in data` is a key test on a dict, an element test on a list, a substring test on
  a string, and raises `TypeError` on a number, boolean or null.
- `data.get` on anything but a dict raises `AttributeError`.
- `float()` of an integer beyond the double range raises `OverflowError`, and it does so
  *between* the two stores of `receive_biometrics`.

## Model

| member | source | states |
|---|---|---|
| Config.EmotionToVibration | config.py:8-16 | the table maps exactly the seven emotions; neutral maps to 0; every count is at most 6; two different emotions never share a non-zero count |
| Config.LookupInHardwareRange | config.py:8-16 | a lookup with default 0 (`.get(e, 0)`) of any emotion, mapped or not, is within the hardware's 0..6 and is positive only for an emotion other than neutral |
| Counter.Bump | main.py:180 | `counts[k] += 1` keeps the key order when k is already present and otherwise appends k with count 1 at the end |
| Counter.BumpCount | main.py:180 | incrementing k raises the count of k by one and leaves every other key's count unchanged |
| Counter.TallyCount | main.py:177-180 | the Counter built from a stream gives every key its number of occurrences in the stream |
| Counter.TallyKeys | main.py:177-180 | the Counter's keys are exactly the keys of the stream, each once |
| Counter.TallyCounts | main.py:177-180 | every entry of the Counter holds its key's number of occurrences, which is at least 1 |
| Counter.TallyOrder | main.py:177-180 | entries are ordered by the first occurrence of their keys in the stream |
| Counter.MostCommon | main.py:184 | the index chosen by `most_common(1)` has a maximal count, and every entry before it has a strictly smaller count |
| Counter.TopIsMostCommon | main.py:184 | `most_common(1)` is empty exactly for an empty Counter, and is otherwise the entry at the first maximal index |
| Counter.DominantUnique | main.py:184 | at most one key is dominant (maximal count, first seen among equals) |
| Counter.MostCommonIsDominant | server/main.py:156-160 | `Counter(keys).most_common(1)` is empty exactly when the stream is empty; otherwise it is the dominant key with its number of occurrences |
| Detector.DefaultConfig | config.py:21-45 | the shipped constants lie in the detector's valid ranges (window >= 0, 0 < ratio <= 1, 0 <= threshold <= 1, cooldown >= 0, interval > 0) and every lookup in the shipped table is at most 6 |
| Detector.Stale | main.py:162-164 | the popped prefix consists of readings older than the cutoff, and the first reading kept is not older |
| Detector.EvictSorted | main.py:162-164 | eviction keeps a window in time order |
| Detector.EvictRecent | main.py:162-164 | on a window in time order, every reading kept has `ts >= now - SUSTAIN_WINDOW_SECONDS` |
| Detector.EvictKeepsNewest | main.py:160-164 | the newest reading survives eviction and stays last |
| Detector.SortedAppend | main.py:160 | appending a reading no older than the newest keeps the window in time order |
| Detector.EvictWindowOk | main.py:162-164 | evicting against the newest reading's time minus the window length leaves a window in time order, reaching back at most the window length, with the newest reading last |
| Detector.WindowOkAfterStep | server/main.py:359-364 | one append-and-evict preserves the window invariant and leaves the new sample last |
| Detector.StrongKeysCount | main.py:177-180 | the Counter's count of a label is the number of samples with that label and `conf >= STRONG_CONFIDENCE_THRESHOLD` |
| Detector.StrongCountsDisjoint | main.py:178-180 | the strong counts of two different labels add up to at most the window's total, which also counts unlabelled and weak samples |
| Detector.FirstStrongOrder | main.py:177-184 | the Counter's insertion order is the order of the labels' first strong samples in the window |
| Detector.DominantInUnique | main.py:184 | at most one label is the dominant strong label of a window |
| Detector.DominantBridge | server/main.py:379-388 | the Counter's dominant key over the strong samples is the label with maximal strong count whose first strong sample is earliest among equals |
| Detector.StrongTallyIsTally | server/main.py:381-384 | counting sample by sample with the strong filter builds the Counter of the stream of strong labels |
| Detector.StrongMostCommon | main.py:182-184 | `most_common(1)` over the strong samples is empty exactly when no sample is strong; otherwise it is the dominant strong label with its strong count |
| Detector.DecideSpec | main.py:174-190 | a tick signals exactly when auto-signaling is on, the tick is not muted, and some label is dominant, holds at least SUSTAIN_RATIO of all window samples and maps to a positive count; the signal carries that label, its mapped count, confidence 1.0 and the tick's time |
| Detector.SustainExcludesRivals | main.py:185-186 | when a label fires, every other label's strong count is at most the remaining (1 - ratio) share of the window |
| Detector.NoStrongNoSignal | main.py:182 | a window without any strong sample never fires |
| Detector.LoneStrongSampleFires | main.py:174-191 | a single strong sample of a vibrating emotion fires at once, with the mapped count and confidence 1.0 |
| Detector.NeutralNeverFires | main.py:187-189 | with the shipped table, a signal is never neutral and always asks for 1 to 6 vibrations |
| Detector.StepWindow | main.py:159-164 | the window is maintained on every analysed tick, whether or not it is muted |
| Detector.AfterWindows | main.py:159-174 | over any run of ticks the window does not depend on signals or muting: it is what appending and evicting alone produce |
| Detector.WindowsSuffix | main.py:163-164 | appending and evicting from an empty window always leaves a suffix of the samples fed, in their order |
| Detector.AfterWindowSuffix | server/main.py:359-364 | eviction only removes from the front: after any run of ticks from an empty history, the window is an order-preserving suffix of all samples seen |
| Detector.StepWhileMuted | main.py:173-174 | a tick before `mute_until` sends nothing and leaves `mute_until` unchanged, while the window is still maintained |
| Detector.StepMutes | main.py:190-191 | a tick that signals sets `mute_until` to its time plus the cooldown |
| Detector.MutesOnSignal | main.py:190-191 | in a run of ticks, right after the tick that signals, `mute_until` is that tick's time plus the cooldown |
| Detector.StaysMuted | main.py:174 | in a run of ticks, a tick before `mute_until` leaves it where it is |
| Detector.MutedAfterSignal | main.py:174-191 | after a signal at time t0, `mute_until` stays at t0 + cooldown through every later tick before that time |
| Detector.CooldownExclusive | main.py:174-191 | once a signal fires at t0, no tick with time before t0 + SIGNAL_COOLDOWN_SECONDS fires again, whatever the window holds |
| Detector.CooldownExpires | main.py:174 | once the tick time has reached `mute_until`, an earlier signal has no influence: only the window decides |
| Detector.CountStrong | server/main.py:381-384 | the counting loop builds the Counter of the window's strong labels in first-insertion order |
| Detector.Evaluate | server/main.py:376-395 | the sustained-emotion test, run as the loop runs it (auto-signaling and mute check, count, `most_common(1)`, ratio, mapping), gives the decision of the specification |
| Detector.DetectionLoop.constructor | main.py:127-134 | `last_detection_time = 0`, an empty history and `mute_until = 0.0`, with the window invariant established |
| Detector.DetectionLoop.Observe | server/main.py:358-395 | one analysed tick: the new history, `mute_until` and signal are those of the specification's step; the window invariant is kept and the new sample is last |
| Detector.DetectionLoop.Record | main.py:159-164 | `append` then the `popleft` loop: the history becomes the evicted history plus the sample, in time order, with the sample last; `mute_until` is untouched |
| Detector.DetectionLoop.Fire | main.py:173-191 | the decision on the current window; on a signal `mute_until` becomes now + cooldown, otherwise it is untouched; the history is untouched |
| Detector.DetectionLoop.EvictOld | main.py:162-164 | the `popleft` loop removes exactly the longest prefix of readings older than the cutoff |
| Detector.DetectionLoop.Tick | main.py:148-191 | a pass analyses exactly when `now - last_detection_time >= DETECTION_INTERVAL`, then sets `last_detection_time = now` and performs the specification's step; otherwise nothing changes and nothing is sent |
| Api.RecentEmotions | server/main.py:147-151 | every sample returned has `ts >= now - window` and a label, and there are no more than in the history |
| Api.RecentIsSubseq | server/main.py:151 | the recent samples are a subsequence of the history, in history order |
| Api.RecentExact | server/main.py:151 | each recent, labelled history entry appears as often as in the history, and no other entry appears |
| Api.LabelsEmpty | server/main.py:157-159 | there are no labels to count exactly when no sample has a label |
| Api.DominantByCount | server/main.py:156-160 | the counting loop and `most_common(1)` yield the label with the largest raw count (confidence ignored), ties going to the label seen first, with a count of at least 1; nothing exactly when no sample has a label |
| Api.Proportion | server/main.py:206 | the fallback emotion's share of the samples lies in [0, 1] |
| Api.StripPiece | server/main.py:218 | `strip()` returns the piece of the text starting after its leading whitespace |
| Api.StripTail | server/main.py:218 | only whitespace follows the piece `strip()` keeps |
| Api.StripEnds | server/main.py:218 | the stripped text neither starts nor ends with whitespace |
| Api.StripSpec | server/main.py:218 | `strip()` removes whitespace from both ends and nothing else, and is empty exactly for an all-whitespace text |
| Api.StripIdempotent | server/main.py:218 | stripping twice is stripping once |
| Api.FirstToken | server/main.py:220 | `split()[0]` is the first maximal run of non-whitespace characters after the leading whitespace; it is absent exactly for an all-whitespace text |
| Api.StripKeepsFirstToken | server/main.py:218-220 | stripping before splitting does not change the first word |
| Api.Max | server/main.py:232 | `max(a, b)` is one of its arguments and at least both |
| Api.GeminiEndpoint | server/main.py:186-248 | 404 exactly when there are no recent samples; otherwise the word is the first token of the stripped model text, or the locally dominant label when that text is blank or the call raised (source `local_fallback`, error text kept when non-empty); a signal goes out exactly when ENABLE_SIGNAL_ON_API is on and the word maps to a positive count, with confidence `max(proportion of the dominant label, 0.01)` in [0.01, 1] |
| Server.Contains | server/server.py:51 | `key in data` is a key test on an object and an element test on a list, and fails (TypeError) exactly on values that are not containers |
| Server.Validate | server/server.py:42-90 | the checks in order: a body `get_json()` cannot decode (a request without a JSON body included) raises and is Crashed with the exception's message, answered 500; a JSON `null` body is NoJson; an object missing either key is MissingFields; success exactly for an object with both keys and numeric values, which come back; an object with both keys is NotNumeric exactly when a value is not numeric; an object is never answered with a crash |
| Server.BooleansAreNumbers | server/server.py:62 | booleans pass the numeric check |
| Server.ListBodyCrashes | server/server.py:51-59 | any list holding both key names passes the key check and then crashes in `data.get` (AttributeError, answered 500) |
| Server.StringBodyCrashes | server/server.py:51-59 | any string containing both key names passes the key check (substring test) and then crashes in `data.get` |
| Server.NumberBodyCrashes | server/server.py:51 | any number or boolean body crashes in the key check with the TypeError of `in` |
| Server.ContainerMissesFields | server/server.py:51-55 | a list or string body lacking either key name is refused as missing the fields (400) |
| Server.RejectionStatus | server/main.py:262-293 | a failed check is answered 400 and only a caught exception 500, in both copies of the handler |
| Server.BiometricsStore.constructor | server/server.py:23-27 | the record starts with no pulse, breathing or timestamp |
| Server.BiometricsStore.Receive | server/server.py:41-90 | a refused request leaves the record unchanged and answers the rejection's status and message; an accepted one stores both values as floats and the timestamp and echoes the submitted values with 200 (with the confirmation message from server/server.py only, none from the copy at server/main.py:262-293); a value too large for a float answers 500, after the pulse has already been stored when only the breathing value is too large |
| Server.CallGemini | server/server.py:106-130 | 400 exactly when `(get_json() or {}).get("prompt")` is falsy; 200 exactly when the prompt is present on an object body and the model call returns, carrying the model's text |
| Server.PromptCheckedFirst | server/server.py:107-115 | a missing prompt is answered 400 before any client exists, whatever the model call would have done |

## Left out

- Camera capture, DeepFace classification and CLAHE preprocessing: a tick receives the classifier's `(label or None, confidence)` as input to `Tick` (`float(confidence or 0.0)` is the caller's conversion).
- The clock: `time.time()` and `datetime.now().isoformat()` are parameters (`now`).
- The hardware: `send_vibration` is represented by the `Signal` value it would be handed; console, file and serial output and the `"V:n\n"` framing are not modelled.
- The Gemini network call and `_get_genai_client`: their outcome is the `ModelCall` parameter (the response's text, or the message of the exception raised, a missing API key included).
- The prompt text of `_build_gemini_prompt` and its biometrics summary: only the dominant label it returns is modelled.
- Flask routing, JSON encoding of replies, the `"status"` fields, and the text of the 404 message: replies are datatypes carrying the fields the rules decide.
- Threads and locks (`analysis_lock`, `biometrics_lock`, the detection thread): the model is single-threaded and each handler or tick is atomic.
- The Tk user interfaces, the on-screen banner (`last_signal_text`, `last_signal_shown_at`) and cv2 drawing.
- Floating point: timestamps, confidences, ratios and biometrics are exact reals; `round(confidence, 2)`, percentage formatting, NaN and infinities are not modelled (the `window` query argument is a real or text `float()` rejects).
- Server.AsFloat: stores the exact value, without the rounding of `float()` to the nearest double.
- Runtime mutation of the configuration by the UI sliders: the detector's parameters are fixed in `DetectorConfig`.
- ENABLE_AUTO_SIGNALING and ENABLE_SIGNAL_ON_API are not defined in `config.py`: they are the parameters `autoSignaling` and `signalOnApi`; `main.py` corresponds to `autoSignaling` being true.
- CONFIDENCE_THRESHOLD (`config.py:25`) is not read by the modelled code, and the remaining `config.py` settings (camera, serial port, output modes) belong to the left-out I/O.
- Detector.DetectionLoop.Observe: requires the new sample to be no older than the newest in the window; `Tick` discharges this through its `DETECTION_INTERVAL` gate (main.py:153-154), since analysed ticks then have strictly increasing times whatever the clock does (the `Clocked` invariant).
- Detector.DetectionLoop.constructor: requires valid parameters (`DetectorConfig.Valid`), which the shipped constants meet (`Detector.DefaultConfig`).
- Exception messages other than those of `in`, `.get` and `float()` on oversized integers (for example a malformed JSON body) are carried as inputs rather than computed.
- Server.BiometricsStore.Receive: the reply of the copy in server/main.py is distinguished only by its messages and the missing confirmation text; the `"data"` nesting of the reply is not modelled.
