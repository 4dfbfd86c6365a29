/**
 * The read side of server/main.py: `_recent_emotions`, the dominant-by-count choice of
 * `_build_gemini_prompt`, and the decision rules of the `/gemini` endpoint, which asks
 * the model for one emotion word, falls back to the locally dominant emotion, and may
 * hand a vibration signal to the hardware.
 */
module Api {
  import opened Wrappers
  import Config
  import opened Counter
  import opened Detector

  // ---------------------------------------------------------------------------
  // Recent samples

  /** `ts >= cutoff and emo`: a history entry `_recent_emotions` keeps. */
  predicate Keep(s: Sample, cutoff: real) {
    s.ts >= cutoff && HasEmotion(s)
  }

  /** `_recent_emotions(window_seconds)` read at time now: a filter over the history. */
  function RecentEmotions(history: seq<Sample>, now: real, windowSeconds: real): (r: seq<Sample>)
    ensures |r| <= |history|
    ensures forall i :: 0 <= i < |r| ==> Keep(r[i], now - windowSeconds)
  {
    if history == [] then []
    else
      var s := history[|history| - 1];
      RecentEmotions(history[..|history| - 1], now, windowSeconds)
        + (if Keep(s, now - windowSeconds) then [s] else [])
  }

  /** a can be obtained from b by deleting entries: a subsequence, order kept. */
  ghost predicate IsSubseq<T>(a: seq<T>, b: seq<T>)
    decreases |b|
  {
    a == [] ||
    (b != [] &&
      ((a[|a| - 1] == b[|b| - 1] && IsSubseq(a[..|a| - 1], b[..|b| - 1])) || IsSubseq(a, b[..|b| - 1])))
  }

  /** The recent samples are a subsequence of the history, in history order. */
  lemma {:induction false} RecentIsSubseq(history: seq<Sample>, now: real, windowSeconds: real)
    ensures IsSubseq(RecentEmotions(history, now, windowSeconds), history)
  {
    if history != [] {
      var p, s := history[..|history| - 1], history[|history| - 1];
      var r0 := RecentEmotions(p, now, windowSeconds);
      RecentIsSubseq(p, now, windowSeconds);
      if Keep(s, now - windowSeconds) {
        var r := r0 + [s];
        assert r[..|r| - 1] == r0 && r[|r| - 1] == s;
        assert IsSubseq(r[..|r| - 1], history[..|history| - 1]);
      } else {
        assert RecentEmotions(history, now, windowSeconds) == r0;
      }
    }
  }

  /**
   * The recent samples are exactly the history entries that are recent and have a label:
   * each of those as often as in the history, nothing else.
   */
  lemma {:induction false} RecentExact(history: seq<Sample>, now: real, windowSeconds: real, x: Sample)
    ensures multiset(RecentEmotions(history, now, windowSeconds))[x] ==
      if Keep(x, now - windowSeconds) then multiset(history)[x] else 0
  {
    if history != [] {
      var p, s := history[..|history| - 1], history[|history| - 1];
      assert history == p + [s];
      RecentExact(p, now, windowSeconds, x);
    }
  }

  // ---------------------------------------------------------------------------
  // The dominant emotion by plain count

  /** The labels of the labelled samples, in order: the keys `if emo: counts[emo] += 1` counts. */
  function Labels(samples: seq<Sample>): (ks: seq<string>)
    ensures |ks| <= |samples|
  {
    if samples == [] then []
    else
      var s := samples[|samples| - 1];
      Labels(samples[..|samples| - 1]) + (if HasEmotion(s) then [s.emotion.value] else [])
  }

  /** There are labels exactly when some sample has one. */
  lemma {:induction false} LabelsEmpty(samples: seq<Sample>)
    ensures Labels(samples) == [] <==> forall i :: 0 <= i < |samples| ==> !HasEmotion(samples[i])
  {
    if samples != [] {
      var p := samples[..|samples| - 1];
      LabelsEmpty(p);
      assert forall i :: 0 <= i < |p| ==> samples[i] == p[i];
    }
  }

  /**
   * The counting loop of `_build_gemini_prompt` and `counts.most_common(1)`: the label
   * with the most samples, confidence ignored, ties going to the label seen first, with
   * its count. None where the Counter is empty and `most_common(1)[0]` raises.
   */
  method DominantByCount(samples: seq<Sample>) returns (top: Option<Entry<string>>)
    ensures top.None? <==> forall i :: 0 <= i < |samples| ==> !HasEmotion(samples[i])
    ensures top.Some? ==>
      && IsDominant(Labels(samples), top.value.key)
      && top.value.count == multiset(Labels(samples))[top.value.key]
      && top.value.count >= 1
  {
    var counts: seq<Entry<string>> := [];
    for i := 0 to |samples|
      invariant counts == Tally(Labels(samples[..i]))
    {
      var s := samples[i];
      ghost var ks := Labels(samples[..i]);
      assert samples[..i + 1][..i] == samples[..i] && samples[..i + 1][i] == s;
      if HasEmotion(s) {
        assert Labels(samples[..i + 1]) == ks + [s.emotion.value];
        assert (ks + [s.emotion.value])[..|ks|] == ks;
        counts := Bump(counts, s.emotion.value);
      } else {
        assert Labels(samples[..i + 1]) == ks;
      }
    }
    assert samples[..|samples|] == samples;
    top := Top(counts);
    MostCommonIsDominant(Labels(samples));
    LabelsEmpty(samples);
  }

  /** `counts.get(e, 0) / float(len(samples) or 1)`: the share of the samples labelled e. */
  function Proportion(samples: seq<Sample>, e: string): (p: real)
    ensures 0.0 <= p <= 1.0
  {
    var c := multiset(Labels(samples))[e];
    var n := if |samples| == 0 then 1 else |samples|;
    assert c <= |samples| by {
      CountBound(Labels(samples), e);
    }
    ShareBounds(c, n);
    c as real / n as real
  }

  /** A part of a positive whole is a share between 0 and 1. */
  lemma ShareBounds(c: nat, n: nat)
    requires 0 < n && c <= n
    ensures 0.0 <= c as real / n as real <= 1.0
  {
    var q := c as real / n as real;
    assert q * n as real == c as real;
  }

  /** No key occurs more often than the sequence is long. */
  lemma {:induction false} CountBound(ks: seq<string>, e: string)
    ensures multiset(ks)[e] <= |ks|
  {
    if ks != [] {
      assert ks == ks[..|ks| - 1] + [ks[|ks| - 1]];
      CountBound(ks[..|ks| - 1], e);
    }
  }

  // ---------------------------------------------------------------------------
  // Python whitespace, `str.strip()` and `str.split()[0]`

  /** `c.isspace()`: the separators `str.split()` and `str.strip()` use by default. */
  predicate IsSpace(c: char) {
    || c == ' ' || '\t' <= c <= '\r' || '\U{1C}' <= c <= '\U{1F}'
    || c == '\U{85}' || c == '\U{A0}' || c == '\U{1680}' || '\U{2000}' <= c <= '\U{200A}'
    || c == '\U{2028}' || c == '\U{2029}' || c == '\U{202F}' || c == '\U{205F}' || c == '\U{3000}'
  }

  /** The number of whitespace characters s starts with. */
  function LeadingSpaces(s: string): (n: nat)
    ensures n <= |s|
    ensures forall i :: 0 <= i < n ==> IsSpace(s[i])
    ensures n < |s| ==> !IsSpace(s[n])
  {
    if s != [] && IsSpace(s[0]) then 1 + LeadingSpaces(s[1..]) else 0
  }

  /** The number of whitespace characters s ends with. */
  function TrailingSpaces(s: string): (n: nat)
    ensures n <= |s|
    ensures forall i :: |s| - n <= i < |s| ==> IsSpace(s[i])
    ensures n < |s| ==> !IsSpace(s[|s| - 1 - n])
  {
    if s != [] && IsSpace(s[|s| - 1]) then 1 + TrailingSpaces(s[..|s| - 1]) else 0
  }

  /** `s.strip()`. */
  function Strip(s: string): string {
    var t := s[LeadingSpaces(s)..];
    t[..|t| - TrailingSpaces(t)]
  }

  /** `strip()` cuts a piece out of s after its leading whitespace. */
  lemma StripPiece(s: string)
    ensures var r, a := Strip(s), LeadingSpaces(s); a + |r| <= |s| && r == s[a..a + |r|]
  {
    var a := LeadingSpaces(s);
    var t := s[a..];
    var r := t[..|t| - TrailingSpaces(t)];
    assert r == s[a..a + |r|];
  }

  /** Only whitespace follows the piece `strip()` keeps. */
  lemma StripTail(s: string)
    ensures var r, a := Strip(s), LeadingSpaces(s);
      forall i :: a + |r| <= i < |s| ==> IsSpace(s[i])
  {
    var a := LeadingSpaces(s);
    var t := s[a..];
    var k := TrailingSpaces(t);
    forall i | a + |t| - k <= i < |s|
      ensures IsSpace(s[i])
    {
      assert s[i] == t[i - a];
    }
  }

  /** What `strip()` leaves neither starts nor ends with whitespace. */
  lemma StripEnds(s: string)
    ensures var r := Strip(s); r != [] ==> !IsSpace(r[0]) && !IsSpace(r[|r| - 1])
  {
    var a := LeadingSpaces(s);
    var t := s[a..];
    var k := TrailingSpaces(t);
    var r := t[..|t| - k];
    if r != [] {
      assert r[0] == t[0] && r[|r| - 1] == t[|t| - 1 - k];
    }
  }

  /**
   * `strip()` removes whitespace from both ends and nothing else: the result is a
   * piece of s, everything around it is whitespace, and it neither starts nor ends with
   * whitespace; it is empty exactly when s is all whitespace.
   */
  lemma StripSpec(s: string)
    ensures var r, a := Strip(s), LeadingSpaces(s);
      && a + |r| <= |s| && r == s[a..a + |r|]
      && (forall i :: 0 <= i < a || a + |r| <= i < |s| ==> IsSpace(s[i]))
      && (r != [] ==> !IsSpace(r[0]) && !IsSpace(r[|r| - 1]))
      && (r == [] <==> forall i :: 0 <= i < |s| ==> IsSpace(s[i]))
  {
    StripPiece(s);
    StripTail(s);
    StripEnds(s);
    var r, a := Strip(s), LeadingSpaces(s);
    if r != [] {
      assert s[a] == r[0];
    }
  }

  /** Stripping twice is stripping once. */
  lemma StripIdempotent(s: string)
    ensures Strip(Strip(s)) == Strip(s)
  {
    var r := Strip(s);
    StripSpec(s);
    if r != [] {
      assert LeadingSpaces(r) == 0;
      assert TrailingSpaces(r) == 0;
      assert r[0..] == r && r[..|r|] == r;
    }
  }

  /** The length of the longest prefix of s without whitespace. */
  function WordLength(s: string): (n: nat)
    ensures n <= |s|
    ensures forall i :: 0 <= i < n ==> !IsSpace(s[i])
    ensures n < |s| ==> IsSpace(s[n])
  {
    if s == [] || IsSpace(s[0]) then 0 else 1 + WordLength(s[1..])
  }

  /** `s.split()[0]`: the first whitespace-separated token, None where there is none (IndexError). */
  function FirstToken(s: string): (r: Option<string>)
    ensures r.None? <==> forall i :: 0 <= i < |s| ==> IsSpace(s[i])
    ensures r.Some? ==>
      var a, w := LeadingSpaces(s), r.value;
      && w != [] && (forall i :: 0 <= i < |w| ==> !IsSpace(w[i]))
      && a + |w| <= |s| && w == s[a..a + |w|]
      && (a + |w| < |s| ==> IsSpace(s[a + |w|]))
  {
    var t := s[LeadingSpaces(s)..];
    if t == [] then None else Some(t[..WordLength(t)])
  }

  /** Stripping first does not change the first token. */
  lemma StripKeepsFirstToken(s: string)
    ensures FirstToken(Strip(s)) == FirstToken(s)
  {
    StripSpec(s);
    var a := LeadingSpaces(s);
    var t := s[a..];
    var r := Strip(s);
    if r != [] {
      assert LeadingSpaces(r) == 0 && r[0..] == r;
      var m := WordLength(t);
      assert |r| < |t| ==> IsSpace(t[|r|]);
      assert m <= |r|;
      assert forall i :: 0 <= i < |r| ==> r[i] == t[i];
      assert WordLength(r) == m by {
        if m < |r| {
          assert r[m] == t[m];
        }
      }
      assert r[..m] == t[..m];
    }
  }

  // ---------------------------------------------------------------------------
  // The /gemini endpoint

  /** The `window` query argument: absent, a number, or text `float()` rejects. */
  datatype WindowArg = Absent | Number(seconds: real) | NotANumber

  /** `float(request.args.get("window", 5))`, falling back to 5.0 on ValueError. */
  function WindowSeconds(arg: WindowArg): real {
    match arg
    case Number(x) => x
    case _ => 5.0
  }

  /** Where the emotion word came from: `"gemini"` or `"local_fallback"`. */
  datatype Source = Gemini | LocalFallback

  /** The endpoint's JSON reply: the 404 error, or the 200 summary. */
  datatype Reply =
    | NoRecentSamples(window: real)
    | Summary(emotion: string, geminiRaw: string, samplesUsed: nat, signal: Option<Signal>,
              source: Source, error: Option<string>)
  {
    /** The HTTP status the reply is sent with. */
    function Status(): nat {
      if NoRecentSamples? then 404 else 200
    }
  }

  /** `max(a, b)` on reals. */
  function Max(a: real, b: real): (m: real)
    ensures m >= a && m >= b && (m == a || m == b)
  {
    if a >= b then a else b
  }

  /**
   * `gemini_endpoint()` at time now over the history, given how the model call came out
   * and the ENABLE_SIGNAL_ON_API switch.
   */
  method GeminiEndpoint(history: seq<Sample>, now: real, arg: WindowArg, call: ModelCall,
                        signalOnApi: bool, mapping: map<string, nat>)
    returns (reply: Reply)
    // no recent samples: 404, and neither the model's answer nor the switch matters
    ensures var samples := RecentEmotions(history, now, WindowSeconds(arg));
      (reply.NoRecentSamples? <==> samples == []) &&
      (samples == [] ==> reply == NoRecentSamples(WindowSeconds(arg)))
    ensures reply.Status() == 404 <==> reply.NoRecentSamples?
    ensures reply.Summary? ==> reply.samplesUsed == |RecentEmotions(history, now, WindowSeconds(arg))|
    // the model failed: the locally dominant emotion, and the error text when it has one
    ensures reply.Summary? && call.Raised? ==>
      && IsDominant(Labels(RecentEmotions(history, now, WindowSeconds(arg))), reply.emotion)
      && reply.source == LocalFallback && reply.geminiRaw == ""
      && reply.error == (if call.message == "" then None else Some(call.message))
    // the model answered: its first word, or the dominant emotion when its text is blank
    ensures reply.Summary? && call.Replied? ==>
      && reply.source == Gemini && reply.error == None
      && reply.geminiRaw == Strip(call.text.GetOr(""))
      && (reply.geminiRaw == "" ==>
            IsDominant(Labels(RecentEmotions(history, now, WindowSeconds(arg))), reply.emotion))
      && (reply.geminiRaw != "" ==> FirstToken(reply.geminiRaw) == Some(reply.emotion))
    // a signal goes out exactly when the switch is on and the word maps to a positive count
    ensures reply.Summary? ==>
      (reply.signal.Some? <==> signalOnApi && Config.Lookup(mapping, reply.emotion) > 0)
    ensures reply.Summary? && reply.signal.Some? ==>
      var sig, samples := reply.signal.value, RecentEmotions(history, now, WindowSeconds(arg));
      && sig.emotion == reply.emotion && sig.vibrations == Config.Lookup(mapping, reply.emotion)
      && sig.at == now && 0.01 <= sig.confidence <= 1.0
      && exists d :: IsDominant(Labels(samples), d) && sig.confidence == Max(Proportion(samples, d), 0.01)
  {
    var window := WindowSeconds(arg);
    var samples := RecentEmotions(history, now, window);
    if samples == [] {
      return NoRecentSamples(window);
    }
    var top := DominantByCount(samples);
    assert HasEmotion(samples[0]);
    var fallback := top.value.key;
    var proportion := Proportion(samples, fallback);

    var modelText := "";
    var oneWord: string;
    var source := Gemini;
    var error: Option<string> := None;
    match call {
      case Replied(text) =>
        modelText := Strip(text.GetOr(""));
        if modelText != [] {
          StripSpec(text.GetOr(""));
          oneWord := FirstToken(modelText).value;
        } else {
          oneWord := fallback;
        }
      case Raised(message) =>
        oneWord := fallback;
        source := LocalFallback;
        if message != "" {
          error := Some(message);
        }
    }

    var signal: Option<Signal> := None;
    if signalOnApi {
      var vibrations := Config.Lookup(mapping, oneWord);
      if vibrations > 0 {
        signal := Some(Signal(oneWord, vibrations, Max(proportion, 0.01), now));
      }
    }
    reply := Summary(oneWord, modelText, |samples|, signal, source, error);
  }
}
