/**
 * The vision service of the brain (chimera_brain/vision_service.py): the
 * tier resize, coordinate parsing from a model's answer, the keyword
 * fallback, the 2026 speed/consensus path with scaling and clamping,
 * coordinate drift, and selector generation for the Trauma Center.
 *
 * Image decoding, model inference and the olmOCR intent check are
 * parameters; floating-point values are exact reals.
 */
module Vision {
  import opened Wrappers
  import opened Text

  const DeepseekTarget: nat := 896
  const OlmocrTarget: nat := 1024
  const ConsensusThreshold: real := 0.95
  const ConsensusConfidence: real := 0.96
  const DriftLimit: nat := 50
  const MinImageBytes: nat := 8

  // ---------------------------------------------------------------------
  // Configuration
  // ---------------------------------------------------------------------

  datatype Tier = Speed | Accuracy | Hybrid

  /** `VLM_TIER`: lower-cased, "hybrid" when unset, empty or unknown. */
  function TierFromEnv(v: Option<string>): (t: Tier)
    ensures v.None? || v == Some("") ==> t == Hybrid
    ensures v.Some? && Lower(v.value) == "speed" ==> t == Speed
    ensures v.Some? && Lower(v.value) == "accuracy" ==> t == Accuracy
    ensures v.Some? && !(Lower(v.value) in {"speed", "accuracy"}) ==> t == Hybrid
  {
    var s := if v.None? || v.value == "" then "hybrid" else Lower(v.value);
    if s == "speed" then Speed else if s == "accuracy" then Accuracy else Hybrid
  }

  /** `USE_2026_VISION` and `USE_LOCAL_VLM`: set when "1", "true" or "yes" in any case. */
  predicate EnvFlag(v: Option<string>) {
    v.Some? && Lower(v.value) in {"1", "true", "yes"}
  }

  /** Which models the processor loaded, and the tier it runs. */
  datatype Vlm = Vlm(use2026: bool, deepseekReady: bool, blipReady: bool, tier: Tier)

  /**
   * `VisualIntentProcessor.__init__` under the module's settings
   * `USE_2026_VISION`, `VLM_TIER`, `USE_LOCAL_VLM` and `VLM_MODEL` (unset
   * meaning "blip2"); `deepseekLoads` and `blipLoads` say whether each
   * loader returns a model. BLIP-2 is loaded for the legacy settings, or
   * when the 2026 stack is on but DeepSeek failed to load.
   */
  function LoadVlm(use2026Env: Option<string>, tierEnv: Option<string>, localEnv: Option<string>,
                   modelEnv: Option<string>, deepseekLoads: bool, blipLoads: bool): (v: Vlm)
    ensures v.tier == TierFromEnv(tierEnv)
    ensures v.deepseekReady ==> v.use2026
    ensures v.use2026 && !deepseekLoads && blipLoads ==> v.blipReady
    ensures !blipLoads ==> !v.blipReady
  {
    var use2026 := EnvFlag(use2026Env);
    var ds := use2026 && deepseekLoads;
    var model := if modelEnv.Some? then Lower(modelEnv.value) else "blip2";
    var needBlip := EnvFlag(localEnv) || model in {"blip2", "blip2-opt"} || (use2026 && !ds);
    Vlm(use2026, ds, needBlip && blipLoads, TierFromEnv(tierEnv))
  }

  // ---------------------------------------------------------------------
  // Dynamic resolution
  // ---------------------------------------------------------------------

  function Target(tier: string): nat {
    if tier == "speed" then DeepseekTarget else OlmocrTarget
  }

  function Max(a: nat, b: nat): nat { if a >= b then a else b }

  /** `_resize_for_tier` on the image size (w, h). */
  function ResizeForTier(w: nat, h: nat, tier: string): (r: (nat, nat)) {
    var target := Target(tier);
    if Max(w, h) <= target then (w, h)
    else if w >= h then (target, Max(1, h * target / w))
    else (Max(1, w * target / h), target)
  }

  /**
   * An image that fits is left alone; otherwise its longer side becomes
   * the target and the shorter side is scaled down in proportion, never
   * below 1.
   */
  lemma ResizeForTierOutcome(w: nat, h: nat, tier: string)
    ensures var (nw, nh) := ResizeForTier(w, h, tier);
            (Max(w, h) <= Target(tier) ==> nw == w && nh == h) &&
            (Max(w, h) > Target(tier) ==>
               Max(nw, nh) == Target(tier) && 1 <= nw <= Max(1, w) && 1 <= nh <= Max(1, h) &&
               (w >= h ==> nw == Target(tier) && nh == Max(1, h * Target(tier) / w)) &&
               (w < h ==> nh == Target(tier) && nw == Max(1, w * Target(tier) / h)))
  {
    var target := Target(tier);
    if Max(w, h) > target {
      if w >= h {
        ScaledBelow(h, target, w);
      } else {
        ScaledBelow(w, target, h);
      }
    }
  }

  /** Scaling the shorter side down keeps it at most its own length and the target. */
  lemma ScaledBelow(short: nat, target: nat, long: nat)
    requires short <= long && target < long
    ensures short * target / long <= short && short * target / long <= target
  {
    assert short * target <= short * long;
    assert short * target <= long * target;
  }

  // ---------------------------------------------------------------------
  // Parsing coordinates from a model's answer
  // ---------------------------------------------------------------------

  /** A point with its confidence. */
  datatype Point = Point(x: int, y: int, confidence: real)

  function DigitRun(s: string, j: nat): (n: nat)
    requires j <= |s|
    ensures j + n <= |s|
    ensures forall k :: j <= k < j + n ==> IsDigit(s[k])
    ensures j + n < |s| ==> !IsDigit(s[j + n])
    decreases |s| - j
  {
    if j == |s| || !IsDigit(s[j]) then 0 else 1 + DigitRun(s, j + 1)
  }

  function SpaceRun(s: string, j: nat): (n: nat)
    requires j <= |s|
    ensures j + n <= |s|
    ensures forall k :: j <= k < j + n ==> IsSpace(s[k])
    ensures j + n < |s| ==> !IsSpace(s[j + n])
    decreases |s| - j
  {
    if j == |s| || !IsSpace(s[j]) then 0 else 1 + SpaceRun(s, j + 1)
  }

  /**
   * The pair the pattern `(\d+)\s*[,]\s*(\d+)|(\d+)\s+(\d+)|\(...\)` matches
   * at position p, as the two digit strings. The parenthesised third
   * alternative is left out: wherever it matches at a '(' the first
   * alternative matches the same two numbers at the first digit after it,
   * and nothing between them can match, so the search finds the same pair.
   */
  function PairAt(s: string, p: nat): (r: Option<(string, string)>)
    requires p <= |s|
    ensures r.Some? ==> r.value.0 != [] && r.value.1 != [] && AllDigits(r.value.0) && AllDigits(r.value.1)
  {
    var n1 := DigitRun(s, p);
    var q := p + n1;
    var r0 := q + SpaceRun(s, q);
    if n1 == 0 then None
    else if r0 < |s| && s[r0] == ',' then
      var t := r0 + 1 + SpaceRun(s, r0 + 1);
      var n2 := DigitRun(s, t);
      if n2 > 0 then Some((s[p..q], s[t..t + n2])) else None
    else if r0 == q then None
    else
      var n2 := DigitRun(s, r0);
      if n2 > 0 then Some((s[p..q], s[r0..r0 + n2])) else None
  }

  /** `re.search`: the pair at the leftmost position from p where one matches. */
  function FirstPair(s: string, p: nat): (r: Option<(string, string)>)
    requires p <= |s|
    decreases |s| - p
  {
    if PairAt(s, p).Some? then PairAt(s, p)
    else if p == |s| then None
    else FirstPair(s, p + 1)
  }

  /** What the search finds are two digit strings. */
  lemma {:induction false} FirstPairDigits(s: string, p: nat)
    requires p <= |s|
    ensures FirstPair(s, p).Some? ==> AllDigits(FirstPair(s, p).value.0) && AllDigits(FirstPair(s, p).value.1)
    decreases |s| - p
  {
    if PairAt(s, p).None? && p < |s| {
      FirstPairDigits(s, p + 1);
    }
  }

  /** The search finds nothing exactly when no position from p has a match. */
  lemma {:induction false} FirstPairNone(s: string, p: nat)
    requires p <= |s|
    ensures FirstPair(s, p).None? <==> forall k :: p <= k <= |s| ==> PairAt(s, k).None?
    decreases |s| - p
  {
    if PairAt(s, p).None? && p < |s| {
      FirstPairNone(s, p + 1);
    }
  }

  /** A match found is the one at the leftmost position that has one. */
  lemma {:induction false} FirstPairIsLeftmost(s: string, p: nat) returns (k: nat)
    requires p <= |s| && FirstPair(s, p).Some?
    ensures p <= k <= |s| && FirstPair(s, p) == PairAt(s, k)
    ensures forall j :: p <= j < k ==> PairAt(s, j).None?
    decreases |s| - p
  {
    var here := PairAt(s, p);
    if here.Some? {
      k := p;
    } else {
      assert p < |s|;
      assert FirstPair(s, p) == FirstPair(s, p + 1);
      k := FirstPairIsLeftmost(s, p + 1);
      forall j | p <= j < k
        ensures PairAt(s, j).None?
      {
        if j == p {
          assert PairAt(s, j) == here;
        }
      }
    }
  }

  function Clamp(v: int, lo: int, hi: int): (r: int) {
    if v > hi then (if lo > hi then lo else hi) else if v < lo then lo else v
  }

  /** `max(lo, min(v, hi))`. */
  lemma ClampBounds(v: int, lo: int, hi: int)
    ensures Clamp(v, lo, hi) == (if lo >= (if v <= hi then v else hi) then lo else (if v <= hi then v else hi))
    ensures lo <= hi ==> lo <= Clamp(v, lo, hi) <= hi
    ensures lo <= v <= hi ==> Clamp(v, lo, hi) == v
  {
  }

  /** `_parse_coords_from_vlm_answer` for an image of size (w, h). */
  function ParseCoords(answer: string, w: nat, h: nat): (r: Option<Point>)
    ensures r.Some? ==> Within(r.value, w, h) && r.value.confidence in {0.85, 0.7, 0.6}
  {
    var m := FirstPair(answer, 0);
    FirstPairDigits(answer, 0);
    QuarterPoints(w);
    QuarterPoints(h);
    if m.Some? then
      ClampBounds(NatOf(m.value.0), 0, w);
      ClampBounds(NatOf(m.value.1), 0, h);
      Some(Point(Clamp(NatOf(m.value.0), 0, w), Clamp(NatOf(m.value.1), 0, h), 0.85))
    else
      var a := Upper(answer);
      if Contains(a, "CENTER") then Some(Point(w / 2, h / 2, 0.7))
      else if Contains(a, "TOP_LEFT") || Contains(a, "TOP LEFT") then Some(Point(w / 4, h / 4, 0.6))
      else if Contains(a, "TOP_RIGHT") || Contains(a, "TOP RIGHT") then Some(Point(3 * w / 4, h / 4, 0.6))
      else if Contains(a, "BOTTOM_LEFT") || Contains(a, "BOTTOM LEFT") then Some(Point(w / 4, 3 * h / 4, 0.6))
      else if Contains(a, "BOTTOM_RIGHT") || Contains(a, "BOTTOM RIGHT") then Some(Point(3 * w / 4, 3 * h / 4, 0.6))
      else None
  }

  predicate Within(pt: Point, w: nat, h: nat) {
    0 <= pt.x <= w && 0 <= pt.y <= h
  }

  /**
   * A pair of integers in the answer wins, clamped into the image, with
   * confidence 0.85; otherwise CENTER (before any corner) gives the centre
   * at 0.7 and a corner keyword gives its quarter point at 0.6; every point
   * lies within the image.
   */
  lemma ParseCoordsOutcome(answer: string, w: nat, h: nat)
    ensures var r := ParseCoords(answer, w, h);
            (r.Some? ==> Within(r.value, w, h) && r.value.confidence in {0.85, 0.7, 0.6}) &&
            (FirstPair(answer, 0).Some? <==> r.Some? && r.value.confidence == 0.85) &&
            (FirstPair(answer, 0).None? && Contains(Upper(answer), "CENTER") ==> r == Some(Point(w / 2, h / 2, 0.7))) &&
            (r.Some? && r.value.confidence == 0.6 ==> !Contains(Upper(answer), "CENTER"))
  {
    var m := FirstPair(answer, 0);
    FirstPairDigits(answer, 0);
    if m.Some? {
      var x, y := NatOf(m.value.0), NatOf(m.value.1);
      assert ParseCoords(answer, w, h) == Some(Point(Clamp(x, 0, w), Clamp(y, 0, h), 0.85));
      ClampBounds(x, 0, w);
      ClampBounds(y, 0, h);
    } else {
      QuarterPoints(w);
      QuarterPoints(h);
    }
  }

  /** The quarter points of a side lie on it, in order. */
  lemma QuarterPoints(n: nat)
    ensures 0 <= n / 4 <= n / 2 <= 3 * n / 4 <= n
  {
  }

  // ---------------------------------------------------------------------
  // The keyword fallback and the command normalisation
  // ---------------------------------------------------------------------

  /** `_fallback_coordinate_detection` for an image of size (w, h). */
  function FallbackDetection(w: nat, h: nat, command: string): (r: Point)
    ensures r.confidence == 0.5 && Within(r, w, h)
  {
    var t := Lower(command);
    if Contains(t, "button") || Contains(t, "click") then
      if Contains(t, "green") || Contains(t, "submit") then Point(w * 85 / 100, h * 90 / 100, 0.5)
      else if Contains(t, "login") || Contains(t, "sign in") then Point(w * 85 / 100, h * 15 / 100, 0.5)
      else Point(w / 2, h / 2, 0.5)
    else if Contains(t, "input") || Contains(t, "field") || Contains(t, "type") then Point(w / 2, h * 35 / 100, 0.5)
    else Point(w / 2, h / 2, 0.5)
  }

  /** A command that names no button, input or field gets the centre. */
  lemma FallbackGeneric(w: nat, h: nat, command: string)
    requires var t := Lower(command);
             !Contains(t, "button") && !Contains(t, "click") && !Contains(t, "input") &&
             !Contains(t, "field") && !Contains(t, "type")
    ensures FallbackDetection(w, h, command) == Point(w / 2, h / 2, 0.5)
  {
  }

  /** The Phone/Age/Income synonyms become the phrasing the model is asked with. */
  function NormalizeCommand(command: string): (r: string)
    ensures Strip(Lower(command)) in {"phone", "mobile", "mobile phone", "phone number", "primary phone"} ==>
              r == "the primary mobile phone number"
    ensures Strip(Lower(command)) in {"age", "dob", "date of birth", "birth date"} ==> r == "the age or date of birth"
    ensures Strip(Lower(command)) in {"income", "salary", "household income", "median income"} ==> r == "the income or salary"
    ensures (Strip(Lower(command)) !in {"phone", "mobile", "mobile phone", "phone number", "primary phone",
                                        "age", "dob", "date of birth", "birth date",
                                        "income", "salary", "household income", "median income"}) ==> r == command
  {
    StripLower(command);
    var t := Strip(Lower(command));
    if t in {"phone", "mobile", "mobile phone", "phone number", "primary phone"} then "the primary mobile phone number"
    else if t in {"age", "dob", "date of birth", "birth date"} then "the age or date of birth"
    else if t in {"income", "salary", "household income", "median income"} then "the income or salary"
    else command
  }

  // ---------------------------------------------------------------------
  // get_click_coordinates
  // ---------------------------------------------------------------------

  /** The result: point, confidence and whether it drifted from the suggestion. */
  datatype Click = Click(x: int, y: int, confidence: real, drift: bool)

  /** `_drift`: the L1 distance from a suggested point exceeds 50. */
  predicate Drift(x: int, y: int, suggested: Option<(int, int)>) {
    suggested.Some? && Abs(x - suggested.value.0) + Abs(y - suggested.value.1) > DriftLimit as int
  }

  function Abs(v: int): nat { if v < 0 then -v else v }

  /**
   * Drift is measured with the L1 distance, not the Euclidean one: a point
   * 30 pixels off on both axes drifts though it lies within 50 pixels.
   */
  lemma DriftIsL1()
    ensures Drift(30, 30, Some((0, 0)))
    ensures 30 * 30 + 30 * 30 < DriftLimit * DriftLimit
    ensures forall x, y :: !Drift(x, y, None)
  {
  }

  /** The point found on the resized image, scaled back to (iw, ih) and clamped into it. */
  function ScaleBack(pt: Point, iw: nat, ih: nat, mw: nat, mh: nat): (r: (int, int))
    requires pt.x >= 0 && pt.y >= 0
  {
    if mw > 0 && mh > 0 then
      (Clamp(pt.x * iw / mw, 0, iw - 1), Clamp(pt.y * ih / mh, 0, ih - 1))
    else (pt.x, pt.y)
  }

  /**
   * `get_click_coordinates`. `decoded` is the size of the decoded image (or
   * a failure to decode), `speedAnswer` the DeepSeek answer on the image
   * resized for the speed tier, `olmocrConfirms` whether the olmOCR
   * markdown confirms the intent, and `legacyAnswer` the BLIP-2 answer.
   */
  function GetClickCoordinates(image: seq<bv8>, command: string, suggested: Option<(int, int)>, vlm: Vlm,
                               decoded: Attempt<(nat, nat)>, speedAnswer: Attempt<string>,
                               olmocrConfirms: bool, legacyAnswer: Attempt<string>): (r: Click)
    ensures |image| < MinImageBytes ==> r == Click(0, 0, 0.0, false)
  {
    var cmd := NormalizeCommand(command);
    if |image| < MinImageBytes || decoded.Raises? then Click(0, 0, 0.0, false)
    else
      var (iw, ih) := decoded.value;
      if vlm.use2026 && vlm.deepseekReady then
        var (mw, mh) := ResizeForTier(iw, ih, "speed");
        var c := if speedAnswer.Ok? then ParseCoords(speedAnswer.value, mw, mh) else None;
        if c.Some? then
          ParseCoordsOutcome(speedAnswer.value, mw, mh);
          var conf := if vlm.tier == Hybrid && c.value.confidence < ConsensusThreshold && olmocrConfirms
                      then ConsensusConfidence else c.value.confidence;
          var (x, y) := ScaleBack(c.value, iw, ih, mw, mh);
          Click(x, y, conf, Drift(x, y, suggested))
        else
          var f := FallbackDetection(iw, ih, cmd);
          Click(f.x, f.y, f.confidence, false)
      else if !vlm.blipReady then
        var f := FallbackDetection(iw, ih, cmd);
        Click(f.x, f.y, f.confidence, false)
      else
        var c := if legacyAnswer.Ok? then ParseCoords(Strip(legacyAnswer.value), iw, ih) else None;
        if c.Some? then Click(c.value.x, c.value.y, c.value.confidence, Drift(c.value.x, c.value.y, suggested))
        else
          var f := FallbackDetection(iw, ih, cmd);
          Click(f.x, f.y, f.confidence, false)
  }

  /**
   * On the 2026 path a parsed point is scaled back into the original image
   * and clamped to [0, iw-1] x [0, ih-1]; its confidence is 0.96 only after
   * a hybrid-tier consensus, and otherwise that of the parse, so the 0.9
   * default is never used.
   */
  lemma SpeedPathOutcome(image: seq<bv8>, command: string, suggested: Option<(int, int)>, vlm: Vlm,
                         iw: nat, ih: nat, answer: string, olmocrConfirms: bool, legacyAnswer: Attempt<string>)
    requires |image| >= MinImageBytes && vlm.use2026 && vlm.deepseekReady && iw >= 1 && ih >= 1
    requires ParseCoords(answer, ResizeForTier(iw, ih, "speed").0, ResizeForTier(iw, ih, "speed").1).Some?
    ensures var r := GetClickCoordinates(image, command, suggested, vlm, Ok((iw, ih)), Ok(answer), olmocrConfirms, legacyAnswer);
            0 <= r.x < iw && 0 <= r.y < ih &&
            (r.confidence == ConsensusConfidence <==> vlm.tier == Hybrid && olmocrConfirms) &&
            r.confidence in {ConsensusConfidence, 0.85, 0.7, 0.6} &&
            (r.drift <==> Drift(r.x, r.y, suggested))
  {
    ResizeForTierOutcome(iw, ih, "speed");
    var (mw, mh) := ResizeForTier(iw, ih, "speed");
    ParseCoordsOutcome(answer, mw, mh);
  }

  /**
   * The olmOCR consensus (confidence 0.96) is reached only by a processor
   * loaded with `VLM_TIER` unset, empty, "hybrid" or unrecognised: setting
   * it to "speed" or "accuracy", in any case, rules the consensus out.
   */
  lemma ConsensusNeedsHybridTier(image: seq<bv8>, command: string, suggested: Option<(int, int)>,
                                 use2026Env: Option<string>, tierEnv: Option<string>, localEnv: Option<string>,
                                 modelEnv: Option<string>, deepseekLoads: bool, blipLoads: bool,
                                 iw: nat, ih: nat, answer: string, olmocrConfirms: bool, legacyAnswer: Attempt<string>)
    requires |image| >= MinImageBytes && EnvFlag(use2026Env) && deepseekLoads && iw >= 1 && ih >= 1
    requires ParseCoords(answer, ResizeForTier(iw, ih, "speed").0, ResizeForTier(iw, ih, "speed").1).Some?
    ensures var vlm := LoadVlm(use2026Env, tierEnv, localEnv, modelEnv, deepseekLoads, blipLoads);
            var r := GetClickCoordinates(image, command, suggested, vlm, Ok((iw, ih)), Ok(answer), olmocrConfirms, legacyAnswer);
            r.confidence == ConsensusConfidence <==>
              olmocrConfirms && (tierEnv.None? || !(Lower(tierEnv.value) in {"speed", "accuracy"}))
  {
    var vlm := LoadVlm(use2026Env, tierEnv, localEnv, modelEnv, deepseekLoads, blipLoads);
    SpeedPathOutcome(image, command, suggested, vlm, iw, ih, answer, olmocrConfirms, legacyAnswer);
  }

  /** Whenever the keyword fallback answers, the confidence is 0.5 and there is no drift. */
  lemma FallbackNeverDrifts(image: seq<bv8>, command: string, suggested: Option<(int, int)>, vlm: Vlm,
                            iw: nat, ih: nat, speedAnswer: Attempt<string>, olmocrConfirms: bool, legacyAnswer: Attempt<string>)
    requires |image| >= MinImageBytes
    requires vlm.use2026 && vlm.deepseekReady ==> speedAnswer.Raises?
    requires !(vlm.use2026 && vlm.deepseekReady) && vlm.blipReady ==> legacyAnswer.Raises?
    ensures var r := GetClickCoordinates(image, command, suggested, vlm, Ok((iw, ih)), speedAnswer, olmocrConfirms, legacyAnswer);
            var f := FallbackDetection(iw, ih, NormalizeCommand(command));
            r == Click(f.x, f.y, 0.5, false)
  {
  }

  // ---------------------------------------------------------------------
  // Selector generation (the Trauma Center)
  // ---------------------------------------------------------------------

  const LoginSelector: string :=
    "button[type='submit'], .login-button, #login-button, button:contains('Login'), button:contains('Sign In')"
  const SearchSelector: string :=
    "input[type='search'], input[name='search'], #search, .search-input, input[placeholder*='search' i]"

  /** `_generate_selector_from_intent`: the first matching keyword rule. */
  function SelectorFromIntent(intent: string): (r: string) {
    var t := Lower(intent);
    if Contains(t, "button") || Contains(t, "click") then
      if Contains(t, "login") || Contains(t, "sign in") then LoginSelector
      else if Contains(t, "submit") then "button[type='submit']"
      else "button"
    else if Contains(t, "input") || Contains(t, "field") || Contains(t, "search") then
      if Contains(t, "search") then SearchSelector else "input"
    else if Contains(t, "link") || Contains(t, "anchor") then "a"
    else "*"
  }

  /**
   * The generic "*" comes back exactly when the intent names none of the
   * keywords; button rules win over input rules and those over links.
   */
  lemma SelectorFromIntentOutcome(intent: string)
    ensures var t := Lower(intent);
            var r := SelectorFromIntent(intent);
            (r == "*" <==> !(Contains(t, "button") || Contains(t, "click") || Contains(t, "input") ||
                             Contains(t, "field") || Contains(t, "search") || Contains(t, "link") ||
                             Contains(t, "anchor"))) &&
            (Contains(t, "button") ==> r in {LoginSelector, "button[type='submit']", "button"}) &&
            ((Contains(t, "link") && !Contains(t, "button") && !Contains(t, "click") && !Contains(t, "input") &&
              !Contains(t, "field") && !Contains(t, "search")) ==> r == "a")
  {
    assert LoginSelector != "*" && SearchSelector != "*";
  }

  /** What `find_new_selector` reports (its metadata aside). */
  datatype NewSelector = NewSelector(selector: Option<string>, confidence: real, coordinates: (int, int), failed: bool)

  const NoSelector: NewSelector := NewSelector(None, 0.0, (0, 0), false)

  /**
   * `find_new_selector` as written: the call to `get_click_coordinates`
   * unpacks its four results into three names, which raises, so every
   * decodable screenshot ends in the error result.
   */
  function FindNewSelectorAsWritten(screenshot: seq<bv8>, intent: string, vlm: Vlm, decoded: Attempt<(nat, nat)>): (r: NewSelector)
    ensures r.selector.None?
    ensures r.failed <==> |screenshot| >= MinImageBytes
  {
    if |screenshot| < MinImageBytes then NoSelector
    else NewSelector(None, 0.0, (0, 0), true)
  }

  /** `find_new_selector` with the four results unpacked as returned. */
  function FindNewSelector(screenshot: seq<bv8>, intent: string, vlm: Vlm, decoded: Attempt<(nat, nat)>,
                           speedAnswer: Attempt<string>, olmocrConfirms: bool, legacyAnswer: Attempt<string>): (r: NewSelector)
    ensures r.selector.Some? <==> |screenshot| >= MinImageBytes && decoded.Ok?
    ensures r.failed <==> |screenshot| >= MinImageBytes && decoded.Raises?
    ensures r.selector.None? ==> r.confidence == 0.0 && r.coordinates == (0, 0)
  {
    if |screenshot| < MinImageBytes then NoSelector
    else if decoded.Raises? then NewSelector(None, 0.0, (0, 0), true)
    else
      var (w, h) := decoded.value;
      var c := GetClickCoordinates(screenshot, intent, None, vlm, decoded, speedAnswer, olmocrConfirms, legacyAnswer);
      NewSelector(Some(SelectorFromIntent(intent)), c.confidence * 0.8, (c.x, c.y), false)
  }

  /**
   * The three-name unpacking never yields a selector; with the results
   * unpacked as returned, a decodable screenshot yields the intent's
   * selector at 0.8 of the coordinate confidence.
   */
  lemma FindNewSelectorFinding(screenshot: seq<bv8>, intent: string, vlm: Vlm, w: nat, h: nat,
                               speedAnswer: Attempt<string>, olmocrConfirms: bool, legacyAnswer: Attempt<string>)
    requires |screenshot| >= MinImageBytes
    ensures FindNewSelectorAsWritten(screenshot, intent, vlm, Ok((w, h))).selector.None?
    ensures var r := FindNewSelector(screenshot, intent, vlm, Ok((w, h)), speedAnswer, olmocrConfirms, legacyAnswer);
            var c := GetClickCoordinates(screenshot, intent, None, vlm, Ok((w, h)), speedAnswer, olmocrConfirms, legacyAnswer);
            r.selector == Some(SelectorFromIntent(intent)) && r.confidence == c.confidence * 0.8 &&
            r.coordinates == (c.x, c.y) && !r.failed
  {
  }

  /** A screenshot under 8 bytes gives no selector and confidence 0 either way. */
  lemma FindNewSelectorTiny(screenshot: seq<bv8>, intent: string, vlm: Vlm, decoded: Attempt<(nat, nat)>,
                            speedAnswer: Attempt<string>, olmocrConfirms: bool, legacyAnswer: Attempt<string>)
    requires |screenshot| < MinImageBytes
    ensures FindNewSelector(screenshot, intent, vlm, decoded, speedAnswer, olmocrConfirms, legacyAnswer) == NoSelector
    ensures FindNewSelectorAsWritten(screenshot, intent, vlm, decoded) == NoSelector
  {
  }
}
