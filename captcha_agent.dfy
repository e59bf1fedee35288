/**
 * The VLM CAPTCHA agent (chimera-core/captcha_agent.py): parsing click
 * points from the model's description, clicking them with the frame
 * offset while skipping forbidden regions, and retrying the agent up to a
 * number of attempts.
 *
 * The page, the worker's vision call, the forbidden-region check and the
 * clicks themselves are parameters.
 */
module CaptchaAgent {
  import opened Wrappers
  import opened Text
  import Vision

  const MinScreenshotBytes: nat := 8
  const CotPrompt: string :=
    "Task: Visual puzzle. Step 1: Identify all grid or tile boundaries. " +
    "Step 2: List which tiles match the instruction (e.g. buses, traffic lights, " +
    "or the requested type). Step 3: Give the pixel-center for each selected tile " +
    "as [x, y] or 'x y' pairs. If a single element, one pair. Output format: x1,y1 x2,y2 ... or x1 y1, x2 y2. Answer:"

  type Pair = (int, int)
  /** A point in page space. */
  type Spot = (real, real)

  // ---------------------------------------------------------------------
  // Scanning the description
  // ---------------------------------------------------------------------

  /**
   * The pair matched by
   * `[\[]?\s*(\d+)\s*[,]\s*(\d+)\s*[\]]?|\(?\s*(\d+)\s+(\d+)\s*\)?|(\d+)\s+(\d+)`
   * whose first number starts at p, with the index just after the second
   * number. After the first digit run either a comma (first alternative)
   * or at least one space and a digit (second and third) can follow, never
   * both, so the two numbers are the same whether the match starts at the
   * digit or at a bracket or space before it; and what a match consumes
   * after the second number (spaces, a closing bracket) cannot start a
   * match of its own.
   */
  function MatchAt(s: string, p: nat): (r: Option<(Pair, nat)>)
    requires p <= |s|
    ensures r.Some? ==> p < r.value.1 <= |s| && r.value.0.0 >= 0 && r.value.0.1 >= 0
  {
    var n1 := Vision.DigitRun(s, p);
    var q := p + n1;
    var r0 := q + Vision.SpaceRun(s, q);
    if n1 == 0 then None
    else if r0 < |s| && s[r0] == ',' then
      var t := r0 + 1 + Vision.SpaceRun(s, r0 + 1);
      var n2 := Vision.DigitRun(s, t);
      if n2 > 0 then Some(((Number(s, p, q), Number(s, t, t + n2)), t + n2)) else None
    else if r0 == q then None
    else
      var n2 := Vision.DigitRun(s, r0);
      if n2 > 0 then Some(((Number(s, p, q), Number(s, r0, r0 + n2)), r0 + n2)) else None
  }

  /** `int()` of a run of digits. */
  function Number(s: string, i: nat, j: nat): (n: nat)
    requires i <= j <= |s|
    requires forall k :: i <= k < j ==> IsDigit(s[k])
  {
    NatOf(s[i..j])
  }

  /** `re.finditer` from p: the pairs of successive non-overlapping matches, in order. */
  function Pairs(s: string, p: nat): (r: seq<Pair>)
    requires p <= |s|
    decreases |s| - p
  {
    if p == |s| then []
    else match MatchAt(s, p)
      case Some((pair, e)) => [pair] + Pairs(s, e)
      case None => Pairs(s, p + 1)
  }

  /** Every number found is a non-negative integer. */
  lemma {:induction false} PairsNonNegative(s: string, p: nat)
    requires p <= |s|
    ensures forall k :: 0 <= k < |Pairs(s, p)| ==> Pairs(s, p)[k].0 >= 0 && Pairs(s, p)[k].1 >= 0
    decreases |s| - p
  {
    if p < |s| {
      match MatchAt(s, p)
      case Some((pair, e)) => PairsNonNegative(s, e);
      case None => PairsNonNegative(s, p + 1);
    }
  }

  /** A description without digits yields no pair. */
  lemma {:induction false} NoDigitsNoPairs(s: string, p: nat)
    requires p <= |s|
    requires forall k :: p <= k < |s| ==> !IsDigit(s[k])
    ensures Pairs(s, p) == []
    decreases |s| - p
  {
    if p < |s| {
      NoDigitsNoPairs(s, p + 1);
    }
  }

  // ---------------------------------------------------------------------
  // _parse_coords_from_response
  // ---------------------------------------------------------------------

  /** `xs` with each pair of `more` appended, in order, unless already present. */
  function AppendNew(xs: seq<Pair>, more: seq<Pair>): (r: seq<Pair>)
    decreases |more|
  {
    if more == [] then xs
    else
      var a := AppendNew(xs, more[..|more| - 1]);
      if more[|more| - 1] in a then a else a + [more[|more| - 1]]
  }

  predicate NoDuplicates(xs: seq<Pair>) {
    forall i, j :: 0 <= i < j < |xs| ==> xs[i] != xs[j]
  }

  /**
   * Appending only new pairs keeps the start, keeps the list free of
   * duplicates, and ends up holding exactly the pairs of both lists.
   */
  lemma {:induction false} AppendNewShape(xs: seq<Pair>, more: seq<Pair>)
    requires NoDuplicates(xs)
    ensures var r := AppendNew(xs, more);
            |xs| <= |r| && r[..|xs|] == xs && NoDuplicates(r) &&
            (forall p :: p in r <==> p in xs || p in more)
    decreases |more|
  {
    if more != [] {
      AppendNewShape(xs, more[..|more| - 1]);
      var a := AppendNew(xs, more[..|more| - 1]);
      var last := more[|more| - 1];
      assert forall p :: p in more <==> p in more[..|more| - 1] || p == last by {
        assert more == more[..|more| - 1] + [last];
      }
      if last !in a {
        assert (a + [last])[..|xs|] == a[..|xs|];
      }
    }
  }

  /** The parsed list's specification: the single point first, then the new pairs in order. */
  function Parsed(description: string, single: Option<Pair>): seq<Pair> {
    AppendNew(if single.Some? then [single.value] else [], Pairs(description, 0))
  }

  /** `_parse_coords_from_response`, with its loop over the matches. */
  method ParseCoordsFromResponse(description: string, single: Option<Pair>) returns (out: seq<Pair>)
    ensures out == Parsed(description, single)
  {
    var pairs := Pairs(description, 0);
    out := if single.Some? then [single.value] else [];
    ghost var init := out;
    for i := 0 to |pairs|
      invariant out == AppendNew(init, pairs[..i])
    {
      assert pairs[..i + 1][..i] == pairs[..i];
      if pairs[i] !in out {
        out := out + [pairs[i]];
      }
    }
    assert pairs[..|pairs|] == pairs;
  }

  /**
   * A given single point comes first; no pair appears twice; the list
   * holds exactly the single point and the pairs found; and it is empty
   * exactly when there is neither.
   */
  lemma ParsedOutcome(description: string, single: Option<Pair>)
    ensures var r := Parsed(description, single);
            (single.Some? ==> |r| >= 1 && r[0] == single.value) &&
            NoDuplicates(r) &&
            (forall p :: p in r <==> (single.Some? && p == single.value) || p in Pairs(description, 0)) &&
            (r == [] <==> single.None? && Pairs(description, 0) == [])
  {
    var init := if single.Some? then [single.value] else [];
    AppendNewShape(init, Pairs(description, 0));
    var r := Parsed(description, single);
    if single.Some? {
      assert r[..1] == init;
      assert r[0] == r[..1][0];
    }
    if Pairs(description, 0) != [] {
      assert Pairs(description, 0)[0] in Pairs(description, 0);
    }
  }

  // ---------------------------------------------------------------------
  // solve_visual_puzzle
  // ---------------------------------------------------------------------

  /**
   * The prompt: the override when given, else the chain-of-thought prompt
   * and the instruction, taken from the challenge frame when it read more
   * than two characters there.
   */
  function Prompt(promptOverride: Option<string>, instruction: string, fromDom: Option<string>): (r: string)
    ensures promptOverride.Some? && promptOverride.value != "" ==> r == promptOverride.value
    ensures (promptOverride.None? || promptOverride.value == "") && fromDom.Some? && |fromDom.value| > 2 ==>
              r == CotPrompt + " " + fromDom.value
    ensures (promptOverride.None? || promptOverride.value == "") && !(fromDom.Some? && |fromDom.value| > 2) ==>
              r == CotPrompt + " " + instruction
  {
    if promptOverride.Some? && promptOverride.value != "" then promptOverride.value
    else CotPrompt + " " + (if fromDom.Some? && |fromDom.value| > 2 then fromDom.value else instruction)
  }

  /** What the worker's vision call returned: found, description, x, y. */
  datatype Reply = Reply(found: bool, description: string, x: Option<int>, y: Option<int>)

  function Single(v: Option<Reply>): Option<Pair> {
    if v.Some? && v.value.x.Some? && v.value.y.Some? then Some((v.value.x.value, v.value.y.value)) else None
  }

  /** The points to click: those parsed from the worker's answer (none when it gave nothing). */
  function Targets(v: Option<Reply>): seq<Pair> {
    Parsed(if v.Some? then v.value.description else "", Single(v))
  }

  /** A click point in page space: the parsed point plus the frame's offset. */
  function Shift(p: Pair, offset: Spot): Spot {
    (p.0 as real + offset.0, p.1 as real + offset.1)
  }

  /**
   * The points clicked, in order: each target shifted by the offset, unless
   * it is in a forbidden region or its click raises.
   */
  function Clicked(targets: seq<Pair>, offset: Spot, allowed: Spot -> bool,
                   clicks: Spot -> bool): (r: seq<Spot>)
    decreases |targets|
  {
    if targets == [] then []
    else
      var before := Clicked(targets[..|targets| - 1], offset, allowed, clicks);
      var pt := Shift(targets[|targets| - 1], offset);
      if allowed(pt) && clicks(pt) then before + [pt] else before
  }

  /** Some point is clicked exactly when some target is allowed and its click goes through. */
  lemma {:induction false} ClickedNonEmpty(targets: seq<Pair>, offset: Spot, allowed: Spot -> bool,
                                           clicks: Spot -> bool)
    ensures Clicked(targets, offset, allowed, clicks) != [] <==>
              exists i :: 0 <= i < |targets| && allowed(Shift(targets[i], offset)) && clicks(Shift(targets[i], offset))
    decreases |targets|
  {
    if targets != [] {
      var init := targets[..|targets| - 1];
      ClickedNonEmpty(init, offset, allowed, clicks);
      if exists i :: 0 <= i < |init| && allowed(Shift(init[i], offset)) && clicks(Shift(init[i], offset)) {
        var i :| 0 <= i < |init| && allowed(Shift(init[i], offset)) && clicks(Shift(init[i], offset));
        assert targets[i] == init[i];
      }
      if exists i :: 0 <= i < |targets| && allowed(Shift(targets[i], offset)) && clicks(Shift(targets[i], offset)) {
        var i :| 0 <= i < |targets| && allowed(Shift(targets[i], offset)) && clicks(Shift(targets[i], offset));
        if i < |init| {
          assert init[i] == targets[i];
        }
      }
    }
  }

  /** The click loop of `solve_visual_puzzle`; returns how many clicks went through. */
  method ClickAll(targets: seq<Pair>, offset: Spot, allowed: Spot -> bool,
                  clicks: Spot -> bool) returns (clicked: nat)
    ensures clicked == |Clicked(targets, offset, allowed, clicks)|
  {
    clicked := 0;
    for i := 0 to |targets|
      invariant clicked == |Clicked(targets[..i], offset, allowed, clicks)|
    {
      assert targets[..i + 1][..i] == targets[..i];
      var pt := Shift(targets[i], offset);
      if allowed(pt) && clicks(pt) {
        clicked := clicked + 1;
      }
    }
    assert targets[..|targets|] == targets;
  }

  /**
   * `solve_visual_puzzle`: false for a screenshot under 8 bytes, and when
   * the worker found nothing and no point could be parsed; otherwise true
   * exactly when at least one click went through.
   */
  function PuzzleSolved(screenshot: seq<bv8>, offset: Spot, v: Option<Reply>,
                             allowed: Spot -> bool, clicks: Spot -> bool): (r: bool)
  {
    if |screenshot| < MinScreenshotBytes then false
    else
      var targets := Targets(v);
      if !(v.Some? && v.value.found) && targets == [] then false
      else |Clicked(targets, offset, allowed, clicks)| > 0
  }

  /**
   * The puzzle counts as solved exactly when the screenshot has 8 bytes or
   * more and some parsed point, shifted by the frame offset, is outside
   * every forbidden region and its click goes through.
   */
  lemma SolveVisualPuzzleOutcome(screenshot: seq<bv8>, offset: Spot, v: Option<Reply>,
                                 allowed: Spot -> bool, clicks: Spot -> bool)
    ensures PuzzleSolved(screenshot, offset, v, allowed, clicks) <==>
              |screenshot| >= MinScreenshotBytes &&
              exists i :: 0 <= i < |Targets(v)| && allowed(Shift(Targets(v)[i], offset)) && clicks(Shift(Targets(v)[i], offset))
  {
    ClickedNonEmpty(Targets(v), offset, allowed, clicks);
  }

  /**
   * `solve_visual_puzzle`: send the prompt to the worker's vision call
   * (`vision` gives its answer for each text command), parse the answer,
   * then click what may be clicked. `fromDom` is the instruction read from
   * the challenge frame, if any.
   */
  method SolveVisualPuzzle(screenshot: seq<bv8>, offset: Spot, promptOverride: Option<string>, instruction: string,
                           fromDom: Option<string>, vision: string -> Option<Reply>,
                           allowed: Spot -> bool, clicks: Spot -> bool) returns (solved: bool)
    ensures solved == PuzzleSolved(screenshot, offset, vision(Prompt(promptOverride, instruction, fromDom)), allowed, clicks)
  {
    if |screenshot| < MinScreenshotBytes {
      return false;
    }
    var v := vision(Prompt(promptOverride, instruction, fromDom));
    var parsed := ParseCoordsFromResponse(if v.Some? then v.value.description else "", Single(v));
    if !(v.Some? && v.value.found) && parsed == [] {
      return false;
    }
    var clicked := ClickAll(parsed, offset, allowed, clicks);
    return clicked > 0;
  }

  /**
   * With a non-empty override the override alone is sent: neither the
   * instruction nor the text in the challenge frame changes the outcome,
   * which is that of the worker's answer to the override.
   */
  lemma OverrideIsSent(screenshot: seq<bv8>, offset: Spot, o: string, instruction: string, fromDom: Option<string>,
                       vision: string -> Option<Reply>, allowed: Spot -> bool, clicks: Spot -> bool)
    requires o != ""
    ensures PuzzleSolved(screenshot, offset, vision(Prompt(Some(o), instruction, fromDom)), allowed, clicks)
            <==> |screenshot| >= MinScreenshotBytes &&
                 exists i :: 0 <= i < |Targets(vision(o))| && allowed(Shift(Targets(vision(o))[i], offset))
                             && clicks(Shift(Targets(vision(o))[i], offset))
  {
    SolveVisualPuzzleOutcome(screenshot, offset, vision(o), allowed, clicks);
  }

  // ---------------------------------------------------------------------
  // solve_with_vlm_first
  // ---------------------------------------------------------------------

  /**
   * `solve_with_vlm_first`: attempt i succeeds when `attempt(i)`; stops at
   * the first success and gives up after `maxAttempts` attempts.
   */
  method SolveWithVlmFirst(maxAttempts: int, attempt: nat -> bool) returns (solved: bool, used: nat)
    ensures solved <==> exists i :: 0 <= i < maxAttempts && attempt(i)
    ensures solved ==> used >= 1 && attempt(used - 1) && forall i :: 0 <= i < used - 1 ==> !attempt(i)
    ensures !solved ==> used == (if maxAttempts < 0 then 0 else maxAttempts)
  {
    var n: nat := if maxAttempts < 0 then 0 else maxAttempts;
    for i := 0 to n
      invariant forall j :: 0 <= j < i ==> !attempt(j)
    {
      if attempt(i) {
        return true, i + 1;
      }
    }
    return false, n;
  }
}
