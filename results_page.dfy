/**
 * The logic of the results page: the confidence and severity colour
 * classifiers, and the zoom and overlay view controls.
 */
module ResultsPage {

  /** The colour family a classifier picks; the class strings are given by the functions below. */
  datatype Tone = Success | Warning | Destructive | Muted

  /** How good a tone is: success above warning above destructive. */
  function Rank(t: Tone): nat
  {
    match t
    case Success => 2
    case Warning => 1
    case Destructive => 0
    case Muted => 0
  }

  // ---------------------------------------------------------------- confidence

  /** The double nearest 0.9, which the literal `0.9` denotes: 8106479329266893 / 2^53. */
  const HighConfidence: real := 8106479329266893.0 / 9007199254740992.0

  /** The double nearest 0.7, which the literal `0.7` denotes: 6305039478318694 / 2^53. */
  const MediumConfidence: real := 6305039478318694.0 / 9007199254740992.0

  /** Each threshold is within 2^-53 of the decimal it is written as. */
  lemma ThresholdsNearDecimals()
    ensures 0.9 < HighConfidence < 0.9 + 1.0 / 9007199254740992.0
    ensures 0.7 - 1.0 / 9007199254740992.0 < MediumConfidence < 0.7
  {
  }

  /** getConfidenceColor: at least 0.9 succeeds, at least 0.7 warns, anything less is destructive. */
  function ConfidenceColor(confidence: real): (t: Tone)
    ensures t == Success <==> confidence >= HighConfidence
    ensures t == Warning <==> MediumConfidence <= confidence < HighConfidence
    ensures t == Destructive <==> confidence < MediumConfidence
  {
    if confidence >= HighConfidence then Success
    else if confidence >= MediumConfidence then Warning
    else Destructive
  }

  /** A higher confidence never gets a worse colour. */
  lemma ConfidenceColorMonotone(c1: real, c2: real)
    requires c1 <= c2
    ensures Rank(ConfidenceColor(c1)) <= Rank(ConfidenceColor(c2))
  {
  }

  /**
   * The class getConfidenceColor returns for a tone. ConfidenceColor never
   * picks Muted; that case is here only because Tone is shared with the
   * severity lookup.
   */
  function ConfidenceClass(t: Tone): (c: string)
    ensures |c| > 5 && c[..5] == "text-"
  {
    match t
    case Success => "text-success"
    case Warning => "text-warning"
    case Destructive => "text-destructive"
    case Muted => "text-muted-foreground"
  }

  // ------------------------------------------------------------------ severity

  function LowerAscii(c: char): char
  {
    if 'A' <= c <= 'Z' then (c as int + 32) as char else c
  }

  function UpperAscii(c: char): char
  {
    if 'a' <= c <= 'z' then (c as int - 32) as char else c
  }

  /** String.prototype.toLowerCase on the letters A to Z; every other character is kept. */
  function ToLower(s: string): (r: string)
    ensures |r| == |s|
    ensures forall i :: 0 <= i < |s| ==> r[i] == LowerAscii(s[i])
  {
    if s == [] then [] else [LowerAscii(s[0])] + ToLower(s[1..])
  }

  predicate IsLowerWord(w: string) { forall i :: 0 <= i < |w| ==> 'a' <= w[i] <= 'z' }

  /** `s` is `w` with any of its letters written in upper case. */
  predicate IsCasingOf(s: string, w: string)
  {
    |s| == |w| && forall i :: 0 <= i < |s| ==> s[i] == w[i] || s[i] == UpperAscii(w[i])
  }

  lemma LowerAsciiMatches(c: char, l: char)
    requires 'a' <= l <= 'z'
    ensures LowerAscii(c) == l <==> c == l || c == UpperAscii(l)
  {
  }

  /** Lower-casing yields a lower-case word exactly for the casings of that word. */
  lemma ToLowerMatches(s: string, w: string)
    requires IsLowerWord(w)
    ensures ToLower(s) == w <==> IsCasingOf(s, w)
  {
    if ToLower(s) == w {
      forall i | 0 <= i < |s| ensures s[i] == w[i] || s[i] == UpperAscii(w[i]) {
        LowerAsciiMatches(s[i], w[i]);
      }
    }
    if IsCasingOf(s, w) {
      forall i | 0 <= i < |s| ensures ToLower(s)[i] == w[i] {
        LowerAsciiMatches(s[i], w[i]);
      }
    }
  }

  /** getSeverityColor: the lower-cased severity picks the colour; anything else is muted. */
  function SeverityColor(severity: string): (t: Tone)
    ensures t == Success ==> IsCasingOf(severity, "low")
    ensures t == Warning ==> IsCasingOf(severity, "moderate")
    ensures t == Destructive ==> IsCasingOf(severity, "high")
  {
    ToLowerMatches(severity, "low");
    ToLowerMatches(severity, "moderate");
    ToLowerMatches(severity, "high");
    var key := ToLower(severity);
    if key == "low" then Success
    else if key == "moderate" then Warning
    else if key == "high" then Destructive
    else Muted
  }

  /** The lookup ignores case, and every string but the three keys gets the muted default. */
  lemma SeverityColorCaseInsensitive(severity: string)
    ensures SeverityColor(severity) == Success <==> IsCasingOf(severity, "low")
    ensures SeverityColor(severity) == Warning <==> IsCasingOf(severity, "moderate")
    ensures SeverityColor(severity) == Destructive <==> IsCasingOf(severity, "high")
    ensures SeverityColor(severity) == Muted <==>
      !IsCasingOf(severity, "low") && !IsCasingOf(severity, "moderate") && !IsCasingOf(severity, "high")
  {
    ToLowerMatches(severity, "low");
    ToLowerMatches(severity, "moderate");
    ToLowerMatches(severity, "high");
  }

  /** The badge classes getSeverityColor returns for a tone. */
  function SeverityClass(t: Tone): (c: string)
    ensures |c| > 3 && c[..3] == "bg-"
  {
    match t
    case Success => "bg-" + "success/10 text-success border-success/20"
    case Warning => "bg-" + "warning/10 text-warning border-warning/20"
    case Destructive => "bg-" + "destructive/10 text-destructive border-destructive/20"
    case Muted => "bg-" + "muted/10 text-muted-foreground border-muted/20"
  }

  /** Different tones get different class strings, in both classifiers. */
  lemma ClassesDistinct(t1: Tone, t2: Tone)
    requires t1 != t2
    ensures ConfidenceClass(t1) != ConfidenceClass(t2)
    ensures SeverityClass(t1) != SeverityClass(t2)
  {
  }

  // ---------------------------------------------------------------------- zoom

  const InitialZoom: int := 100
  const MinZoom: int := 50
  const MaxZoom: int := 200
  const ZoomStep: int := 25

  /** handleZoomIn: one step up, capped at 200. */
  function ZoomedIn(z: int): (r: int)
    ensures r <= MaxZoom && r <= z + ZoomStep
    ensures r == MaxZoom || r == z + ZoomStep
  {
    if z + ZoomStep < MaxZoom then z + ZoomStep else MaxZoom
  }

  /** handleZoomOut: one step down, floored at 50. */
  function ZoomedOut(z: int): (r: int)
    ensures r >= MinZoom && r >= z - ZoomStep
    ensures r == MinZoom || r == z - ZoomStep
  {
    if z - ZoomStep > MinZoom then z - ZoomStep else MinZoom
  }

  /** The zoom levels the page can show: 50, 75, ..., 200. */
  predicate ReachableZoom(z: int)
  {
    MinZoom <= z <= MaxZoom && z % ZoomStep == 0
  }

  lemma ZoomLimitsAreFixed()
    ensures ZoomedIn(MaxZoom) == MaxZoom && ZoomedOut(MinZoom) == MinZoom
  {
  }

  /** Zooming out undoes a zoom in that was not capped, and the other way round. */
  lemma ZoomUndo(z: int)
    ensures MinZoom <= z <= MaxZoom - ZoomStep ==> ZoomedOut(ZoomedIn(z)) == z
    ensures MinZoom + ZoomStep <= z <= MaxZoom ==> ZoomedIn(ZoomedOut(z)) == z
  {
  }

  datatype ZoomAction = ZoomIn | ZoomOut

  function Apply(z: int, a: ZoomAction): int
  {
    match a
    case ZoomIn => ZoomedIn(z)
    case ZoomOut => ZoomedOut(z)
  }

  /** The zoom level after clicking the buttons in the given order. */
  function ApplyAll(z: int, actions: seq<ZoomAction>): int
    decreases actions
  {
    if actions == [] then z else ApplyAll(Apply(z, actions[0]), actions[1..])
  }

  /** Any sequence of clicks keeps a reachable zoom level reachable. */
  lemma {:induction false} ZoomStaysReachable(z: int, actions: seq<ZoomAction>)
    requires ReachableZoom(z)
    ensures ReachableZoom(ApplyAll(z, actions))
    decreases actions
  {
    if actions != [] {
      ZoomStaysReachable(Apply(z, actions[0]), actions[1..]);
    }
  }

  function Repeat(a: ZoomAction, k: nat): (r: seq<ZoomAction>)
    ensures |r| == k
  {
    seq(k, _ => a)
  }

  lemma {:induction false} RepeatZoomIn(z: int, k: nat)
    requires z + k * ZoomStep <= MaxZoom
    ensures ApplyAll(z, Repeat(ZoomIn, k)) == z + k * ZoomStep
    decreases k
  {
    if k > 0 {
      assert Repeat(ZoomIn, k)[1..] == Repeat(ZoomIn, k - 1);
      RepeatZoomIn(z + ZoomStep, k - 1);
    }
  }

  lemma {:induction false} RepeatZoomOut(z: int, k: nat)
    requires z - k * ZoomStep >= MinZoom
    ensures ApplyAll(z, Repeat(ZoomOut, k)) == z - k * ZoomStep
    decreases k
  {
    if k > 0 {
      assert Repeat(ZoomOut, k)[1..] == Repeat(ZoomOut, k - 1);
      RepeatZoomOut(z - ZoomStep, k - 1);
    }
  }

  /** From the initial 100%, the levels some sequence of clicks reaches are exactly 50, 75, ..., 200. */
  lemma ReachableFromInitial(z: int)
    ensures ReachableZoom(z) <==> exists actions :: ApplyAll(InitialZoom, actions) == z
  {
    if ReachableZoom(z) {
      if z >= InitialZoom {
        RepeatZoomIn(InitialZoom, (z - InitialZoom) / ZoomStep);
        assert ApplyAll(InitialZoom, Repeat(ZoomIn, (z - InitialZoom) / ZoomStep)) == z;
      } else {
        RepeatZoomOut(InitialZoom, (InitialZoom - z) / ZoomStep);
        assert ApplyAll(InitialZoom, Repeat(ZoomOut, (InitialZoom - z) / ZoomStep)) == z;
      }
    }
    if exists actions :: ApplyAll(InitialZoom, actions) == z {
      var actions :| ApplyAll(InitialZoom, actions) == z;
      ZoomStaysReachable(InitialZoom, actions);
    }
  }

  /** The view controls' state: the zoom percentage and whether the overlay shows. */
  class ResultsView {
    var zoomLevel: int
    var showOverlay: bool

    ghost predicate Valid()
      reads this
    {
      ReachableZoom(zoomLevel)
    }

    constructor ()
      ensures Valid() && zoomLevel == InitialZoom && showOverlay
    {
      zoomLevel := InitialZoom;
      showOverlay := true;
    }

    method ZoomIn()
      requires Valid()
      modifies this
      ensures Valid()
      ensures zoomLevel == ZoomedIn(old(zoomLevel)) && showOverlay == old(showOverlay)
    {
      zoomLevel := if zoomLevel + ZoomStep < MaxZoom then zoomLevel + ZoomStep else MaxZoom;
    }

    method ZoomOut()
      requires Valid()
      modifies this
      ensures Valid()
      ensures zoomLevel == ZoomedOut(old(zoomLevel)) && showOverlay == old(showOverlay)
    {
      zoomLevel := if zoomLevel - ZoomStep > MinZoom then zoomLevel - ZoomStep else MinZoom;
    }

    /** The Overlay button: flips the flag, so two clicks restore it. */
    method ToggleOverlay()
      modifies this
      ensures showOverlay == !old(showOverlay) && zoomLevel == old(zoomLevel)
    {
      showOverlay := !showOverlay;
    }
  }
}
