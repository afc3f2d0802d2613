/** The phases of the experience and the per-phase switches of the orbit
    controls and the Skip/Back button. */
module Phases {

  datatype Phase = Beauty | TransitionOut | ThreatAlert | Defense | Victory | Intro | Explore

  datatype IntroStep = Thanks | Bio

  /** Phases in which the camera is held at the centre and the user cannot move it. */
  predicate IsLockedPhase(p: Phase) {
    p == ThreatAlert || p == Defense
  }

  /** `enabled` of `OrbitControls`: on in every phase that is not locked. */
  function ControlsEnabled(p: Phase): (r: bool)
    ensures r <==> !IsLockedPhase(p)
  {
    p != ThreatAlert && p != Defense
  }

  /** `enableZoom` of `OrbitControls`: zooming only where the controls are on,
      and never during the silent transition. */
  function ZoomEnabled(p: Phase): (r: bool)
    ensures r ==> ControlsEnabled(p)
    ensures r <==> ControlsEnabled(p) && p != TransitionOut
  {
    p == Beauty || p == Intro || p == Victory || p == Explore
  }

  /** `autoRotate` of `OrbitControls`: the zoomable phases other than explore. */
  function AutoRotate(p: Phase): (r: bool)
    ensures r <==> ZoomEnabled(p) && p != Explore
  {
    p == Beauty || p == Victory || p == Intro
  }

  /** The Skip/Back button is shown in beauty, in intro before the bio, and in explore. */
  predicate SkipOffered(p: Phase, step: IntroStep)
    ensures SkipOffered(p, step) ==> !IsLockedPhase(p) && p != TransitionOut && p != Victory
    ensures p == Intro ==> (SkipOffered(p, step) <==> step == Thanks)
  {
    (p == Intro && step != Bio) || p == Explore || p == Beauty
  }

  /** Caption of the Skip/Back button. */
  function SkipLabel(p: Phase, hasFocus: bool): (caption: string)
    ensures p != Explore ==> caption == "Skip"
    ensures caption == "Close" <==> p == Explore && hasFocus
    ensures caption == "Back" <==> p == Explore && !hasFocus
  {
    if p == Explore then (if hasFocus then "Close" else "Back") else "Skip"
  }
}

/** What `CameraController` aims at, as a function of phase, focus and
    viewport size. The per-frame damping toward these targets is not modelled. */
module Camera {
  import opened Phases

  /** Viewports narrower than this are treated as mobile. */
  const MobileWidth: real := 768.0
  /** Z distance of the camera in the locked phases. */
  const LockedZ: real := 14.0
  /** Z the camera approaches in explore with a focus, on mobile and otherwise. */
  const FocusZMobile: real := 32.0
  const FocusZ: real := 20.0
  /** Distance from the origin the camera settles at in explore without a focus. */
  const OverviewDistanceMobile: real := 35.0
  const OverviewDistance: real := 20.0

  datatype Offset = Offset(x: real, y: real)

  /** Whether the view is shifted to make room for an info panel. */
  predicate Shifted(p: Phase, hasFocus: bool) {
    p == Intro || (p == Explore && hasFocus)
  }

  /** Target of the view offset: a quarter of the height up on mobile, a
      quarter of the width across otherwise, and none when no panel is shown. */
  function ViewOffsetTarget(p: Phase, hasFocus: bool, width: real, height: real): (t: Offset)
    ensures !Shifted(p, hasFocus) ==> t == Offset(0.0, 0.0)
    ensures Shifted(p, hasFocus) && width < MobileWidth ==> t == Offset(0.0, height * 0.25)
    ensures Shifted(p, hasFocus) && width >= MobileWidth ==> t == Offset(width * 0.25, 0.0)
  {
    var isMobile := width < MobileWidth;
    if Shifted(p, hasFocus) then
      if isMobile then Offset(0.0, height * 0.25) else Offset(width * 0.25, 0.0)
    else Offset(0.0, 0.0)
  }

  /** The offset moves along one axis only, and for a real viewport it is
      non-zero exactly in intro and in explore with a focus. */
  lemma ViewOffsetShape(p: Phase, hasFocus: bool, width: real, height: real)
    requires width > 0.0 && height > 0.0
    ensures var t := ViewOffsetTarget(p, hasFocus, width, height);
      && (t.x == 0.0 || t.y == 0.0)
      && (t != Offset(0.0, 0.0) <==> Shifted(p, hasFocus))
  {
  }

  /** Where the camera is steered. `Centered(z)` holds x and y at 0 and z at
      `z`; `Approach(z)` does the same while the transition lasts;
      `Distance(d)` only rescales the distance from the origin; `Free`
      leaves the camera to the user. */
  datatype CameraGoal = Centered(z: real) | Approach(z: real) | Distance(d: real) | Free

  function CameraGoalFor(p: Phase, hasFocus: bool, width: real): (g: CameraGoal)
    ensures g.Centered? <==> IsLockedPhase(p)
    ensures g.Centered? ==> g.z == LockedZ && !ControlsEnabled(p)
    ensures g.Free? <==> p != Explore && !IsLockedPhase(p)
    ensures p == Explore && hasFocus ==> g == Approach(if width < MobileWidth then FocusZMobile else FocusZ)
    ensures p == Explore && !hasFocus ==>
      g == Distance(if width < MobileWidth then OverviewDistanceMobile else OverviewDistance)
  {
    var isMobile := width < MobileWidth;
    if IsLockedPhase(p) then Centered(LockedZ)
    else if p == Explore && hasFocus then Approach(if isMobile then FocusZMobile else FocusZ)
    else if p == Explore then Distance(if isMobile then OverviewDistanceMobile else OverviewDistance)
    else Free
  }
}
