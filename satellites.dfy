/** The satellite ring of the explore phase: the content catalog, the ring
    angles of the categories, the rotation that brings the focused category to
    the front, and the orbit plan of the focused category's sub-items.

    Every angle is a real number in UNITS OF PI: the value `a` stands for the
    angle `a * Math.PI` radians, so the layout's rational multiples of pi are
    exact. */
module Satellites {
  import opened Optional

  datatype Item = Item(
    name: string,
    color: string,
    detail: Option<string>,
    externalLink: Option<string>,
    link: Option<string>,
    linkLabel: Option<string>)

  datatype Category = Category(color: string, description: Option<string>, items: seq<Item>)

  function Plain(name: string, color: string): (item: Item)
    ensures item.name == name && item.color == color
    ensures item.externalLink.None? && item.link.None?
  {
    Item(name, color, None, None, None, None)
  }

  function Linked(name: string, color: string, externalLink: string): (item: Item)
    ensures item.name == name && item.color == color
    ensures item.externalLink == Some(externalLink) && item.link.None?
  {
    Item(name, color, None, Some(externalLink), None, None)
  }

  const Internships: Category := Category("#ff88aa", None, [
    Item("Intern \U{2014} MNNIT Allahabad", "#ff88aa",
      Some("Project: Swarm-based Node Localization in IoT WSNs\nJune 2025 \U{2014} July 2025"),
      Some("https://github.com/codingplugin/NL-Simulation-research"),
      Some("/MNNIT-certificate.jpg"), Some("View Certificate")),
    Item("Intern \U{2014} IIT Patna", "#ff88aa",
      Some("Project: Lightweight Satellite Air Quality Forecasting via Knowledge Distillation\nJan 2025 \U{2014} June 2025"),
      Some("https://github.com/codingplugin/ML-Air-Pollution"),
      Some("/iitpcertificate.jpg"), Some("View Certificate")),
    Item("Intern \U{2014} Tripura University", "#ff88aa",
      Some("Project: Real-time Hand Mudra Recognition via Skeletal Landmark Detection\nJune 2024 \U{2014} July 2024"),
      None,
      Some("/TU-Certificate.jpg"), Some("View Certificate"))
  ])

  const Skills: Category := Category("#88aaff", None, [
    Plain("Python", "#88aaff"), Plain("C++", "#88aaff"), Plain("HTML/CSS", "#88aaff"),
    Plain("JavaScript", "#88aaff"), Plain("React", "#88aaff"), Plain("Node.js", "#88aaff"),
    Plain("MongoDB", "#88aaff"), Plain("MySQL", "#88aaff"), Plain("Machine Learning", "#88aaff"),
    Plain("System Design", "#88aaff"), Plain("Prompt Eng.", "#88aaff"), Plain("AI Tools", "#88aaff")
  ])

  const Projects: Category := Category("#aaff88", Some("A showcase of my projects."), [
    Linked("Portfolio Website", "#aaff88", "https://github.com/codingplugin/portfolio-SN"),
    Linked("AI-Photo-Share", "#aaff88", "https://github.com/codingplugin/AI-Photo-Share"),
    Linked("NodeLocalization", "#aaff88", "https://nl-simulation.onrender.com/"),
    Linked("VoiceFlow", "#aaff88", "https://voiceflow-z45v.onrender.com/"),
    Linked("Document Scanner", "#aaff88", "https://github.com/pranavupadhyay123/Document-Scanner"),
    Linked("Air Pollutant prediction", "#aaff88", "https://github.com/codingplugin/ML-Air-Pollution")
  ])

  const Education: Category := Category("#ffff88", Some(""), [
    Item("B.Tech", "#ffff88",
      Some("B.Tech in Computer Science & Engineering\nNorth Eastern Regional Institute of Science and Technology (NERIST)\n2022-2026\nCGPA: 8.16"),
      None, None, None),
    Item("Class 12", "#ffff88", Some("CBSE Board\nScore: 86.8%"), None,
      Some("/class12.jpg"), Some("View Class 12 Marksheet")),
    Item("Class 10", "#ffff88", Some("TBSE Board\nScore: 88.8%"), None,
      Some("/class10.jpg"), Some("View Class 10 Marksheet"))
  ])

  /** `ACTION_DATA`, in key order (the order `Object.keys` reports). */
  const ActionData: seq<(string, Category)> := [
    ("Internships", Internships), ("Skills", Skills), ("Projects", Projects), ("Education", Education)
  ]

  /** `Object.keys(ACTION_DATA)`. */
  function Categories(): (cats: seq<string>)
    ensures |cats| == |ActionData|
    ensures forall i :: 0 <= i < |cats| ==> cats[i] == ActionData[i].0
  {
    seq(|ActionData|, i requires 0 <= i < |ActionData| => ActionData[i].0)
  }

  /** `data[key]`: the category stored under `key`, or none. */
  function Find(data: seq<(string, Category)>, key: string): (r: Option<Category>)
    ensures r.None? <==> forall i :: 0 <= i < |data| ==> data[i].0 != key
    ensures r.Some? ==> exists i :: 0 <= i < |data| && data[i] == (key, r.value)
  {
    if data == [] then None
    else if data[0].0 == key then
      assert data[0] == (key, data[0].1);
      Some(data[0].1)
    else
      var r := Find(data[1..], key);
      assert forall i :: 0 < i < |data| ==> data[i] == data[1..][i - 1];
      r
  }

  function Lookup(key: string): (r: Option<Category>)
    ensures r.Some? <==> key in Categories()
  {
    Find(ActionData, key)
  }

  /** The catalog as the page shows it: four categories, in this order, with
      3, 12, 6 and 3 items. */
  lemma CatalogShape()
    ensures Categories() == ["Internships", "Skills", "Projects", "Education"]
    ensures Lookup("Internships") == Some(Internships) && |Internships.items| == 3
    ensures Lookup("Skills") == Some(Skills) && |Skills.items| == 12
    ensures Lookup("Projects") == Some(Projects) && |Projects.items| == 6
    ensures Lookup("Education") == Some(Education) && |Education.items| == 3
  {
  }

  // ---------------------------------------------------------------- ring angles

  /** Position `i` of `n` spaced evenly around a full turn: `(i / n) * Math.PI * 2`.
      The ring uses it for the categories and `SubSatellite` for items that
      have no orbit angle of their own. */
  function EvenAngle(i: nat, n: nat): (a: real)
    requires i < n
    ensures 0.0 <= a < 2.0
  {
    (i as real) / (n as real) * 2.0
  }

  /** Distinct positions get distinct angles, and angles grow with the
      position by exactly one step of `2 / n`. */
  lemma EvenAnglesDistinct(i: nat, j: nat, n: nat)
    requires i < j < n
    ensures EvenAngle(i, n) < EvenAngle(j, n)
    ensures EvenAngle(j, n) - EvenAngle(i, n) == (j - i) as real * (2.0 / n as real)
  {
    var N := n as real;
    assert (i as real) / N < (j as real) / N by {
      assert (j as real) / N - (i as real) / N == ((j - i) as real) / N;
    }
  }

  /** `Array.prototype.indexOf`: the first position of `x`, or -1. */
  function IndexOf(s: seq<string>, x: string): (k: int)
    ensures -1 <= k < |s|
    ensures k == -1 <==> x !in s
    ensures 0 <= k ==> s[k] == x && forall j :: 0 <= j < k ==> s[j] != x
  {
    if s == [] then -1
    else if s[0] == x then 0
    else
      var k := IndexOf(s[1..], x);
      if k == -1 then -1 else k + 1
  }

  /** `targetRot = -itemAngle`, with the item angle computed from
      `categories.indexOf(focus)`: the rotation that puts the focused node at
      angle 0 (the front). A focus that is not a category gives index -1 and
      so the rotation `2 / n`. */
  function TargetRotation(categories: seq<string>, focus: string): (t: real)
    requires |categories| > 0
    ensures focus in categories ==>
      t + EvenAngle(IndexOf(categories, focus), |categories|) == 0.0 && -2.0 < t <= 0.0
    ensures focus !in categories ==> t == 2.0 / |categories| as real
  {
    -((IndexOf(categories, focus) as real) / (|categories| as real) * 2.0)
  }

  /** `diff / 2` is a whole number: `diff` is a whole number of turns. */
  ghost predicate WholeTurns(diff: real) {
    (diff / 2.0).Floor as real == diff / 2.0
  }

  /** `Math.atan2(Math.sin(diff), Math.cos(diff))`: the angle equal to `diff`
      modulo a full turn that lies in (-1, 1] (with exact sine and cosine,
      `atan2(0, -1)` is pi, so the half-turn maps to +1). */
  function NormalizedDiff(diff: real): (r: real)
    ensures -1.0 < r <= 1.0
    ensures WholeTurns(diff - r)
  {
    var turns := -((1.0 - diff) / 2.0).Floor;
    diff - 2.0 * turns as real
  }

  /** The normalized difference is the ONLY angle in (-1, 1] that differs
      from `diff` by whole turns. */
  lemma NormalizedDiffUnique(diff: real, r: real)
    requires -1.0 < r <= 1.0
    requires WholeTurns(diff - r)
    ensures r == NormalizedDiff(diff)
  {
    var n := NormalizedDiff(diff);
    var a := ((diff - r) / 2.0).Floor;
    var b := ((diff - n) / 2.0).Floor;
    assert n - r == 2.0 * (a - b) as real;
    assert -1 < a - b < 1;
  }

  /** The size of an angle, in units of pi. */
  function Magnitude(x: real): (m: real)
    ensures m >= 0.0 && (m == x || m == -x)
  {
    if x < 0.0 then -x else x
  }

  /** No angle that differs from `diff` by whole turns is smaller than the
      normalized difference: the focus rotation takes the shortest way round. */
  lemma {:induction false} NormalizedDiffShortest(diff: real, r: real)
    requires WholeTurns(diff - r)
    ensures Magnitude(NormalizedDiff(diff)) <= Magnitude(r)
  {
    var n := NormalizedDiff(diff);
    var a := ((diff - r) / 2.0).Floor;
    var b := ((diff - n) / 2.0).Floor;
    assert r - n == 2.0 * (b - a) as real;
    if b - a >= 1 {
      assert r > 1.0;
    } else if b - a <= -1 {
      assert r <= -1.0;
    }
  }

  /** A worked example: from rotation 0 to target 3/2 (that is,
      3 pi / 2) the way round is -1/2, not +3/2. */
  lemma ShortestWayExample()
    ensures NormalizedDiff(1.5 - 0.0) == -0.5
  {
  }

  /** `Math.PI` as a double, needed only for the idle spin, which the source
      gives in radians per second. */
  const MathPi: real := 3.141592653589793
  /** Idle spin of the ring: 0.2 rad per second, in units of pi. */
  const IdleRate: real := 0.2 / MathPi
  /** Damping factor of the turn toward the focus. */
  const FocusRate: real := 4.0

  /** One damped step toward the target: when a frame is no longer than a
      quarter second, the remaining way round keeps its sign and shrinks by the
      factor `1 - 4 * delta`, so the ring never overshoots and never snaps. */
  lemma DampedStepShrinks(target: real, current: real, delta: real)
    requires 0.0 <= delta && FocusRate * delta <= 1.0
    ensures var step := NormalizedDiff(target - current);
      NormalizedDiff(target - (current + step * delta * FocusRate)) == step * (1.0 - FocusRate * delta)
  {
    DampedStep(target, current, NormalizedDiff(target - current), delta);
  }

  lemma DampedStep(target: real, current: real, step: real, delta: real)
    requires 0.0 <= delta && FocusRate * delta <= 1.0
    requires -1.0 < step <= 1.0 && WholeTurns(target - current - step)
    ensures NormalizedDiff(target - (current + step * delta * FocusRate)) == step * (1.0 - FocusRate * delta)
  {
    var keep := 1.0 - FocusRate * delta;
    var rest := step * keep;
    var next := target - (current + step * delta * FocusRate);
    assert next - rest == target - current - step by {
      assert step * delta * FocusRate + step * keep == step * (delta * FocusRate + keep);
    }
    ScaleWithin(step, keep);
    NormalizedDiffUnique(next, rest);
  }

  /** Scaling by a factor in [0, 1] keeps a value in (-1, 1]. */
  lemma ScaleWithin(a: real, f: real)
    requires -1.0 < a <= 1.0 && 0.0 <= f <= 1.0
    ensures -1.0 < a * f <= 1.0
  {
    if a >= 0.0 {
      assert a * f <= a * 1.0;
    } else {
      assert a * f >= a * 1.0;
    }
  }

  /** The turn per unit of damping that one frame applies toward the focus
      `key`: the shortest signed way from `rotation` to the focus's target. */
  function FocusStep(rotation: real, key: string): (step: real)
    ensures -1.0 < step <= 1.0
    ensures WholeTurns(TargetRotation(Categories(), key) - rotation - step)
  {
    NormalizedDiff(TargetRotation(Categories(), key) - rotation)
  }

  /** The group rotation `groupRef.current.rotation.y`, changed in place by
      the frame callback of `Satellites`. */
  class Ring {
    var rotation: real

    constructor ()
      ensures rotation == 0.0
    {
      rotation := 0.0;
    }

    /** One frame of `useFrame`: nothing while the ring is inactive; with a
        focus, a damped turn along the shortest way toward the focus; without
        one, the idle spin. */
    method Frame(active: bool, focus: Option<string>, delta: real)
      modifies this
      ensures !active ==> rotation == old(rotation)
      ensures active && focus.Some? ==>
        rotation == old(rotation) + FocusStep(old(rotation), focus.value) * delta * FocusRate
      ensures active && focus.None? ==> rotation == old(rotation) + IdleRate * delta
    {
      if !active {
        return;
      }
      if focus.Some? {
        var step := FocusStep(rotation, focus.value);
        rotation := rotation + step * delta * FocusRate;
      } else {
        rotation := rotation + IdleRate * delta;
      }
    }
  }

  // ---------------------------------------------------------- sub-item orbits

  /** Euler tilt of an item's orbit plane, in units of pi. */
  datatype Tilt = Tilt(x: real, y: real, z: real)

  /** The props `Satellites` passes to one `SubSatellite`. */
  datatype OrbitPlan = OrbitPlan(tilt: Tilt, orbitAngle: Option<real>, radius: real)

  const ItemsPerPlane: nat := 4
  const DefaultRadius: real := 2.0
  const ProjectsRadius: real := 2.5

  /** Tilt of the Skills planes: horizontal, vertical, then diagonal for
      every later plane. */
  function SkillsTilt(plane: nat): (t: Tilt)
    ensures t.y == 0.0 && t.z == 0.0
    ensures plane == 0 ==> t.x == 0.0
    ensures plane == 1 ==> t.x == 0.5
    ensures plane >= 2 ==> t.x == 0.25
  {
    if plane == 0 then Tilt(0.0, 0.0, 0.0)
    else if plane == 1 then Tilt(0.5, 0.0, 0.0)
    else Tilt(0.25, 0.0, 0.0)
  }

  /** The orbit plan of item `idx` of the `count` items of category `cat`. */
  function PlanFor(cat: string, idx: nat, count: nat): (plan: OrbitPlan)
    requires idx < count
    ensures plan.orbitAngle.None? <==> cat != "Skills" && cat != "Projects"
    ensures plan.radius == (if cat == "Projects" then ProjectsRadius else DefaultRadius)
    ensures plan.tilt.y == 0.0 && plan.tilt.z == 0.0 && 0.0 <= plan.tilt.x
  {
    if cat == "Skills" then
      var planeIdx := idx / ItemsPerPlane;
      var itemInPlaneIdx := idx % ItemsPerPlane;
      OrbitPlan(SkillsTilt(planeIdx),
                Some((itemInPlaneIdx as real) / (ItemsPerPlane as real) * 2.0 + (planeIdx as real) * (1.0 / 6.0)),
                DefaultRadius)
    else if cat == "Projects" then
      var inclination := (idx as real) * (1.0 / count as real);
      OrbitPlan(Tilt(inclination, 0.0, 0.0), Some((idx as real) * (2.0 / count as real)), ProjectsRadius)
    else
      OrbitPlan(Tilt(0.0, 0.0, 0.0), None, DefaultRadius)
  }

  /** `SubSatellite`'s angle: its own orbit angle, else `index / total` of a turn. */
  function SubSatelliteAngle(index: nat, total: nat, orbitAngle: Option<real>): (a: real)
    requires index < total
    ensures orbitAngle.None? ==> a == EvenAngle(index, total)
    ensures orbitAngle.Some? ==> a == orbitAngle.value
  {
    if orbitAngle.Some? then orbitAngle.value else EvenAngle(index, total)
  }

  /** Skills: item `idx` goes to plane `idx / 4` at slot `idx % 4`; the slot
      is a quarter turn apart from its neighbours, each plane is offset by
      pi/6, and the radius is 2. */
  lemma SkillsPlan(idx: nat, count: nat)
    requires idx < count
    ensures var p := PlanFor("Skills", idx, count);
      && p.tilt == SkillsTilt(idx / ItemsPerPlane)
      && p.orbitAngle == Some(EvenAngle(idx % ItemsPerPlane, ItemsPerPlane) + (idx / ItemsPerPlane) as real / 6.0)
      && p.orbitAngle == Some((idx % ItemsPerPlane) as real / 2.0 + (idx / ItemsPerPlane) as real / 6.0)
      && p.radius == 2.0
  {
  }

  /** Projects: inclination `idx / count` and angle `idx * 2 / count`, radius
      2.5. The angle is the even spacing of a full turn; inclinations strictly
      increase with the index and stay in [0, 1) (that is, [0, pi)). */
  lemma ProjectsPlan(i: nat, j: nat, count: nat)
    requires i < j < count
    ensures var p, q := PlanFor("Projects", i, count), PlanFor("Projects", j, count);
      && p.radius == ProjectsRadius && p.tilt.y == 0.0 && p.tilt.z == 0.0
      && p.orbitAngle == Some(EvenAngle(i, count))
      && 0.0 <= p.tilt.x < q.tilt.x < 1.0
  {
    var N := count as real;
    ProjectsPlanAt(i, count);
    ProjectsPlanAt(j, count);
    EvenAnglesDistinct(i, j, count);
    assert (j as real) / N < 1.0;
  }

  lemma ProjectsPlanAt(i: nat, count: nat)
    requires i < count
    ensures PlanFor("Projects", i, count) ==
      OrbitPlan(Tilt((i as real) / (count as real), 0.0, 0.0), Some(EvenAngle(i, count)), ProjectsRadius)
  {
    var N := count as real;
    assert (i as real) * (1.0 / N) == (i as real) / N;
    assert (i as real) * (2.0 / N) == (i as real) / N * 2.0;
    var p := PlanFor("Projects", i, count);
    assert p.radius == ProjectsRadius;
    assert p.tilt == Tilt((i as real) * (1.0 / N), 0.0, 0.0);
    assert p.orbitAngle.Some?;
    assert p.orbitAngle.value == (i as real) * (2.0 / N);
  }

  /** Every other category: no tilt, radius 2 and no orbit angle of its own,
      so `SubSatellite` spaces the items evenly around a full turn. */
  lemma OtherPlan(cat: string, idx: nat, count: nat)
    requires idx < count && cat != "Skills" && cat != "Projects"
    ensures var p := PlanFor(cat, idx, count);
      && p.tilt == Tilt(0.0, 0.0, 0.0) && p.radius == DefaultRadius && p.orbitAngle.None?
      && SubSatelliteAngle(idx, count, p.orbitAngle) == EvenAngle(idx, count)
  {
  }

  /** The sub-satellites `SatelliteNode` mounts for category `cat`: the plans
      of all its items when it is the focused one, and none otherwise. */
  function SubSatellitePlans(cat: string, focus: Option<string>, items: seq<Item>): (plans: seq<OrbitPlan>)
    ensures focus != Some(cat) ==> plans == []
    ensures focus == Some(cat) ==> |plans| == |items|
    ensures forall i :: 0 <= i < |plans| ==> plans[i] == PlanFor(cat, i, |items|)
  {
    if focus == Some(cat) then
      seq(|items|, i requires 0 <= i < |items| => PlanFor(cat, i, |items|))
    else []
  }

  /** The twelve catalog skills form an atom: three planes of four, index
      `4p .. 4p+3` in plane `p`, the three planes tilted differently and
      offset by distinct angles, the four slots of a plane at distinct angles,
      and no two skills share an orbit plan. */
  lemma SkillsAtom()
    ensures var plans := SubSatellitePlans("Skills", Some("Skills"), Skills.items);
      && |plans| == 12
      && (forall i :: 0 <= i < 12 ==> plans[i].tilt == SkillsTilt(i / 4) && i / 4 < 3)
      && SkillsTilt(0) != SkillsTilt(1) && SkillsTilt(1) != SkillsTilt(2) && SkillsTilt(0) != SkillsTilt(2)
      && (forall i :: 0 <= i < 12 ==> plans[i].orbitAngle == Some((i % 4) as real / 2.0 + (i / 4) as real / 6.0))
      && (forall i, j :: 0 <= i < j < 12 && i / 4 == j / 4 ==> plans[i].orbitAngle != plans[j].orbitAngle)
      && (forall i, j :: 0 <= i < j < 12 ==> plans[i] != plans[j])
  {
    var plans := SubSatellitePlans("Skills", Some("Skills"), Skills.items);
    assert |Skills.items| == 12;
    forall i | 0 <= i < 12
      ensures plans[i].orbitAngle == Some((i % 4) as real / 2.0 + (i / 4) as real / 6.0)
    {
      SkillsPlan(i, 12);
    }
    forall i, j | 0 <= i < j < 12 ensures plans[i] != plans[j] {
      SkillsPlan(i, 12);
      SkillsPlan(j, 12);
      if i / 4 == j / 4 {
        assert i % 4 != j % 4;
        assert plans[i].orbitAngle != plans[j].orbitAngle;
      } else {
        assert plans[i].tilt != plans[j].tilt;
      }
    }
  }
}
