# portfolio-SN: a verified model of the page's state machine

The page is a single-screen 3D portfolio that plays a short story in phases:

- **beauty**: a planet and a YES button.
- **transition_out**: six seconds of silence.
- **threat_alert**: a four-second warning.
- **defense**: a mini-game. Each space bar press or touch destroys the live asteroid nearest the planet. Fifteen hits win.
- **victory**: four seconds.
- **intro**: a thank-you typewriter, a Continue button, then a bio.
- **explore**: a ring of category nodes circles the planet. Clicking a node turns the ring so the node comes to the front. It also opens an info panel and puts the category's items in orbit around the node.

This project models that core in Dafny:

- the phase machine of `App` and its timers;
- the switches each phase sets on the orbit controls, the camera and the Skip/Back/Close button;
- the `Typewriter`;
- the asteroid field's live ids, destroy-nearest operation and loop-back rule;
- the satellite ring's catalog, its angles, its shortest-way turn and the orbit plans of the sub-items.

Files:

| file | module | models |
|---|---|---|
| `common.dfy` | `Optional`, `Seqs` | an option type; `Array.prototype.filter` as `Filter`, with its lemmas |
| `asteroids.dfy` | `Asteroids` | `src/components/Asteroids.jsx` |
| `satellites.dfy` | `Satellites` | `src/components/Satellites.jsx` |
| `phases.dfy` | `Phases`, `Camera` | the per-phase props of `App` and the targets of `CameraController` |
| `typewriter.dfy` | `TextReveal` | the `Typewriter` component of `src/App.jsx` |
| `app.dfy` | `AppState` | the `App` component: phases, hits, explosions, intro steps, explore focus |

## Modelling conventions

- **Timers and events.** A timer callback is an explicit event, and each handler runs as one atomic step.
  - The 6000 ms callback scheduled by YES is never cleared, so it is a counter `silenceTimers`.
  - The two 4000 ms timers belong to effects keyed on `[phase]`. React re-runs those effects only when the phase value changes. So `SetPhase` clears and re-arms the timers only on a real change.
  - Each explosion's 2500 ms removal is recorded as its id in the multiset `expiryTimers`.
- **Meshes.** The asteroid meshes mounted at a call are a `map<nat, Vec3>` parameter from id to position. An id missing from the map has no mesh.
- **Distances.** They are compared as squared lengths. Lengths are non-negative, so the order is the same.
- **Angles.** They are real numbers in units of pi: `a` stands for `a * Math.PI` radians. This makes the layout's multiples of pi exact.
  - `Math.atan2(Math.sin(d), Math.cos(d))` is `NormalizedDiff`: the representative of `d` modulo a full turn in (-1, 1].
  - The idle spin of 0.2 rad/s is the one place where the double value of `Math.PI` appears.
- **Inputs.** `Date.now()` is the `now` parameter of `Fire`. `Math.random()` is the `u` parameter of `LoopBack`.
- **Event driver.** `AppState.Dispatch` routes any event to its handler. `AppState.Replay` runs an arbitrary sequence of events from a fresh page and its contract states the global properties at every step.

## Model

| member | source | states |
|---|---|---|
| Seqs.Filter | src/App.jsx:159 | `Array.prototype.filter`: the result holds only accepted elements of the input, and holds every accepted one |
| Phases.ControlsEnabled | src/App.jsx:564 | the orbit controls are on exactly in the phases that are not locked (threat_alert, defense) |
| Phases.ZoomEnabled | src/App.jsx:557 | zoom is allowed only where the controls are on, and exactly there except during transition_out |
| Phases.AutoRotate | src/App.jsx:560 | auto-rotation is on exactly in the zoomable phases other than explore |
| Phases.IsLockedPhase | src/App.jsx:52 | the locked phases are threat_alert and defense (a definition; its consequences are stated by `ControlsEnabled` and `CameraGoalFor`) |
| Phases.SkipOffered | src/App.jsx:574 | the button is never shown in the locked phases, in transition_out or in victory; in intro it is shown exactly on the thanks step |
| Phases.SkipLabel | src/App.jsx:586 | the button reads "Close" exactly in explore with a focus, "Back" exactly in explore without one, and "Skip" everywhere else |
| Camera.Shifted | src/App.jsx:33 | the view is shifted in intro and in explore with a focus (a definition; `ViewOffsetShape` states what it decides) |
| Camera.ViewOffsetTarget | src/App.jsx:29-39 | the offset target is zero unless in intro or explore-with-focus; then it is a quarter of the height up (width < 768) or a quarter of the width across |
| Camera.ViewOffsetShape | src/App.jsx:29-39 | for a real viewport the offset lies on one axis and is non-zero exactly when a panel is shown |
| Camera.CameraGoalFor | src/App.jsx:52-79 | the camera is held at the centre, at z = 14 with the controls off, exactly in the locked phases. In explore with a focus it approaches z = 32 on mobile and 20 otherwise. In explore without one it rescales its distance to 35 on mobile and 20 otherwise. It is free everywhere else |
| TextReveal.Prefix | src/App.jsx:92 | `text.slice(0, k)`: a prefix of the text, of length min(k, length) |
| TextReveal.PrefixGrows | src/App.jsx:91-94 | later frames extend earlier ones |
| TextReveal.Typewriter.constructor | src/App.jsx:87-90 | a mounted typewriter shows nothing, counter 0, interval installed |
| TextReveal.Typewriter.Tick | src/App.jsx:91-98 | one tick shows the next prefix and advances `i`; the interval stops and completion is reported exactly when `i` passes the length, with the full text shown; a stopped typewriter does not change |
| TextReveal.RevealAll | src/App.jsx:89-98 | from mounting, frame k shows the prefix of length k, there are length+1 frames until it stops, and completion is reported once, at tick length+1 |
| Asteroids.SqLength | src/components/Asteroids.jsx:81 | the squared distance from the planet is non-negative and zero at the origin |
| Asteroids.InitialIds | src/components/Asteroids.jsx:50-53 | the field starts with ids 0..19 in order, without duplicates |
| Asteroids.Without | src/components/Asteroids.jsx:94 | the filtered list no longer holds the destroyed id, holds every other live id, and holds nothing new |
| Asteroids.WithoutChosen | src/components/Asteroids.jsx:94 | filtering out a live id removes exactly that entry and keeps the rest in order, without duplicates |
| Asteroids.ClosestIndex | src/components/Asteroids.jsx:75-87 | the choice the scan has reached after the first n ids, where an id with a mesh replaces it only when strictly closer: any choice is one of those n positions and its id has a mesh (nearness and ties are stated by `ClosestIndexIsNearest`) |
| Asteroids.ClosestIndexIsNearest | src/components/Asteroids.jsx:75-87 | the forEach scan finds nothing iff no scanned id has a mesh; its choice is no farther than any scanned id with a mesh, and strictly closer than every earlier one |
| Asteroids.ClosestId | src/components/Asteroids.jsx:72-89 | no choice iff no live id has a mesh; otherwise the choice is a live id with a mesh |
| Asteroids.ClosestIdIsNearest | src/components/Asteroids.jsx:75-87 | the choice is nearest the planet, and ties go to the first in list order |
| Asteroids.FindClosest | src/components/Asteroids.jsx:75-87 | the imperative scan with `closest`/`minDistance` computes the scan's choice, and that choice is the nearest asteroid |
| Asteroids.AsteroidField.constructor | src/components/Asteroids.jsx:50-53 | a new field holds ids 0..19 |
| Asteroids.AsteroidField.DestroyAsteroid | src/components/Asteroids.jsx:71-97 | returns null and changes nothing when no live id has a mesh; otherwise returns the nearest asteroid's position and removes exactly that id |
| Asteroids.ShootEveryAsteroid | src/components/Asteroids.jsx:70-98 | on a fully mounted field, twenty shots each destroy an asteroid and the twenty-first finds none |
| Asteroids.Moved | src/components/Asteroids.jsx:19-20 | a step of 2*delta toward the planet: the distance drops by 2*delta when the step does not pass the origin, becomes 2*delta - d when it does, and a zero vector stays at zero |
| Asteroids.LoopBack | src/components/Asteroids.jsx:23-25 | an asteroid closer than 2.5 is sent back to exactly 15 + 5u, which lies in [15, 20); a farther one is untouched; one at the origin stays there |
| Asteroids.Advance | src/components/Asteroids.jsx:18-25 | after one frame the distance is at least 2.5, or exactly 0 |
| Asteroids.AdvanceKeepsDistance | src/components/Asteroids.jsx:18-25 | after a frame no asteroid is left inside the 2.5 radius, except one exactly at the origin |
| Satellites.Categories | src/components/Satellites.jsx:196 | `Object.keys(ACTION_DATA)`: the keys in declaration order |
| Satellites.Find | src/components/Satellites.jsx:235 | `ACTION_DATA[key]` is missing iff no entry has the key, and otherwise is the stored category |
| Satellites.Lookup | src/App.jsx:312 | the catalog has an entry exactly for each category in the ring |
| Satellites.CatalogShape | src/components/Satellites.jsx:6-91 | four categories, in this order, with 3, 12, 6 and 3 items |
| Satellites.EvenAngle | src/components/Satellites.jsx:229 | `(i / n) * 2pi` lies in [0, 2pi) |
| Satellites.EvenAnglesDistinct | src/components/Satellites.jsx:229 | node angles strictly increase with the index, by one step of 2pi/n each |
| Satellites.IndexOf | src/components/Satellites.jsx:208 | `indexOf`: -1 iff absent, otherwise the first position holding the value |
| Satellites.TargetRotation | src/components/Satellites.jsx:208-210 | for a category, the target cancels its node angle (node at the front) and lies in (-2pi, 0]; for anything else `indexOf` gives -1 and the target is 2pi/n |
| Satellites.NormalizedDiff | src/components/Satellites.jsx:214-216 | the normalized difference lies in (-pi, pi] and differs from `diff` by whole turns |
| Satellites.NormalizedDiffUnique | src/components/Satellites.jsx:214-216 | it is the unique representative of diff modulo a full turn in (-pi, pi] |
| Satellites.NormalizedDiffShortest | src/components/Satellites.jsx:214-216 | no angle that differs from diff by whole turns is smaller in size than the normalized difference, so the ring turns the shortest way round |
| Satellites.ShortestWayExample | src/components/Satellites.jsx:212-216 | from 0 to 3pi/2 the way round is -pi/2 |
| Satellites.DampedStepShrinks | src/components/Satellites.jsx:213-218 | for delta <= 1/4 one focused frame keeps the remaining way's sign and scales it by 1 - 4*delta: no overshoot |
| Satellites.FocusStep | src/components/Satellites.jsx:208-216 | the per-frame turn toward a focus is in (-pi, pi] and differs by whole turns from target minus rotation |
| Satellites.Ring.Frame | src/components/Satellites.jsx:198-222 | inactive: no change; with a focus: the damped shortest-way turn; without one: the idle spin of 0.2*delta |
| Satellites.Ring.constructor | src/components/Satellites.jsx:195 | a new ring starts at rotation 0 |
| Satellites.SkillsTilt | src/components/Satellites.jsx:269-271 | plane 0 horizontal, plane 1 at pi/2, later planes at pi/4, all about the x axis |
| Satellites.PlanFor | src/components/Satellites.jsx:249-283 | only Skills and Projects items get their own orbit angle; Projects items orbit at radius 2.5 and all others at 2; every tilt is a non-negative rotation about the x axis |
| Satellites.SubSatelliteAngle | src/components/Satellites.jsx:136 | an item's own orbit angle, else `index / total` of a turn |
| Satellites.SkillsPlan | src/components/Satellites.jsx:253-263 | a Skills item goes to plane idx/4, slot idx%4 a quarter-turn apart, plus pi/6 per plane, radius 2 |
| Satellites.ProjectsPlan | src/components/Satellites.jsx:272-283 | Projects items have radius 2.5, evenly spaced angles, and inclinations strictly increasing inside [0, pi) |
| Satellites.ProjectsPlanAt | src/components/Satellites.jsx:272-283 | the Projects plan of item i, in closed form |
| Satellites.OtherPlan | src/components/Satellites.jsx:249-251 | other categories: no tilt, radius 2, items evenly spaced by `SubSatellite` |
| Satellites.SubSatellitePlans | src/components/Satellites.jsx:247-299 | only the focused node mounts sub-satellites, one per item, each with its plan |
| Satellites.SkillsAtom | src/components/Satellites.jsx:253-271 | the 12 skills form three differently tilted planes of four; skill i sits at angle (i mod 4)/2 + (i div 4)/6 (in units of pi), so the four slots of a plane lie at distinct angles; no two skills share an orbit plan |
| AppState.WithoutExplosion | src/App.jsx:159 | after an expiry no explosion carries its id, every other explosion stays, and nothing new appears |
| AppState.ExpiryRemovesOnlyItsOwn | src/App.jsx:158-160 | an expiry removes exactly its own explosion and keeps the others in order |
| AppState.PanelShown | src/App.jsx:312 | the panel condition: explore, a focus, and a catalog entry for it (a definition; `PanelNeedsCatalogEntry` states what it decides) |
| AppState.PanelNeedsCatalogEntry | src/App.jsx:312 | the info panel is shown exactly in explore with a focus that is a category |
| AppState.App.constructor | src/App.jsx:111-122 | the page starts in beauty with no hits, no explosions, the thanks step, no focus, no timer pending, and a fresh field |
| AppState.App.SetPhase | src/App.jsx:138-145 | with the victory effect of src/App.jsx:193-200 alongside the threat-alert effect, a real phase change clears the pending 4000 ms timer and arms the new phase's own; setting the same phase changes no timer |
| AppState.App.YesClick | src/App.jsx:131-136 | YES in beauty enters transition_out and schedules one 6000 ms callback |
| AppState.App.SilenceElapsed | src/App.jsx:133-135 | the 6000 ms callback always sets threat_alert, and the invariant shows it only ever fires in transition_out |
| AppState.App.AlertElapsed | src/App.jsx:138-145 | the 4000 ms alert timer moves threat_alert to defense |
| AppState.App.VictoryElapsed | src/App.jsx:193-200 | the 4000 ms victory timer moves to intro, landing on the thanks step |
| AppState.App.Fire | src/App.jsx:148-172 | outside defense nothing happens. In defense a shot that finds an asteroid removes it, appends an explosion stamped `now`, schedules its removal and counts a hit. The fifteenth hit moves to victory and clears every explosion. A miss changes nothing |
| AppState.App.RecordHit | src/App.jsx:155-169 | the bookkeeping after a successful shot, including the victory rule |
| AppState.App.ExplosionExpired | src/App.jsx:158-160 | removing an explosion filters out its id and consumes its timer |
| AppState.App.ThanksTick | src/App.jsx:250-256 | the thanks typewriter ticks only while mounted and its interval runs. A tick shows the next prefix. A stopped or unmounted typewriter does not change. Its completion shows Continue |
| AppState.App.Continue | src/App.jsx:256-268 | Continue, once shown, moves to the bio |
| AppState.App.ExploreClick | src/App.jsx:303 | Explore on the bio enters explore with no focus |
| AppState.App.SelectCategory | src/components/Satellites.jsx:244 | a node click in explore focuses that category |
| AppState.App.SkipOrBack | src/App.jsx:575-585 | the button (whose Skip branch calls `handleSkip`, src/App.jsx:125-128) does nothing where it is not shown. In explore it closes the focus, or goes back to the bio. Elsewhere it skips to intro/bio |
| AppState.App.Dispatch | src/App.jsx:109-200 | every event keeps the invariant, never lowers the score, and never leaves intro/explore once reached |
| AppState.Replay | src/App.jsx:109-200 | over any event sequence from a fresh page, the phase starts at beauty and, once in intro or explore, stays there. The score never drops, never exceeds 15, and is 15 whenever victory is shown |
| AppState.NarrativeScenario | src/App.jsx:131-145 | YES, then silence, alert and defense; Skip is not offered during the silence |
| AppState.DefenseScenario | src/App.jsx:148-172 | fifteen shots on a fully mounted field give fifteen hits and victory, with no explosion on screen and five asteroids left |

`App.Valid` is the invariant every handler keeps:

- the silence timer is pending exactly in transition_out;
- each 4000 ms timer is pending exactly in its phase;
- hits are 0 before defense, below 15 during it, and 15 in victory;
- live asteroids + hits = 20;
- explosions exist only in defense, and each has a pending removal;
- before intro the thanks line has not started;
- a focus exists only in explore, and it is a category.

## Notes on the code

- **No code clears the 6000 ms timer.** `handleYesClick` keeps no handle to it (src/App.jsx:131-136). It still cannot go stale: Skip is not offered in transition_out, and the silence is the only way out of that phase. `App.Valid` records this: the callback is pending exactly in transition_out.
- **Entering intro does not set the intro step.** Victory → intro keeps the current step (src/App.jsx:193-200). The invariant shows that this step is always "thanks" on that path.
- **No code resets `hits`.** The round can be played only once.
- **An unknown focus.** `Satellites.TargetRotation` accepts any focus. `indexOf` gives -1 for a focus that is not a category, and the target is then 2pi/n. The model keeps that branch. It needs a non-empty category list, which the catalog has.

## Left out

- Rendering, lighting, post-processing, trails, `Planet`, `HologramData` and `Explosion` (visual only), the image modal and the contact toggle.
- The bio's typewriter ("Subhradip Nandi"): it is the same component with a different text, and nothing waits on it.
- Asteroid start positions (random spherical coordinates), the rotation of single meshes, and the trigonometric positions of nodes and sub-satellites. The model keeps the angles, tilts and radii they are computed from.
- Asteroids.Moved: follows the distance only, not the 3D vector. Moving along the unit vector toward the origin changes the distance and nothing else that the loop-back rule reads.
- The camera's per-frame lerps and the decay of the transition. Only their targets are modelled (`Camera`).
- The sub-satellites' time-driven orbit `angle + t`.
- Clock time. Timer delays are not measured; each callback is an event that fires when it fires.
- Installing and removing the key and touch listeners. `Fire` is a no-op outside defense, which is what the listeners' presence decides.
- React batching and stale closures. A second shot within one render would see the same `activeIds`. Handlers here are atomic, so each shot sees the state the previous one left.
- Satellites.Ring.Frame: when the ring is hidden, the group unmounts and comes back with rotation 0. The model keeps the rotation across that, and does not model the remount.
- `showContinue` is never reset in the source, and the model keeps it set too. It is read only on the thanks step (src/App.jsx:256), and no code returns the step to thanks, so the stale value is never read.
- Floating point. All arithmetic is exact real arithmetic. `NormalizedDiff` maps an exact half-turn to +pi, which is what `atan2(0, -1)` gives. Rounding near that point may give -pi in the double computation.
- TextReveal.Typewriter: unmounting the line (Skip or Continue) also clears its interval in the source (src/App.jsx:99). The model leaves `running` as it was, because `ThanksTick` acts only while the line is mounted and the line is never remounted.
- TextReveal.Prefix: JavaScript's `slice` counts UTF-16 code units, and a Dafny `string` counts Unicode scalar values. Both typewriter texts are ASCII, where the two agree.
