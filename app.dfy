/** The `App` component: the phase machine that runs the narrative, the
    defense mini-game and the explore mode. Timers are explicit "timer fires"
    events, and the handlers are atomic steps taken one at a time. */
module AppState {
  import opened Optional
  import opened Phases
  import opened Seqs
  import Asteroids
  import Satellites
  import TextReveal

  /** Hits that end the defense round. */
  const VictoryHits: nat := 15
  /** The text of the thank-you typewriter in intro. */
  const ThanksText: string := "Thank you for saving my home"

  /** One entry of the `explosions` list: `Date.now()` at the shot and the
      position of the destroyed asteroid. */
  datatype Explosion = Explosion(id: int, pos: Asteroids.Vec3)

  /** The test of `prevExp.filter(ex => ex.id !== newExplosion.id)`. */
  function OtherId(id: int): (keep: Explosion -> bool)
    ensures forall e :: keep(e) == (e.id != id)
  {
    (e: Explosion) => e.id != id
  }

  /** The explosion list once the removal timer of explosion `id` has run. */
  function WithoutExplosion(xs: seq<Explosion>, id: int): (r: seq<Explosion>)
    ensures |r| <= |xs|
    ensures forall i :: 0 <= i < |r| ==> r[i] in xs && r[i].id != id
    ensures forall i :: 0 <= i < |xs| && xs[i].id != id ==> xs[i] in r
  {
    Filter(xs, OtherId(id))
  }

  /** An expiry removes every explosion carrying its id and leaves the others
      in order; when the id is carried once, exactly that entry goes. */
  lemma ExpiryRemovesOnlyItsOwn(before: seq<Explosion>, e: Explosion, after: seq<Explosion>)
    requires forall i :: 0 <= i < |before| ==> before[i].id != e.id
    requires forall i :: 0 <= i < |after| ==> after[i].id != e.id
    ensures WithoutExplosion(before + [e] + after, e.id) == before + after
    ensures forall x :: x in WithoutExplosion(before + [e] + after, e.id) ==> x.id != e.id
  {
    assert forall x :: x in before ==> OtherId(e.id)(x);
    assert forall x :: x in after ==> OtherId(e.id)(x);
    FilterDropsOne(before, e, after, OtherId(e.id));
  }

  /** The info panel of explore is shown only for a focus that has a catalog entry. */
  predicate PanelShown(phase: Phase, focus: Option<string>) {
    phase == Explore && focus.Some? && Satellites.Lookup(focus.value).Some?
  }

  lemma PanelNeedsCatalogEntry(phase: Phase, focus: Option<string>)
    ensures PanelShown(phase, focus) <==>
      phase == Explore && focus.Some? && focus.value in Satellites.Categories()
    ensures focus.Some? && focus.value !in Satellites.Categories() ==> !PanelShown(phase, focus)
  {
  }

  /** A user action or a timer callback. */
  datatype Event =
    | YesClicked
    | SilenceTimer
    | AlertTimer
    | VictoryTimer
    | FirePressed(meshes: map<nat, Asteroids.Vec3>, now: int)
    | ExplosionTimer(id: int)
    | TypewriterTick
    | ContinueClicked
    | ExploreClicked
    | NodeClicked(cat: string)
    | SkipClicked

  class App {
    var phase: Phase
    var hits: nat
    var explosions: seq<Explosion>
    var introStep: IntroStep
    var showContinue: bool
    var exploreFocus: Option<string>
    /** Pending 6000 ms callbacks scheduled by YES; nothing ever clears them. */
    var silenceTimers: nat
    /** The 4000 ms timer of the threat-alert effect is pending. */
    var alertTimer: bool
    /** The 4000 ms timer of the victory effect is pending. */
    var victoryTimer: bool
    /** Ids of the pending 2500 ms explosion removals. */
    var expiryTimers: multiset<int>
    /** The asteroid field, mounted for the whole session. */
    const field: Asteroids.AsteroidField
    /** The typewriter of the thank-you line. */
    const thanks: TextReveal.Typewriter

    /** Intro and explore: once entered, the experience never leaves them. */
    ghost predicate Settled()
      reads this
    {
      phase == Intro || phase == Explore
    }

    ghost predicate Valid()
      reads this, field, thanks
    {
      PhaseValid() && ScoreValid() && IntroValid()
    }

    /** The timers, the focus and the explosion list agree with the phase. */
    ghost predicate PhaseValid()
      reads this
    {
      // only explore has a focus, and it is always a category
      && (exploreFocus.Some? ==> phase == Explore && exploreFocus.value in Satellites.Categories())
      // the silence timer is pending exactly during the silence
      && silenceTimers == (if phase == TransitionOut then 1 else 0)
      && (alertTimer <==> phase == ThreatAlert)
      && (victoryTimer <==> phase == Victory)
      // explosions exist only during the round, and each has a pending removal
      && (explosions != [] ==> phase == Defense)
      && (forall i :: 0 <= i < |explosions| ==> explosions[i].id in expiryTimers)
      && (phase == Explore ==> introStep == Bio)
    }

    /** The score agrees with the phase and with the asteroids left. */
    ghost predicate ScoreValid()
      reads this, field
    {
      && field.Valid()
      && hits <= VictoryHits
      && (phase in {Beauty, TransitionOut, ThreatAlert} ==> hits == 0)
      && (phase == Defense ==> hits < VictoryHits)
      && (phase == Victory ==> hits == VictoryHits)
      && (Settled() ==> hits == 0 || hits == VictoryHits)
      && |field.activeIds| + hits == Asteroids.FieldSize
    }

    /** Before intro the thank-you line has not started; Continue is shown
        only once it has finished. */
    ghost predicate IntroValid()
      reads this, thanks
    {
      && thanks.Valid() && thanks.text == ThanksText
      && (!Settled() ==> introStep == Thanks && thanks.i == 0 && !showContinue)
      && (showContinue ==> !thanks.running)
    }

    constructor ()
      ensures Valid() && fresh(field) && fresh(thanks)
      ensures phase == Beauty && hits == 0 && explosions == []
      ensures introStep == Thanks && !showContinue && exploreFocus == None
      ensures silenceTimers == 0 && !alertTimer && !victoryTimer && expiryTimers == multiset{}
      ensures field.activeIds == Asteroids.InitialIds()
    {
      phase := Beauty;
      hits := 0;
      explosions := [];
      introStep := Thanks;
      showContinue := false;
      exploreFocus := None;
      silenceTimers := 0;
      alertTimer := false;
      victoryTimer := false;
      expiryTimers := multiset{};
      field := new Asteroids.AsteroidField();
      thanks := new TextReveal.Typewriter(ThanksText);
    }

    /** `setPhase`, followed by the `[phase]` effects: when the value changes,
        the cleanup clears the pending 4000 ms timer, and the new phase arms
        its own if it is threat-alert or victory. */
    method SetPhase(p: Phase)
      modifies this`phase, this`alertTimer, this`victoryTimer
      ensures phase == p
      ensures p != old(phase) ==> alertTimer == (p == ThreatAlert) && victoryTimer == (p == Victory)
      ensures p == old(phase) ==> alertTimer == old(alertTimer) && victoryTimer == old(victoryTimer)
    {
      if p != phase {
        phase := p;
        alertTimer := p == ThreatAlert;
        victoryTimer := p == Victory;
      }
    }

    /** YES, shown only in beauty: start the silence and schedule its end. */
    method YesClick()
      requires Valid()
      modifies this`phase, this`alertTimer, this`victoryTimer, this`silenceTimers
      ensures Valid()
      ensures old(phase) == Beauty ==> phase == TransitionOut && silenceTimers == old(silenceTimers) + 1
      ensures old(phase) != Beauty ==> phase == old(phase) && silenceTimers == old(silenceTimers)
    {
      if phase == Beauty {
        SetPhase(TransitionOut);
        silenceTimers := silenceTimers + 1;
      }
    }

    /** The 6000 ms callback: `setPhase('threat_alert')`, with no guard. */
    method SilenceElapsed()
      requires Valid()
      modifies this`phase, this`alertTimer, this`victoryTimer, this`silenceTimers
      ensures Valid()
      ensures old(silenceTimers) > 0 ==>
        old(phase) == TransitionOut && phase == ThreatAlert && alertTimer && silenceTimers == old(silenceTimers) - 1
      ensures old(silenceTimers) == 0 ==> phase == old(phase) && silenceTimers == 0
    {
      if silenceTimers > 0 {
        silenceTimers := silenceTimers - 1;
        SetPhase(ThreatAlert);
      }
    }

    /** The 4000 ms callback of threat-alert, if it was not cleared by a phase change. */
    method AlertElapsed()
      requires Valid()
      modifies this`phase, this`alertTimer, this`victoryTimer
      ensures Valid()
      ensures old(alertTimer) ==> old(phase) == ThreatAlert && phase == Defense && !alertTimer
      ensures !old(alertTimer) ==> phase == old(phase)
    {
      if alertTimer {
        SetPhase(Defense);
      }
    }

    /** The 4000 ms callback of victory: intro, with the intro step left as it was. */
    method VictoryElapsed()
      requires Valid()
      modifies this`phase, this`alertTimer, this`victoryTimer
      ensures Valid()
      ensures old(victoryTimer) ==> old(phase) == Victory && phase == Intro && introStep == Thanks && !victoryTimer
      ensures !old(victoryTimer) ==> phase == old(phase)
    {
      if victoryTimer {
        SetPhase(Intro);
      }
    }

    /** `fireWeapon`, installed only in defense: destroy the nearest
        asteroid; on success append an explosion stamped `now`, schedule its
        removal and count the hit; the fifteenth hit ends the round and clears
        every explosion at once. */
    method Fire(meshes: map<nat, Asteroids.Vec3>, now: int) returns (spawned: Option<Asteroids.Vec3>)
      requires Valid()
      modifies this`phase, this`alertTimer, this`victoryTimer, this`hits, this`explosions, this`expiryTimers, field
      ensures Valid()
      ensures old(phase) != Defense ==> spawned.None?
      ensures old(phase) == Defense ==>
        spawned.Some? == Asteroids.ClosestId(old(field.activeIds), meshes).Some?
      ensures spawned.None? ==>
        && phase == old(phase) && hits == old(hits) && explosions == old(explosions)
        && expiryTimers == old(expiryTimers) && field.activeIds == old(field.activeIds)
      ensures spawned.Some? ==>
        var c := Asteroids.ClosestId(old(field.activeIds), meshes);
        && c.Some? && spawned == Some(meshes[c.value])
        && field.activeIds == Asteroids.Without(old(field.activeIds), c.value)
        && hits == old(hits) + 1
        && expiryTimers == old(expiryTimers) + multiset{now}
        && (hits < VictoryHits ==> phase == Defense && explosions == old(explosions) + [Explosion(now, spawned.value)])
        && (hits == VictoryHits ==> phase == Victory && victoryTimer && explosions == [])
    {
      if phase != Defense {
        return None;
      }
      spawned := field.DestroyAsteroid(meshes);
      if spawned.Some? {
        RecordHit(spawned.value, now);
      }
    }

    /** The bookkeeping of a successful shot, once the asteroid is gone:
        the explosion and its removal timer, and the hit that may end the round. */
    method RecordHit(pos: Asteroids.Vec3, now: int)
      requires PhaseValid() && IntroValid() && field.Valid()
      requires phase == Defense && hits < VictoryHits && |field.activeIds| + hits + 1 == Asteroids.FieldSize
      modifies this`phase, this`alertTimer, this`victoryTimer, this`hits, this`explosions, this`expiryTimers
      ensures Valid()
      ensures hits == old(hits) + 1
      ensures expiryTimers == old(expiryTimers) + multiset{now}
      ensures hits < VictoryHits ==> phase == Defense && explosions == old(explosions) + [Explosion(now, pos)]
      ensures hits == VictoryHits ==> phase == Victory && victoryTimer && explosions == []
    {
      var newExplosion := Explosion(now, pos);
      ghost var before := explosions;
      explosions := explosions + [newExplosion];
      expiryTimers := expiryTimers + multiset{now};
      forall i | 0 <= i < |explosions| ensures explosions[i].id in expiryTimers {
        if i < |before| {
          assert explosions[i] == before[i];
        }
      }
      var newHits := hits + 1;
      if newHits >= VictoryHits {
        SetPhase(Victory);
        explosions := [];
      }
      hits := newHits;
    }

    /** The 2500 ms removal of explosion `id`. */
    method ExplosionExpired(id: int)
      requires Valid()
      modifies this`explosions, this`expiryTimers
      ensures Valid()
      ensures id in old(expiryTimers) ==>
        expiryTimers == old(expiryTimers) - multiset{id} && explosions == WithoutExplosion(old(explosions), id)
      ensures id !in old(expiryTimers) ==> expiryTimers == old(expiryTimers) && explosions == old(explosions)
    {
      if id in expiryTimers {
        expiryTimers := expiryTimers - multiset{id};
        explosions := WithoutExplosion(explosions, id);
        forall i | 0 <= i < |explosions| ensures explosions[i].id in expiryTimers {
          assert explosions[i] in old(explosions);
        }
      }
    }

    /** One interval tick of the thank-you typewriter, which is mounted only in
        intro before the bio; its completion shows Continue. */
    method ThanksTick()
      requires Valid()
      modifies thanks, this`showContinue
      ensures Valid()
      ensures old(phase == Intro && introStep == Thanks) ==>
        && (old(thanks.running) ==> thanks.i == old(thanks.i) + 1 && thanks.displayText == TextReveal.Prefix(ThanksText, thanks.i))
        && (!old(thanks.running) ==>
              thanks.i == old(thanks.i) && thanks.displayText == old(thanks.displayText) && !thanks.running)
        && showContinue == (old(showContinue) || (old(thanks.running) && !thanks.running))
      ensures !old(phase == Intro && introStep == Thanks) ==>
        && showContinue == old(showContinue) && thanks.i == old(thanks.i)
        && thanks.displayText == old(thanks.displayText) && thanks.running == old(thanks.running)
    {
      if phase == Intro && introStep == Thanks {
        var completed := thanks.Tick();
        if completed {
          showContinue := true;
        }
      }
    }

    /** Continue, shown only in intro before the bio and once the typewriter is done. */
    method Continue()
      requires Valid()
      modifies this`introStep
      ensures Valid()
      ensures old(phase == Intro && introStep == Thanks && showContinue) ==> introStep == Bio && !thanks.running
      ensures !old(phase == Intro && introStep == Thanks && showContinue) ==> introStep == old(introStep)
    {
      if phase == Intro && introStep == Thanks && showContinue {
        introStep := Bio;
      }
    }

    /** Explore, shown only on the bio. */
    method ExploreClick()
      requires Valid()
      modifies this`phase, this`alertTimer, this`victoryTimer
      ensures Valid()
      ensures old(phase == Intro && introStep == Bio) ==> phase == Explore && exploreFocus == None
      ensures !old(phase == Intro && introStep == Bio) ==> phase == old(phase)
    {
      if phase == Intro && introStep == Bio {
        SetPhase(Explore);
      }
    }

    /** A click on the node of category `cat`, which exists only in explore. */
    method SelectCategory(cat: string)
      requires Valid()
      modifies this`exploreFocus
      ensures Valid()
      ensures old(phase) == Explore && cat in Satellites.Categories() ==> exploreFocus == Some(cat)
      ensures !(old(phase) == Explore && cat in Satellites.Categories()) ==> exploreFocus == old(exploreFocus)
    {
      if phase == Explore && cat in Satellites.Categories() {
        exploreFocus := Some(cat);
      }
    }

    /** The Skip/Back/Close button: in explore it closes the focus, or goes
        back to the bio when there is none; elsewhere it skips straight to
        the bio. */
    method SkipOrBack()
      requires Valid()
      modifies this`phase, this`alertTimer, this`victoryTimer, this`introStep, this`exploreFocus
      ensures Valid()
      ensures !SkipOffered(old(phase), old(introStep)) ==>
        phase == old(phase) && introStep == old(introStep) && exploreFocus == old(exploreFocus)
      ensures old(phase) == Explore && old(exploreFocus).Some? ==>
        phase == Explore && exploreFocus == None && introStep == old(introStep)
      ensures old(phase) == Explore && old(exploreFocus).None? ==>
        phase == Intro && introStep == Bio && exploreFocus == None
      ensures SkipOffered(old(phase), old(introStep)) && old(phase) != Explore ==>
        phase == Intro && introStep == Bio && exploreFocus == None
    {
      if !SkipOffered(phase, introStep) {
        return;
      }
      if phase == Explore {
        if exploreFocus.Some? {
          exploreFocus := None;
        } else {
          SetPhase(Intro);
          introStep := Bio;
        }
      } else {
        SetPhase(Intro);
        introStep := Bio;
      }
    }

    /** Deliver one event to its handler. Across every event the invariant
        holds, the score never drops, and intro/explore is never left. */
    method Dispatch(e: Event)
      requires Valid()
      modifies this, field, thanks
      ensures Valid()
      ensures hits >= old(hits)
      ensures old(Settled()) ==> Settled()
    {
      match e
      case YesClicked => YesClick();
      case SilenceTimer => SilenceElapsed();
      case AlertTimer => AlertElapsed();
      case VictoryTimer => VictoryElapsed();
      case FirePressed(meshes, now) => var _ := Fire(meshes, now);
      case ExplosionTimer(id) => ExplosionExpired(id);
      case TypewriterTick => ThanksTick();
      case ContinueClicked => Continue();
      case ExploreClicked => ExploreClick();
      case NodeClicked(cat) => SelectCategory(cat);
      case SkipClicked => SkipOrBack();
    }
  }

  /** Any sequence of events from a fresh page: the phase starts at beauty,
      once in intro or explore stays there, the score only grows, stays within
      15, and is 15 whenever victory is shown. */
  method Replay(events: seq<Event>) returns (phases: seq<Phase>, scores: seq<nat>)
    ensures |phases| == |events| + 1 && |scores| == |events| + 1
    ensures phases[0] == Beauty && scores[0] == 0
    ensures forall i, j :: 0 <= i <= j < |phases| && (phases[i] == Intro || phases[i] == Explore) ==>
      phases[j] == Intro || phases[j] == Explore
    ensures forall i, j :: 0 <= i <= j < |scores| ==> scores[i] <= scores[j] <= VictoryHits
    ensures forall i :: 0 <= i < |phases| && phases[i] == Victory ==> scores[i] == VictoryHits
  {
    var app := new App();
    phases, scores := [app.phase], [app.hits];
    for k := 0 to |events|
      invariant fresh(app) && fresh(app.field) && fresh(app.thanks) && app.Valid()
      invariant |phases| == k + 1 && |scores| == k + 1
      invariant phases[k] == app.phase && scores[k] == app.hits && phases[0] == Beauty && scores[0] == 0
      invariant forall i, j :: 0 <= i <= j <= k && (phases[i] == Intro || phases[i] == Explore) ==>
        phases[j] == Intro || phases[j] == Explore
      invariant forall i, j :: 0 <= i <= j <= k ==> scores[i] <= scores[j] <= VictoryHits
      invariant forall i :: 0 <= i <= k && phases[i] == Victory ==> scores[i] == VictoryHits
    {
      app.Dispatch(events[k]);
      phases, scores := phases + [app.phase], scores + [app.hits];
    }
  }

  /** YES, then the silence, then the alert: threat-alert after the 6000 ms
      callback and defense after the 4000 ms one. Skip is not offered
      during the silence, so pressing it there does nothing. */
  method NarrativeScenario() returns (afterYes: Phase, afterSkip: Phase, afterSilence: Phase, afterAlert: Phase)
    ensures afterYes == TransitionOut && afterSkip == TransitionOut
    ensures afterSilence == ThreatAlert && afterAlert == Defense
  {
    var app := new App();
    app.YesClick();
    afterYes := app.phase;
    app.SkipOrBack();
    afterSkip := app.phase;
    app.SilenceElapsed();
    afterSilence := app.phase;
    app.AlertElapsed();
    afterAlert := app.phase;
  }

  /** Fifteen shots in defense with every live asteroid mounted: fifteen
      hits, victory, no explosion left on screen and five asteroids left. */
  method DefenseScenario(positions: map<nat, Asteroids.Vec3>) returns (score: nat, phase: Phase, onScreen: nat, left: nat)
    requires forall id: nat :: id < Asteroids.FieldSize ==> id in positions
    ensures score == VictoryHits && phase == Victory && onScreen == 0 && left == 5
  {
    var app := new App();
    app.YesClick();
    app.SilenceElapsed();
    app.AlertElapsed();
    var shot := 0;
    while shot < VictoryHits
      invariant fresh(app) && fresh(app.field) && fresh(app.thanks) && app.Valid()
      invariant shot <= VictoryHits
      invariant app.hits == shot
      invariant shot < VictoryHits ==> app.phase == Defense
      invariant shot == VictoryHits ==> app.phase == Victory && app.explosions == []
      invariant forall i :: 0 <= i < |app.field.activeIds| ==> app.field.activeIds[i] in positions
    {
      var ids := app.field.activeIds;
      var mounted := map id | id in positions && id in ids :: positions[id];
      assert ids[0] in mounted;
      var _ := app.Fire(mounted, shot);
      assert forall i :: 0 <= i < |app.field.activeIds| ==> app.field.activeIds[i] in ids;
      shot := shot + 1;
    }
    score, phase, onScreen, left := app.hits, app.phase, |app.explosions|, |app.field.activeIds|;
  }
}
