/** The "Wrapped" slideshow: the viewing statistics it shows (drama, episode and hour
    totals with fixed defaults for missing data) and its slide navigation (buttons, and a
    wheel listener with an 800 ms cooldown that React re-registers whenever the slide
    changes). */
module WrappedFlow {
  import opened Actions

  // ------------------------------------------------------------------
  // Statistics
  // ------------------------------------------------------------------

  /** Episodes counted for a drama whose count is missing or 0 (`episodeCount || 16`). */
  const DefaultEpisodes: nat := 16

  /** Minutes counted for a drama whose runtime is missing or 0 (`totalRuntime || 16 * 60`). */
  const DefaultMinutes: nat := 16 * 60

  function EpisodesOf(d: EnrichedDrama): (n: nat)
    ensures n >= 1
  {
    if d.episodeCount.None? || d.episodeCount.value == 0 then DefaultEpisodes else d.episodeCount.value
  }

  function MinutesOf(d: EnrichedDrama): (n: nat)
    ensures n >= 1
  {
    if d.totalRuntime.None? || d.totalRuntime.value == 0 then DefaultMinutes else d.totalRuntime.value
  }

  /** `dramas.reduce((acc, d) => acc + (d.episodeCount || 16), 0)`. */
  function EpisodeCount(dramas: seq<EnrichedDrama>): nat
  {
    if dramas == [] then 0 else EpisodeCount(dramas[..|dramas| - 1]) + EpisodesOf(dramas[|dramas| - 1])
  }

  /** `dramas.reduce((acc, d) => acc + (d.totalRuntime || 960), 0)`. */
  function TotalMinutes(dramas: seq<EnrichedDrama>): nat
  {
    if dramas == [] then 0 else TotalMinutes(dramas[..|dramas| - 1]) + MinutesOf(dramas[|dramas| - 1])
  }

  /** `Math.round(minutes / 60)` for non-negative minutes: halves round up. */
  function RoundHours(minutes: nat): nat
  {
    (minutes + 30) / 60
  }

  function TotalHours(dramas: seq<EnrichedDrama>): nat
  {
    RoundHours(TotalMinutes(dramas))
  }

  /** The rounding is to the nearest hour, a half hour going up. */
  lemma RoundHoursNearest(minutes: nat)
    ensures 60 * RoundHours(minutes) - 30 <= minutes < 60 * RoundHours(minutes) + 30
  {
  }

  /** Both sums add up drama by drama: the total of a concatenation is the sum of the totals. */
  lemma {:induction false} StatsAppend(a: seq<EnrichedDrama>, b: seq<EnrichedDrama>)
    ensures EpisodeCount(a + b) == EpisodeCount(a) + EpisodeCount(b)
    ensures TotalMinutes(a + b) == TotalMinutes(a) + TotalMinutes(b)
  {
    if b == [] {
      assert a + b == a;
    } else {
      assert (a + b)[..|a + b| - 1] == a + b[..|b| - 1];
      StatsAppend(a, b[..|b| - 1]);
    }
  }

  /** Every drama counts for at least one episode and one minute, and a list with no data
      at all counts 16 episodes and 16 hours per drama. */
  lemma {:induction false} StatsDefaults(dramas: seq<EnrichedDrama>)
    ensures EpisodeCount(dramas) >= |dramas|
    ensures TotalMinutes(dramas) >= |dramas|
    ensures (forall i :: 0 <= i < |dramas| ==> dramas[i].episodeCount.None?) ==>
      EpisodeCount(dramas) == DefaultEpisodes * |dramas|
    ensures (forall i :: 0 <= i < |dramas| ==> dramas[i].totalRuntime.None?) ==>
      TotalMinutes(dramas) == DefaultMinutes * |dramas| && TotalHours(dramas) == 16 * |dramas|
  {
    if dramas != [] {
      var init := dramas[..|dramas| - 1];
      StatsDefaults(init);
      assert forall i :: 0 <= i < |init| ==> init[i] == dramas[i];
    }
  }

  // ------------------------------------------------------------------
  // Slide navigation
  // ------------------------------------------------------------------

  const FirstSlide: int := 1
  const LastSlide: int := 7
  const Cooldown: int := 800

  /** The navigation state: the slide shown, the slide the current wheel listener was
      registered for (its closure's `currentSlide`), that listener's `lastScrollTime`, and
      how many times `onBack` has been called. */
  datatype Nav = Nav(slide: int, listenerSlide: int, lastScrollTime: int, backCalls: nat)

  const Initial: Nav := Nav(FirstSlide, FirstSlide, 0, 0)

  /** `handleNext`: a functional update, so it reads the current slide. */
  function Next(n: Nav): Nav
  {
    n.(slide := n.slide + 1)
  }

  /** `handlePrev` of the render whose slide is `seen`: on slide 1 it calls `onBack`,
      otherwise it steps back with a functional update. */
  function Prev(n: Nav, seen: int): Nav
  {
    if seen == FirstSlide then n.(backCalls := n.backCalls + 1) else n.(slide := n.slide - 1)
  }

  /** The wheel handler as written: an event less than 800 ms after the listener's last
      navigation is ignored; otherwise scrolling down advances below slide 7 and scrolling
      up goes back above slide 1, each recording the time. */
  function Wheel(n: Nav, now: int, deltaY: int): Nav
  {
    if now - n.lastScrollTime < Cooldown then n
    else if deltaY > 0 then
      (if n.listenerSlide < LastSlide then Next(n).(lastScrollTime := now) else n)
    else if deltaY < 0 then
      (if n.listenerSlide > FirstSlide then Prev(n, n.listenerSlide).(lastScrollTime := now) else n)
    else n
  }

  /** React commits a render: when the slide changed, the effect's cleanup removes the old
      listener and a new one starts with `lastScrollTime = 0`. */
  function Commit(n: Nav): Nav
  {
    if n.slide != n.listenerSlide then n.(listenerSlide := n.slide, lastScrollTime := 0) else n
  }

  /** The component's state, updated in place by its handlers. */
  class Flow {
    var currentSlide: int
    var listenerSlide: int
    var lastScrollTime: int
    var backCalls: nat

    function State(): Nav
      reads this
    {
      Nav(currentSlide, listenerSlide, lastScrollTime, backCalls)
    }

    /** `useState(1)` and the first effect run. */
    constructor()
      ensures State() == Initial
    {
      currentSlide := FirstSlide;
      listenerSlide := FirstSlide;
      lastScrollTime := 0;
      backCalls := 0;
    }

    method HandleNext()
      modifies this
      ensures currentSlide == old(currentSlide) + 1
      ensures State() == Next(old(State()))
    {
      currentSlide := currentSlide + 1;
    }

    /** `handlePrev` from a button: the render on screen is the committed one. */
    method HandlePrev()
      modifies this
      ensures old(listenerSlide) == FirstSlide ==> currentSlide == old(currentSlide) && backCalls == old(backCalls) + 1
      ensures old(listenerSlide) != FirstSlide ==> currentSlide == old(currentSlide) - 1 && backCalls == old(backCalls)
      ensures State() == Prev(old(State()), old(listenerSlide))
    {
      if listenerSlide == FirstSlide {
        backCalls := backCalls + 1;
      } else {
        currentSlide := currentSlide - 1;
      }
    }

    method HandleReplay()
      modifies this
      ensures currentSlide == FirstSlide
      ensures State() == old(State()).(slide := FirstSlide)
    {
      currentSlide := FirstSlide;
    }

    /** The wheel listener, given the event time (`Date.now()`) and its `deltaY`. */
    method HandleWheel(now: int, deltaY: int)
      modifies this
      ensures State() == Wheel(old(State()), now, deltaY)
    {
      if now - lastScrollTime < Cooldown {
        return;
      }
      if deltaY > 0 {
        if listenerSlide < LastSlide {
          HandleNext();
          lastScrollTime := now;
        }
      } else if deltaY < 0 {
        if listenerSlide > FirstSlide {
          HandlePrev();
          lastScrollTime := now;
        }
      }
    }

    /** A render is committed and the effect on `[currentSlide]` re-runs if needed. */
    method CommitRender()
      modifies this
      ensures State() == Commit(old(State()))
    {
      if currentSlide != listenerSlide {
        listenerSlide := currentSlide;
        lastScrollTime := 0;
      }
    }
  }

  /** Committed navigation: the listener belongs to the slide on screen. */
  predicate Settled(n: Nav)
  {
    n.slide == n.listenerSlide && FirstSlide <= n.slide <= LastSlide
  }

  /** Wheel navigation on a committed render stays within slides 1 to 7, moves at most one
      slide, and never calls `onBack`. */
  lemma WheelBounds(n: Nav, now: int, deltaY: int)
    requires Settled(n)
    ensures var m := Wheel(n, now, deltaY);
      FirstSlide <= m.slide <= LastSlide && -1 <= m.slide - n.slide <= 1
      && m.backCalls == n.backCalls
      && (deltaY == 0 ==> m == n)
      && (m.slide > n.slide ==> deltaY > 0) && (m.slide < n.slide ==> deltaY < 0)
  {
  }

  /** A wheel navigation followed by its commit leaves a committed render. */
  lemma WheelCommitSettles(n: Nav, now: int, deltaY: int)
    requires Settled(n)
    ensures Settled(Commit(Wheel(n, now, deltaY)))
  {
  }

  /** `lastScrollTime` changes only when the wheel navigates. */
  lemma WheelTimeOnlyOnNavigation(n: Nav, now: int, deltaY: int)
    requires Settled(n)
    ensures Wheel(n, now, deltaY).lastScrollTime != n.lastScrollTime ==>
      Wheel(n, now, deltaY).slide != n.slide && Wheel(n, now, deltaY).lastScrollTime == now
  {
  }

  // ------------------------------------------------------------------
  // The cooldown
  // ------------------------------------------------------------------

  /** As written, the cooldown holds only until the re-render: a second scroll handled by
      the same listener within 800 ms is ignored, but once the changed slide has been
      committed and the listener re-registered with `lastScrollTime` 0 again, a second
      scroll less than 800 ms after the first moves again. */
  lemma CooldownResetAsWritten(t: int, u: int)
    requires t >= Cooldown && t < u < t + Cooldown
    ensures Wheel(Wheel(Initial, t, 1), u, 1) == Wheel(Initial, t, 1)
    ensures var a := Commit(Wheel(Initial, t, 1));
      a.slide == 2 && Commit(Wheel(a, u, 1)).slide == 3
  {
  }

  /** The cooldown as evidently intended: the time of the last navigation survives the
      re-registration (a ref rather than a variable local to the effect). */
  function CommitKeepingTime(n: Nav): Nav
  {
    if n.slide != n.listenerSlide then n.(listenerSlide := n.slide) else n
  }

  /** With the time kept, a navigation at time `t` blocks every wheel event before
      `t + 800`, so two navigations are always at least 800 ms apart. */
  lemma CooldownKeptSeparates(n: Nav, t: int, deltaY: int, u: int, deltaY': int)
    requires Settled(n)
    requires Wheel(n, t, deltaY).slide != n.slide
    requires t <= u < t + Cooldown
    ensures var a := CommitKeepingTime(Wheel(n, t, deltaY));
      Wheel(a, u, deltaY') == a && Settled(a)
  {
  }
}
