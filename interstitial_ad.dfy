// The full-screen interstitial: blank until the ad has loaded, then a
// countdown of 5 seconds (10 for a rewarded session) stepped once a second,
// with the close control available only once it reaches 0. Timers are
// replaced by the discrete steps Load and Tick.
module InterstitialAd {
  import opened Types
  import opened AdBanner

  const DEFAULT_INTERSTITIAL_UNIT: string := "ca-app-pub-6687316362787087/7381173247"

  /** `isRewarded ? 10 : 5`: the seconds a session lasts. */
  function InitialCountdown(rewarded: bool): nat
  {
    if rewarded then 10 else 5
  }

  /** The numerator of the progress bar as written: the current prop's
      session length less the seconds left. */
  function ProgressNumerator(rewarded: bool, countdown: nat): int
  {
    InitialCountdown(rewarded) - countdown
  }

  /** What the component renders. */
  datatype Screen =
    | Blank
    | Shown(slot: string, badge: string, closable: bool, secondsLeft: nat, elapsed: nat, total: nat)

  class Overlay {
    // props, which the parent may change while the overlay stays mounted
    var adUnitId: string
    var isRewarded: bool
    // the prop `isRewarded` at mount, which chose the starting countdown
    const rewardedAtMount: bool
    // state
    var countdown: nat
    var isLoaded: bool

    ghost predicate Valid()
      reads this
    {
      countdown <= InitialCountdown(rewardedAtMount)
    }

    /** Mounting: `unit` is the `adUnitId` prop, the default unit when absent. */
    constructor (unit: Option<string>, rewarded: bool)
      ensures Valid()
      ensures adUnitId == (if unit.Some? then unit.value else DEFAULT_INTERSTITIAL_UNIT)
      ensures isRewarded == rewarded && rewardedAtMount == rewarded
      ensures countdown == InitialCountdown(rewarded) && !isLoaded
    {
      adUnitId := if unit.Some? then unit.value else DEFAULT_INTERSTITIAL_UNIT;
      isRewarded := rewarded;
      rewardedAtMount := rewarded;
      countdown := InitialCountdown(rewarded);
      isLoaded := false;
    }

    /** The one-second timer exists only while seconds are left. */
    predicate TickScheduled()
      reads this
    {
      countdown > 0
    }

    /** The one-second timer firing: one second less, nothing else. */
    method Tick()
      requires Valid() && TickScheduled()
      modifies this
      ensures Valid()
      ensures countdown == old(countdown) - 1
      ensures Elapsed() == old(Elapsed()) + 1
      ensures isLoaded == old(isLoaded) && isRewarded == old(isRewarded) && adUnitId == old(adUnitId)
    {
      countdown := countdown - 1;
    }

    /** The 500 ms loading timer firing; loading is never undone. */
    method Load()
      requires Valid()
      modifies this
      ensures Valid() && isLoaded
      ensures countdown == old(countdown) && isRewarded == old(isRewarded) && adUnitId == old(adUnitId)
    {
      isLoaded := true;
    }

    /** The parent re-rendering with new props: the state is kept. */
    method Rerender(unit: string, rewarded: bool)
      requires Valid()
      modifies this
      ensures Valid()
      ensures adUnitId == unit && isRewarded == rewarded
      ensures countdown == old(countdown) && isLoaded == old(isLoaded)
    {
      adUnitId, isRewarded := unit, rewarded;
    }

    /** The seconds of the session already passed, measured against the
        countdown's own start. */
    function Elapsed(): (e: nat)
      reads this
      requires Valid()
      ensures e <= InitialCountdown(rewardedAtMount)
      ensures e + countdown == InitialCountdown(rewardedAtMount)
    {
      InitialCountdown(rewardedAtMount) - countdown
    }

    /** The progress numerator exactly as the source computes it, from the
        current prop rather than the one the countdown started from. */
    function ElapsedAsWritten(): int
      reads this
    {
      ProgressNumerator(isRewarded, countdown)
    }

    /** The rendered screen: nothing before loading; then the slot id, the
        badge for the current mode, and either the close control (at 0) or
        the seconds left. */
    function Render(): (s: Screen)
      reads this
      requires Valid()
      ensures s.Blank? <==> !isLoaded
      ensures s.Shown? ==> (s.closable <==> countdown == 0) && s.secondsLeft == countdown
      ensures s.Shown? ==> s.elapsed + s.secondsLeft == s.total && s.slot == SlotId(adUnitId)
    {
      if !isLoaded then Blank
      else Shown(SlotId(adUnitId),
                 if isRewarded then "Reward Session" else "Sakeena Ad",
                 countdown == 0, countdown, Elapsed(), InitialCountdown(rewardedAtMount))
    }

    /** A press on the close control, which exists only on a loaded screen
        at 0; `closed` is whether `onClose` runs. */
    method Close() returns (closed: bool)
      requires Valid()
      ensures closed <==> Render().Shown? && Render().closable
      ensures closed <==> isLoaded && countdown == 0
    {
      closed := isLoaded && countdown == 0;
    }
  }

  /** Loading and then ticking while a timer is scheduled takes exactly as
      many ticks as seconds were left, and ends closable with the whole
      session elapsed. */
  method RunToClose(o: Overlay) returns (ticks: nat)
    requires o.Valid()
    modifies o
    ensures o.Valid() && o.isLoaded && !o.TickScheduled()
    ensures ticks == old(o.countdown)
    ensures o.Render().Shown? && o.Render().closable
    ensures o.Elapsed() == InitialCountdown(o.rewardedAtMount)
  {
    o.Load();
    ticks := 0;
    while o.TickScheduled()
      invariant o.Valid() && o.isLoaded
      invariant ticks + o.countdown == old(o.countdown)
      decreases o.countdown
    {
      o.Tick();
      ticks := ticks + 1;
    }
  }

  /** As far as the props stay those of the mount, both measures agree. */
  lemma AsWrittenAgreesWhileModeKept(o: Overlay)
    requires o.Valid() && o.isRewarded == o.rewardedAtMount
    ensures o.ElapsedAsWritten() == o.Elapsed()
  {
  }
}
