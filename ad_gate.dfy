// The probability gate in front of the interstitial ad. Each user action that
// may show an ad draws a sample in [0, 1) and shows one when the sample falls
// below that action's fixed threshold; the sample is a parameter here.
module AdGate {

  datatype AdAction =
    | ThemeToggled     // App.tsx, toggleTheme
    | QuoteRefreshed   // App.tsx, fetchNewQuote without skipAd
    | FavoriteAdded    // App.tsx, toggleFavorite when adding
    | PhraseCycled     // Tasbih.tsx, cyclePhrase
    | GoalToggled      // Tasbih.tsx, toggleGoal

  function Threshold(a: AdAction): real
  {
    match a
    case ThemeToggled => 0.4
    case QuoteRefreshed => 0.35
    case FavoriteAdded => 0.25
    case PhraseCycled => 0.2
    case GoalToggled => 0.3
  }

  /** `Math.random() < threshold`. */
  predicate ShouldShowAd(a: AdAction, sample: real)
  {
    sample < Threshold(a)
  }

  /** Every threshold lies in [0.2, 0.4]: a sample of 0.4 or more never shows an ad,
      one below 0.2 always does. */
  lemma ThresholdBounds(a: AdAction, sample: real)
    ensures sample >= 0.4 ==> !ShouldShowAd(a, sample)
    ensures sample < 0.2 ==> ShouldShowAd(a, sample)
  {
  }
}
