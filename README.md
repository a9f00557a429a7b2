# Sakeena, modelled in Dafny

Sakeena is a small mobile-first web app for Islamic motivation. The home screen
shows a quote for the mood the user picks. Quotes come from a remote text
generator and are kept in a bounded cache. Bundled quotes stand in when the
device is offline or the generator fails. There is also a tally counter
("tasbih") for repeated phrases, a favorites list, light and dark themes,
reminder notifications, and banner and interstitial ads. The interstitial ads
are shown at random after some user actions.

This project models the rules inside that user interface, one module per
source file:

- `Types` (types.dfy) holds the moods, themes, quotes, tally phrases, settings
  and tabs. Moods and themes have a string form with a parser and a round
  trip back; tabs have their distinct string values; the other types are
  plain records.
- `Constants` (constants.dfy) holds the three tables: the mood picker, the
  bundled offline quotes and the nine tally phrases.
- `Storage` (storage.dfy) is the browser's key-value store, as a class over a
  map. A stored JSON array is kept as the quote sequence it encodes.
- `AdGate` (ad_gate.dfy) is the probability gate shared by every action that may
  show an interstitial.
- `GeminiService` (gemini_service.dfy) holds the quote cache, which is
  deduplicated by text and capped at 50. It also holds the offline fallback, the
  failure fallback and `generateQuote`.
- `Tasbih` (tasbih.dfy) is the tally counter: a class with the count, the
  phrase index, the goal and the playback flag.
- `App` (app.dfy) is the top-level state: a class whose handlers update the
  favorites, theme, interstitial flags, notifications and loading state. Each
  persisted field is written to storage on every change. The invariant
  `AppState.Valid` says the favorites are keyed by their text and the
  persisted keys agree with the in-memory state.
- `InterstitialAd` (interstitial_ad.dfy) is the full-screen ad: a class whose
  countdown is stepped by discrete ticks.
- `QuoteCard` (quote_card.dfy) holds the share and clipboard texts, the card's
  rendered fields and the playback guard.
- `AdBanner` (ad_banner.dfy) holds slot-id extraction, with `split` and `join`
  and their round trip, and the attributes of each banner variant.

Inputs the code takes from its environment are parameters here:

- `Math.random()` is a real `sample` in [0, 1).
- `navigator.onLine` is a boolean.
- The remote generator's reply is an `Option<IslamicQuote>`, where `None`
  stands for any failure inside the `try`.
- The notification permission is a `Permission` value.
- The `confirm` dialog's answer is a boolean.
- A playback's success or failure is a boolean.

The fetch handler and the two playback handlers, which await a promise, are
split in two: the synchronous start, then the end once the promise settles
(`App.AppState.BeginFetch` and `CompleteFetch`, and `BeginPlayAudio` and
`FinishPlayAudio` in `Tasbih` and `QuoteCard`). Two awaiting functions are one
atomic step each, because nothing observable happens before their await:
`GeminiService.GenerateQuote` and `App.AppState.ToggleNotifications`.

## Model

| member | source | states |
|---|---|---|
| `Types.ParseMood` | types.ts:2 | a string accepted as a mood is exactly that mood's label |
| `Types.MoodLabel` | types.ts:2 | no ensures of its own: the string of each mood in the union; `MoodLabelRoundTrip` and `MoodLabelInjective` state its properties |
| `Types.MoodLabelRoundTrip` | types.ts:2 | each of the seven moods reads back from its label, so the set of labels is closed and distinct |
| `Types.MoodLabelInjective` | types.ts:2 | two moods with the same label are the same mood |
| `Types.ParseTheme` | types.ts:4 | only 'light' and 'dark' are themes, each naming its own theme |
| `Types.ThemeName` | types.ts:4 | no ensures of its own: 'light' or 'dark'; `ThemeNameRoundTrip` states that `ParseTheme` reads it back |
| `Types.ThemeNameRoundTrip` | types.ts:4 | a stored theme name reads back as the theme that was stored |
| `Types.Flip` | App.tsx:60 | the theme toggle always moves to the other theme |
| `Types.TabValuesDistinct` | types.ts:25-30 | the four tab values are pairwise distinct |
| `Types.TabValue` | types.ts:25-30 | no ensures of its own: the enum string of each tab; `TabValuesDistinct` states that they differ |
| `Constants.MoodsListEveryMoodOnce` | constants.tsx:5-13 | the picker has seven entries, no mood twice, and every mood appears |
| `Constants.OfflineQuotesShape` | constants.tsx:15-44 | four bundled quotes, the first tagged Anxious, each with a non-empty Arabic text |
| `Constants.TasbihPhraseCount` | constants.tsx:46-56 | there are exactly nine tally phrases |
| `Constants.MOODS` | constants.tsx:5-13 | the mood picker table; `MoodsListEveryMoodOnce` states its shape |
| `Constants.OFFLINE_QUOTES` | constants.tsx:15-44 | the bundled quotes; `OfflineQuotesShape` and `GeminiService.StaticQuotesByMood` state their shape and moods |
| `Constants.TASBIH_PHRASES` | constants.tsx:46-56 | the tally phrases; `TasbihPhraseCount` states their number |
| `Storage.CACHE_KEY` | services/geminiService.ts:6 | the cache key 'nur_quotes_cache' |
| `Storage.FAVORITES_KEY` | App.tsx:34 | the favorites key 'sakeena_favorites', read at line 34 and written at line 105 |
| `Storage.THEME_KEY` | App.tsx:37 | the theme key 'sakeena_theme', read at line 37 and written at line 62 |
| `Storage.NOTIFICATIONS_KEY` | App.tsx:43 | the notifications key 'sakeena_notifications', read at line 43 and written at lines 116 and 121 |
| `Storage.REMINDER_TIME_KEY` | App.tsx:46 | the reminder-time key 'sakeena_reminder_time', read at line 46 |
| `Storage.DistinctTexts` | App.tsx:101-104 | no ensures of its own: no two entries share a quote text, the key by which favorites and the cache are found; `WellFormed` demands it of the stored favorites |
| `Storage.QuotesAt` | services/geminiService.ts:8-11 | the `cached ? JSON.parse(cached) : []` reading of a key; its partner is `Storage.QuotesAtReadAfterWrite` |
| `Storage.QuotesAtReadAfterWrite` | services/geminiService.ts:8-17 | a list written under a key reads back as that list, a write to another key leaves the reading unchanged, and a cleared store reads as empty |
| `Storage.LocalStorage.SetItem` | App.tsx:62 | the key gets the new value and no other key changes |
| `Storage.LocalStorage.Clear` | App.tsx:127 | every key is removed |
| `AdGate.Threshold` | App.tsx:68 | no ensures of its own: the five thresholds 0.4, 0.35, 0.25 (App.tsx:68, 82, 106), 0.2 and 0.3 (components/Tasbih.tsx:30, 35) |
| `AdGate.ShouldShowAd` | App.tsx:82 | no ensures of its own: an ad is shown when the sample is below the action's threshold; the handlers' contracts state the resulting gates |
| `AdGate.ThresholdBounds` | App.tsx:68 | no gate fires for a sample of 0.4 or more, and every gate fires below 0.2 |
| `GeminiService.CACHE_LIMIT` | services/geminiService.ts:16 | the cache bound 50 of `slice(0, 50)` |
| `GeminiService.HasText` | services/geminiService.ts:15 | no ensures of its own: `find` by quote text is defined, as also at App.tsx:101 and App.tsx:174; the `CacheInsert` and `Toggle*` lemmas are stated with it |
| `GeminiService.CacheInsert` | services/geminiService.ts:15-16 | no ensures of its own; its properties are the five `CacheInsert…` lemmas below |
| `GeminiService.CacheInsertPresent` | services/geminiService.ts:15 | a quote whose text is cached leaves the cache unchanged, with no reordering |
| `GeminiService.CacheInsertAbsent` | services/geminiService.ts:16 | a new text goes first, followed by the old cache in order cut to 49, so at most 50 entries |
| `GeminiService.CacheInsertFindable` | services/geminiService.ts:13-19 | after a save the quote's text is always in the cache |
| `GeminiService.CacheInsertIdempotent` | services/geminiService.ts:13-19 | saving the same quote twice is the same as saving it once |
| `GeminiService.CacheInsertPreservesInvariant` | services/geminiService.ts:15-17 | a cache of at most 50 entries with distinct texts keeps both properties |
| `GeminiService.QuotesWithMood` | services/geminiService.ts:25 | the mood filter (also lines 29 and 62) is never longer than its input; its members are stated by `QuotesWithMoodMembers` |
| `GeminiService.QuotesWithMoodMembers` | services/geminiService.ts:25 | the mood filter keeps exactly the entries of that mood |
| `GeminiService.FirstWithMood` | services/geminiService.ts:62-63 | the filter's first element is the earliest entry of the mood |
| `GeminiService.StaticQuotesByMood` | services/geminiService.ts:29 | offline moods have one bundled quote each for Anxious, Lost, Seeking Knowledge and Tired, and none for Grateful, Patient and Happy |
| `GeminiService.StaticFallback` | services/geminiService.ts:29-30 | no ensures of its own: the bundled quote per mood as a table; `OfflineWithoutCachedMatch` states that the offline branch returns it |
| `GeminiService.RandomIndex` | services/geminiService.ts:27 | `floor(sample * n)` is an index into an n-element list |
| `GeminiService.RandomIndexInterval` | services/geminiService.ts:27 | the pick is uniform: index k is drawn exactly for samples in [k/n, (k+1)/n), an interval 1/n wide |
| `GeminiService.OfflineQuote` | services/geminiService.ts:23-31 | offline with a cached match, the result is a cached quote of the mood; without one, it is a bundled quote, of the mood when one exists and otherwise the first |
| `GeminiService.OfflineWithoutCachedMatch` | services/geminiService.ts:29-30 | with no cached match, the offline result is the bundled quote for the mood, or the first bundled quote for moods without one, and no error is raised |
| `GeminiService.OfflineSingleCandidate` | services/geminiService.ts:26-27 | a single cached match is returned whatever the sample |
| `GeminiService.OfflineEveryCandidateReachable` | services/geminiService.ts:27 | every cached match is returned for some sample |
| `GeminiService.FailureQuote` | services/geminiService.ts:59-63 | on failure, the result is the first (most recent) cached match, otherwise the first bundled quote |
| `GeminiService.OfflineAndFailureDiffer` | services/geminiService.ts:29-30 | for Lost with an empty cache, offline gives the Lost quote while failure gives the first bundled quote |
| `GeminiService.CachedQuotes` | services/geminiService.ts:8-11 | no ensures of its own: `getCachedQuotes` is `QuotesAt` of the cache key in the store |
| `GeminiService.SaveToCache` | services/geminiService.ts:13-19 | the stored cache becomes the insertion of the quote, and storage is written only for a new text |
| `GeminiService.ResolvedQuote` | services/geminiService.ts:21-64 | a delivered reply is returned as is; otherwise a cached match of the mood is preferred |
| `GeminiService.GenerateQuote` | services/geminiService.ts:21-64 | returns the offline, remote or failure choice; only a successful remote call writes storage, and it saves what it returns; other keys never change |
| `Tasbih.NextCount` | components/Tasbih.tsx:19 | the next count is always in [0, goal]: one more below the goal, 0 from the goal |
| `Tasbih.CountsUpFromZero` | components/Tasbih.tsx:19 | from 0, the first goal taps count 1 up to goal |
| `Tasbih.FullRoundReturnsToZero` | components/Tasbih.tsx:19 | from 0, goal + 1 taps return the count to 0 |
| `Tasbih.CycledIndex` | components/Tasbih.tsx:28 | a step of one forward or back stays within the nine phrases and wraps at both ends |
| `Tasbih.CycleRoundTrip` | components/Tasbih.tsx:27-29 | forward then back, or back then forward, restores the phrase |
| `Tasbih.ToggledGoal` | components/Tasbih.tsx:34 | the new goal is 33 or 99 and differs from the old one |
| `Tasbih.ToggledGoalInvolution` | components/Tasbih.tsx:34 | toggling the goal twice restores it |
| `Tasbih.CountMayExceedGoal` | components/Tasbih.tsx:33-34 | after 99 to 33 a count of 50 stays above the goal, and the next tap gives 17 |
| `Tasbih.Counter.constructor` | components/Tasbih.tsx:13-16 | starts at count 0, the first phrase, goal 33, not playing |
| `Tasbih.Counter.Increment` | components/Tasbih.tsx:18-21 | the count takes one wrapping step, and nothing else changes |
| `Tasbih.Counter.Reset` | components/Tasbih.tsx:23-25 | the count becomes 0, and the goal and phrase are kept |
| `Tasbih.Counter.CyclePhrase` | components/Tasbih.tsx:27-31 | the phrase steps with wrap-around, the count resets, and an ad is shown exactly for a sample below 0.2 |
| `Tasbih.Counter.ToggleGoal` | components/Tasbih.tsx:33-36 | the goal toggles, the count and phrase are kept, and an ad is shown exactly for a sample below 0.3 |
| `Tasbih.Counter.BeginPlayAudio` | components/Tasbih.tsx:38-42 | nothing happens while playing; otherwise playback starts with the phrase's Arabic text |
| `Tasbih.Counter.FinishPlayAudio` | components/Tasbih.tsx:43-47 | playback ends whether or not it succeeded, and the alert shows exactly on failure |
| `App.WithoutText` | App.tsx:103 | the text filter is never longer than its input; its members are stated by `WithoutTextMembers` |
| `App.ToggledFavorites` | App.tsx:101-104 | no ensures of its own; its properties are `ToggleRemoves`, `ToggleRemovesAt`, `ToggleAdds`, `ToggleFlipsFavorited`, `ToggleTwiceRestores` and `ToggledFavoritesDistinct` |
| `App.WithoutTextMembers` | App.tsx:103 | the filter keeps exactly the entries with another text |
| `App.WithoutAbsentText` | App.tsx:103 | filtering out an absent text returns the list unchanged |
| `App.WithoutTextAppend` | App.tsx:103 | filtering a concatenation filters each part, so the kept entries stay in their order |
| `App.WithoutTextDistinct` | App.tsx:103 | filtering a list with distinct texts keeps them distinct |
| `App.ToggleRemoves` | App.tsx:101-104 | toggling a saved text removes every entry with it and keeps all others |
| `App.ToggleRemovesAt` | App.tsx:101-104 | with distinct texts, toggling the favorite at index k gives exactly the list without that entry, the others in their order |
| `App.ToggledFavoritesDistinct` | App.tsx:101-104 | a toggle keeps the favorites keyed by text: no two entries with the same text |
| `App.ToggleAdds` | App.tsx:101-104 | toggling an unsaved text prepends the quote to the unchanged list |
| `App.ToggleFlipsFavorited` | App.tsx:101-104 | each toggle flips whether the quote counts as favorited |
| `App.ToggleTwiceRestores` | App.tsx:101-104 | adding a new quote and toggling it again restores the original list |
| `App.StoredTheme` | App.tsx:37-41 | the mounted theme is the stored one when a theme is stored, and light otherwise |
| `App.MountedView` | App.tsx:20-47 | no ensures of its own; `MountedViewSynced` and `PersistedStateSurvivesReload` state what it reads |
| `App.SyncedWith` | App.tsx:99-106 | no ensures of its own: favorites have distinct texts and the persisted keys agree with the in-memory state; `MountedViewSynced` establishes it and every handler keeps it through `AppState.Valid` |
| `App.OverlayUnit` | App.tsx:199 | no ensures of its own: the rewarded unit in rewarded mode, the interstitial unit otherwise; `UnitSlots` states their slots |
| `App.UnitSlots` | App.tsx:13-18 | the banner, interstitial and rewarded units give slots 7312383307, 7381173247 and 3181566602 |
| `App.StoredAfterFetch` | services/geminiService.ts:56-64 | a predicate, no ensures: storage is unchanged unless the reply arrived, and then only the cache changes, to the insertion of the reply |
| `App.MountedViewSynced` | App.tsx:33-47 | the state read at mount agrees with the storage it was read from |
| `App.PersistedStateSurvivesReload` | App.tsx:33-47 | favorites, theme and notification flag as persisted are what the next mount reads back |
| `App.AppState.Mount` | App.tsx:20-47 | initial state plus the values read from storage; notifications are on only for the exact string 'true' |
| `App.AppState.IsFavorited` | App.tsx:174 | no ensures of its own: some favorite has the quote's text; `ToggleFavorite` states that each toggle flips it |
| `App.AppState.TriggerInterstitial` | App.tsx:71-74 | shown becomes true and rewarded false, whatever the prior state |
| `App.AppState.TriggerRewardedAd` | App.tsx:76-79 | shown and rewarded both become true |
| `App.AppState.CloseInterstitial` | App.tsx:198 | only shown becomes false |
| `App.AppState.ToggleTheme` | App.tsx:59-69 | sets the given theme or flips the current one, persists it, and shows an ad exactly for a sample below 0.4 |
| `App.AppState.BeginFetch` | App.tsx:81-84 | the ad gate fires only without skipAd and below 0.35, then loading starts |
| `App.AppState.CompleteFetch` | App.tsx:85-92 | loading ends, and the quote is replaced only when the fetch succeeded |
| `App.AppState.FetchNewQuote` | App.tsx:81-93 | the quote becomes the generator's choice, loading ends, the gate is as above, and storage changes only on a delivered reply, whose insertion becomes the cache |
| `App.AppState.SelectMood` | App.tsx:95-97 | a changed mood fetches with skipAd, so no ad is shown: only mood, quote and loading change, and storage as for a fetch; an unchanged mood changes nothing |
| `App.AppState.InitialFetch` | App.tsx:95-97 | the mount-time fetch loads a quote for the initial mood without an ad; only quote and loading change, and storage as for a fetch |
| `App.AppState.ToggleFavorite` | App.tsx:99-109 | the list toggles, stays keyed by text, the persisted value equals it, favorited flips, and an ad is shown only when adding and below 0.25 |
| `App.AppState.ToggleNotifications` | App.tsx:111-123 | disabling always stores 'false'; enabling succeeds and stores 'true' only when permission is granted |
| `App.AppState.ClearCache` | App.tsx:125-130 | on confirmation storage is emptied and the app mounts afresh; otherwise nothing changes |
| `App.AppState.SelectTab` | App.tsx:288 | only the active tab changes |
| `App.AppState.SetOnline` | App.tsx:49-50 | only the connectivity flag changes |
| `App.RewardedSwitchedToPlain` | components/InterstitialAd.tsx:94 | a rewarded session switched to the plain mode before its first tick gives -5 as written and 0 when corrected |
| `InterstitialAd.InitialCountdown` | components/InterstitialAd.tsx:16 | no ensures of its own: 10 seconds for a rewarded session, 5 otherwise |
| `InterstitialAd.ProgressNumerator` | components/InterstitialAd.tsx:94 | no ensures of its own: the numerator of the progress bar, the current prop's session length less the seconds left; `App.RewardedSwitchedToPlain` shows it going negative |
| `InterstitialAd.Overlay.constructor` | components/InterstitialAd.tsx:11-17 | starts unloaded at 10 seconds for a rewarded session, 5 otherwise, with the default unit when none is given |
| `InterstitialAd.Overlay.TickScheduled` | components/InterstitialAd.tsx:23 | no ensures of its own: the one-second timer exists only while seconds are left, the precondition of `Tick` |
| `InterstitialAd.Overlay.Tick` | components/InterstitialAd.tsx:23-24 | only while seconds are left, and then one second less; elapsed grows by one |
| `InterstitialAd.Overlay.Load` | components/InterstitialAd.tsx:21 | loading only goes from false to true |
| `InterstitialAd.Overlay.Rerender` | components/InterstitialAd.tsx:11-17 | new props keep the countdown and loading state |
| `InterstitialAd.Overlay.Elapsed` | components/InterstitialAd.tsx:94 | the elapsed count lies in [0, total] and adds up with the seconds left to the total |
| `InterstitialAd.Overlay.ElapsedAsWritten` | components/InterstitialAd.tsx:94 | no ensures of its own: the as-written numerator, from the current prop; `App.RewardedSwitchedToPlain` shows it going negative |
| `InterstitialAd.Overlay.Render` | components/InterstitialAd.tsx:43-74 | nothing is rendered until loaded; the close control is shown exactly at 0, otherwise the seconds left; the slot is the unit's slot id |
| `InterstitialAd.Overlay.Close` | components/InterstitialAd.tsx:63-69 | closing is possible exactly on a loaded screen at 0 |
| `InterstitialAd.RunToClose` | components/InterstitialAd.tsx:19-30 | loading and ticking until no timer is left takes as many ticks as seconds remained, and ends closable with the whole session elapsed |
| `InterstitialAd.AsWrittenAgreesWhileModeKept` | components/InterstitialAd.tsx:94 | as long as the mode prop is the one from mount, both elapsed counts agree |
| `QuoteCard.HasArabic` | components/QuoteCard.tsx:40 | no ensures of its own: `arabicText` is truthy, present and non-empty |
| `QuoteCard.ClipboardText` | components/QuoteCard.tsx:33 | no ensures of its own; `ClipboardIgnoresArabic` and `ShareTextShape` state its properties |
| `QuoteCard.ShareText` | components/QuoteCard.tsx:29 | no ensures of its own; `ShareTextShape` and `ShareEqualsClipboardIff` state its properties |
| `QuoteCard.ClipboardIgnoresArabic` | components/QuoteCard.tsx:33 | the clipboard text does not depend on the Arabic text |
| `QuoteCard.ShareTextShape` | components/QuoteCard.tsx:29 | the share text ends with the clipboard text, preceded by the Arabic text and a newline when there is one |
| `QuoteCard.ShareEqualsClipboardIff` | components/QuoteCard.tsx:29-33 | share text and clipboard text are equal exactly when there is no Arabic text |
| `QuoteCard.FavoriteLabel` | components/QuoteCard.tsx:107 | the caption is 'Saved' exactly when the quote is favorited |
| `QuoteCard.Render` | components/QuoteCard.tsx:17-107 | while loading only the placeholder, without any quote field; otherwise the play button and Arabic line exactly when there is an Arabic text |
| `QuoteCard.Player.constructor` | components/QuoteCard.tsx:15 | a card starts with nothing playing |
| `QuoteCard.Player.BeginPlayAudio` | components/QuoteCard.tsx:39-43 | playback starts exactly when there is an Arabic text and nothing is playing, and speaks that text |
| `QuoteCard.Player.FinishPlayAudio` | components/QuoteCard.tsx:44-48 | playback ends after success or failure, and the alert shows exactly on failure |
| `AdBanner.IndexOf` | components/AdBanner.tsx:31 | the first occurrence of the separator |
| `AdBanner.Split` | components/AdBanner.tsx:31 | a split has at least one piece, and at least two when the separator occurs |
| `AdBanner.SplitPartsFree` | components/AdBanner.tsx:31 | no piece of a split contains the separator |
| `AdBanner.JoinSplit` | components/AdBanner.tsx:31 | joining the pieces with the separator gives back the id |
| `AdBanner.SlotId` | components/AdBanner.tsx:31 | no ensures of its own (the same expression as components/InterstitialAd.tsx:45); `SlotIdOfPlainId`, `SlotIdAfterFirstSlash` and `SlotIdOfUnit` state its properties |
| `AdBanner.SlotIdOfPlainId` | components/AdBanner.tsx:31 | an id without '/' is its own slot id |
| `AdBanner.SlotIdAfterFirstSlash` | components/AdBanner.tsx:31 | for an id with '/', the slot id is the text after the first '/' up to the next '/' or the end, and contains no '/' |
| `AdBanner.IndexOfFirst` | components/AdBanner.tsx:31 | any position before which the separator does not occur is the first occurrence |
| `AdBanner.SlotIdOfUnit` | components/InterstitialAd.tsx:45 | an id `publisher/slot` with no other '/' gives its slot |
| `AdBanner.DefaultBannerSlot` | components/AdBanner.tsx:11-31 | the default banner unit gives slot 7312383307 |
| `AdBanner.Attributes` | components/AdBanner.tsx:40-47 | no ensures of its own; `AttributesDistinguishVariants` states its values |
| `AdBanner.AttributesDistinguishVariants` | components/AdBanner.tsx:29-47 | the large variant is 'auto', 'true', '100%', 'auto'; the standard one differs in every field and is 'banner', 'false', '320px', '50px' |

## Left out

- services/audioService.ts is not part of this model: the speech-synthesis
  call, base64 decoding, sample scaling and audio playback are foreign calls,
  platform built-ins, floating point and I/O. The playback handlers here yield
  the text to speak and take the outcome as a parameter.
- The remote text-generation request and the JSON parsing of its reply are
  left out. The reply is the `remote` parameter, taken to be a well-formed
  quote.
- JSON encoding in storage is left out. Data that the code would misread
  (a corrupt array, or a theme string that is neither 'light' nor 'dark') is
  ruled out by `Storage.WellFormed`. The code does not handle it.
- Wall-clock timers are left out: the 500 ms load and the one-second tick are
  the steps `Load` and `Tick`. The load timer is re-armed on every countdown
  change, which has no further effect once loaded, so it is not modelled.
- JSX markup, CSS classes and the `dark` class on the document element are left
  out. Only the rendered fields the rules are about appear in `Screen` and
  `CardView`.
- The ad SDK's `push` calls are left out (foreign calls).
- `navigator.share`, the clipboard, `vibrate`, the `Notification` constructor,
  `confirm` and `window.location.reload` are left out. Their inputs are
  parameters, and the reload is a fresh mount on the emptied store.
- React's ordering of effects and cleanups, the online/offline listeners and
  overlapping fetches are left out. Each fetch runs to completion, and
  connectivity changes through `SetOnline`.
- The progress-bar percentage is left out (floating-point division); only its
  integer numerator, the elapsed seconds, is modelled.
- `Tasbih.CycledIndex`: allows only the steps +1 and -1, the only values the
  source passes (components/Tasbih.tsx:65, 67).
- Arabic strings in `Constants`: in constants.tsx every ف (fa) has lost the
  second byte of its UTF-8 encoding (D9 81), so that letter and some
  diacritics were reconstructed from the well-known phrases; the strings may
  differ from the source in those letters and marks.
- `Storage.WellFormed`: demands distinct texts of the stored favorites,
  because `toggleFavorite` is their only writer (App.tsx:99-106); a store
  edited from outside the application is not modelled.
- A trigger while an ad is already shown overwrites `isRewardedMode`
  (App.tsx:71-74), and `App.AppState.TriggerInterstitial` follows that.
- A failed remote call does not consult the bundled quotes by mood
  (services/geminiService.ts:59-63). `GeminiService.FailureQuote` follows the
  code, and `GeminiService.OfflineAndFailureDiffer` shows the difference from
  the offline branch.
- `InterstitialAd.Overlay.Render`: its `elapsed` and `total` fields are the
  corrected progress measure, against the countdown's own start. The progress
  bar as written (components/InterstitialAd.tsx:94) uses the current prop for
  both; that numerator is `InterstitialAd.Overlay.ElapsedAsWritten`, and its
  denominator is `InterstitialAd.InitialCountdown` of the current prop. The
  badge is rendered from the current prop, as written.

## Findings

| source | as written | input that shows it | evidently intended | confidence | as-written member | corrected member |
|---|---|---|---|---|---|---|
| components/InterstitialAd.tsx:94 | the progress numerator is the current prop's total (10 or 5) minus a countdown that was started from the prop at mount; App.tsx:196-201 keeps the same overlay mounted when `isRewarded` changes | "Watch Reward Ad" starts a 10-second session; within the 500 ms before the overlay renders, a tap that passes an ad gate calls `triggerInterstitial`; the numerator becomes 5 - 10 = -5 | the elapsed count stays in [0, total] and is measured against the countdown's own start | low, not executed | `App.RewardedSwitchedToPlain` | `InterstitialAd.Overlay.Elapsed` |
