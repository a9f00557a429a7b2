// The top-level application state: favorites, theme, notifications, the
// interstitial flags, the current quote and its loading flag, with every
// persisted setting written to storage on each change.
module App {
  import opened Types
  import opened Storage
  import opened AdGate
  import opened GeminiService
  import AdBanner
  import InterstitialAd

  const BANNER_UNIT: string := "ca-app-pub-6687316362787087/7312383307"
  const INTERSTITIAL_UNIT: string := "ca-app-pub-6687316362787087/7381173247"
  const REWARDED_UNIT: string := "ca-app-pub-6687316362787087/3181566602"

  const DEFAULT_REMINDER_TIME: string := "08:00"

  /** The unit the overlay is given: the rewarded unit in rewarded mode,
      the interstitial unit otherwise. */
  function OverlayUnit(rewarded: bool): string
  {
    if rewarded then REWARDED_UNIT else INTERSTITIAL_UNIT
  }

  /** Each ad unit names its own slot, and the two overlay modes ask for
      different slots. */
  lemma UnitSlots()
    ensures AdBanner.SlotId(BANNER_UNIT) == "7312383307"
    ensures AdBanner.SlotId(OverlayUnit(false)) == "7381173247"
    ensures AdBanner.SlotId(OverlayUnit(true)) == "3181566602"
  {
    var publisher := "ca-app-pub-6687316362787087";
    assert '/' !in publisher;
    assert '/' !in "7312383307" && '/' !in "7381173247" && '/' !in "3181566602";
    assert BANNER_UNIT == publisher + "/" + "7312383307";
    assert INTERSTITIAL_UNIT == publisher + "/" + "7381173247";
    assert REWARDED_UNIT == publisher + "/" + "3181566602";
    AdBanner.SlotIdOfUnit(publisher, "7312383307");
    AdBanner.SlotIdOfUnit(publisher, "7381173247");
    AdBanner.SlotIdOfUnit(publisher, "3181566602");
  }

  /** How one run of `fetchNewQuote` leaves storage: unchanged unless the
      remote reply arrived, and then only the cache changes, to the insertion
      of the reply. */
  ghost predicate StoredAfterFetch(before: map<string, Stored>, after: map<string, Stored>,
                                   online: bool, remote: Option<IslamicQuote>)
  {
    if online && remote.Some? then
      && QuotesAt(after, CACHE_KEY) == CacheInsert(QuotesAt(before, CACHE_KEY), remote.value)
      && (after == before || after == before[CACHE_KEY := QuoteList(QuotesAt(after, CACHE_KEY))])
    else after == before
  }

  /** The answer of the notification permission prompt. */
  datatype Permission = Granted | Denied | Default

  // ---------------------------------------------------------------------------
  // Favorites as a list computation

  /** `qs.filter(item => item.quote !== text)`. */
  function WithoutText(qs: seq<IslamicQuote>, text: string): (r: seq<IslamicQuote>)
    ensures |r| <= |qs|
  {
    if qs == [] then []
    else (if qs[0].quote != text then [qs[0]] else []) + WithoutText(qs[1..], text)
  }

  /** The filtered list holds exactly the entries with another text. */
  lemma {:induction false} WithoutTextMembers(qs: seq<IslamicQuote>, text: string)
    ensures forall q :: q in WithoutText(qs, text) <==> q in qs && q.quote != text
  {
    if qs != [] {
      WithoutTextMembers(qs[1..], text);
      assert qs == [qs[0]] + qs[1..];
    }
  }

  /** Filtering out a text that does not occur returns the list itself. */
  lemma {:induction false} WithoutAbsentText(qs: seq<IslamicQuote>, text: string)
    requires !HasText(qs, text)
    ensures WithoutText(qs, text) == qs
  {
    if qs != [] {
      assert qs[0].quote != text;
      assert !HasText(qs[1..], text) by {
        forall i | 0 <= i < |qs[1..]|
          ensures qs[1..][i].quote != text
        {
          assert qs[1..][i] == qs[i + 1];
        }
      }
      WithoutAbsentText(qs[1..], text);
      assert qs == [qs[0]] + qs[1..];
    }
  }

  /** Filtering a concatenation filters each part in turn, so what is kept
      stays in its order. */
  lemma {:induction false} WithoutTextAppend(a: seq<IslamicQuote>, b: seq<IslamicQuote>, text: string)
    ensures WithoutText(a + b, text) == WithoutText(a, text) + WithoutText(b, text)
  {
    if a == [] {
      assert a + b == b;
    } else {
      assert (a + b)[0] == a[0];
      assert (a + b)[1..] == a[1..] + b;
      WithoutTextAppend(a[1..], b, text);
    }
  }

  /** Putting in front of a list with distinct texts a quote whose text it
      does not hold keeps the texts distinct. */
  lemma PrependDistinct(q: IslamicQuote, xs: seq<IslamicQuote>)
    requires DistinctTexts(xs) && forall x :: x in xs ==> x.quote != q.quote
    ensures DistinctTexts([q] + xs)
  {
    var r := [q] + xs;
    forall i, j | 0 <= i < j < |r|
      ensures r[i].quote != r[j].quote
    {
      assert r[j] == xs[j - 1];
      if i > 0 {
        assert r[i] == xs[i - 1];
      }
    }
  }

  /** Filtering a list whose texts are distinct keeps them distinct. */
  lemma {:induction false} WithoutTextDistinct(qs: seq<IslamicQuote>, text: string)
    requires DistinctTexts(qs)
    ensures DistinctTexts(WithoutText(qs, text))
  {
    if qs != [] {
      var tail := qs[1..];
      assert DistinctTexts(tail) by {
        forall i, j | 0 <= i < j < |tail|
          ensures tail[i].quote != tail[j].quote
        {
          assert tail[i] == qs[i + 1] && tail[j] == qs[j + 1];
        }
      }
      WithoutTextDistinct(tail, text);
      var rest := WithoutText(tail, text);
      if qs[0].quote != text {
        WithoutTextMembers(tail, text);
        forall x | x in rest
          ensures x.quote != qs[0].quote
        {
          var m :| 0 <= m < |tail| && tail[m] == x;
          assert qs[m + 1] == x;
        }
        PrependDistinct(qs[0], rest);
      }
    }
  }

  /** The list `toggleFavorite(q)` produces: every entry with q's text removed
      when there is one, otherwise q prepended. */
  function ToggledFavorites(prev: seq<IslamicQuote>, q: IslamicQuote): seq<IslamicQuote>
  {
    if HasText(prev, q.quote) then WithoutText(prev, q.quote) else [q] + prev
  }

  /** Toggling a favorited text removes all entries with that text and keeps
      every other entry. */
  lemma ToggleRemoves(prev: seq<IslamicQuote>, q: IslamicQuote)
    requires HasText(prev, q.quote)
    ensures !HasText(ToggledFavorites(prev, q), q.quote)
    ensures forall x :: x in ToggledFavorites(prev, q) <==> x in prev && x.quote != q.quote
  {
    var r := ToggledFavorites(prev, q);
    WithoutTextMembers(prev, q.quote);
    forall i | 0 <= i < |r|
      ensures r[i].quote != q.quote
    {
      assert r[i] in r;
    }
  }

  /** With texts distinct, toggling the favorite at index k removes exactly
      that entry and keeps the others in their order. */
  lemma ToggleRemovesAt(prev: seq<IslamicQuote>, q: IslamicQuote, k: nat)
    requires DistinctTexts(prev) && k < |prev| && prev[k].quote == q.quote
    ensures ToggledFavorites(prev, q) == prev[..k] + prev[k + 1..]
  {
    var text := q.quote;
    var before, after := prev[..k], prev[k + 1..];
    assert prev == before + [prev[k]] + after;
    WithoutTextAppend(before + [prev[k]], after, text);
    WithoutTextAppend(before, [prev[k]], text);
    assert WithoutText([prev[k]], text) == [] by {
      assert [prev[k]][1..] == [];
    }
    assert !HasText(before, text) by {
      forall i | 0 <= i < |before|
        ensures before[i].quote != text
      {
        assert before[i] == prev[i];
      }
    }
    assert !HasText(after, text) by {
      forall i | 0 <= i < |after|
        ensures after[i].quote != text
      {
        assert after[i] == prev[k + 1 + i];
      }
    }
    WithoutAbsentText(before, text);
    WithoutAbsentText(after, text);
  }

  /** Favorites stay keyed by their text: a toggle never produces two entries
      with the same text. */
  lemma ToggledFavoritesDistinct(prev: seq<IslamicQuote>, q: IslamicQuote)
    requires DistinctTexts(prev)
    ensures DistinctTexts(ToggledFavorites(prev, q))
  {
    if HasText(prev, q.quote) {
      WithoutTextDistinct(prev, q.quote);
    } else {
      forall x | x in prev
        ensures x.quote != q.quote
      {
        var m :| 0 <= m < |prev| && prev[m] == x;
      }
      PrependDistinct(q, prev);
    }
  }

  /** Toggling a text not yet favorited puts q in front of the old list. */
  lemma ToggleAdds(prev: seq<IslamicQuote>, q: IslamicQuote)
    requires !HasText(prev, q.quote)
    ensures var r := ToggledFavorites(prev, q); |r| == |prev| + 1 && r[0] == q && r[1..] == prev
  {
  }

  /** Whether q counts as favorited flips with every toggle. */
  lemma ToggleFlipsFavorited(prev: seq<IslamicQuote>, q: IslamicQuote)
    ensures HasText(ToggledFavorites(prev, q), q.quote) <==> !HasText(prev, q.quote)
  {
    if HasText(prev, q.quote) {
      ToggleRemoves(prev, q);
    } else {
      assert ToggledFavorites(prev, q)[0] == q;
    }
  }

  /** Favoriting a quote that is not yet saved and then toggling it again
      restores the original list. */
  lemma ToggleTwiceRestores(prev: seq<IslamicQuote>, q: IslamicQuote)
    requires !HasText(prev, q.quote)
    ensures ToggledFavorites(ToggledFavorites(prev, q), q) == prev
  {
    var added := [q] + prev;
    assert added[0] == q;
    assert added[1..] == prev;
    assert WithoutText(added, q.quote) == WithoutText(prev, q.quote);
    WithoutAbsentText(prev, q.quote);
  }

  // ---------------------------------------------------------------------------
  // The state record and its relation to storage

  /** All state the top-level component holds. */
  datatype View = View(
    activeTab: AppTab,
    selectedMood: Mood,
    quote: Option<IslamicQuote>,
    loading: bool,
    favorites: seq<IslamicQuote>,
    theme: Theme,
    isOnline: bool,
    showInterstitial: bool,
    isRewardedMode: bool,
    notificationsEnabled: bool,
    reminderTime: string)

  /** The theme the mount effect reads back: the stored one when there is one. */
  function StoredTheme(items: map<string, Stored>): (t: Theme)
    ensures WellFormed(items) && THEME_KEY in items ==> Text(ThemeName(t)) == items[THEME_KEY]
    ensures THEME_KEY !in items ==> t == Light
  {
    if THEME_KEY in items && items[THEME_KEY].Text? && ParseTheme(items[THEME_KEY].s).Some?
    then ParseTheme(items[THEME_KEY].s).value
    else Light
  }

  /** The state after the first render and the mount effect, reading `items`:
      favorites when stored, the stored theme, notifications on only for the
      exact string 'true', the stored reminder time when non-empty. */
  function MountedView(items: map<string, Stored>, online: bool): View
  {
    View(
      Home, SeekingKnowledge, None, false,
      QuotesAt(items, FAVORITES_KEY),
      StoredTheme(items),
      online, false, false,
      NOTIFICATIONS_KEY in items && items[NOTIFICATIONS_KEY] == Text("true"),
      if REMINDER_TIME_KEY in items && items[REMINDER_TIME_KEY].Text? && items[REMINDER_TIME_KEY].s != ""
      then items[REMINDER_TIME_KEY].s else DEFAULT_REMINDER_TIME)
  }

  /** The favorites are keyed by their text, and the persisted keys agree
      with the in-memory favorites, theme and notification flag. */
  ghost predicate SyncedWith(v: View, items: map<string, Stored>)
  {
    && DistinctTexts(v.favorites)
    && (FAVORITES_KEY in items ==> items[FAVORITES_KEY] == QuoteList(v.favorites))
    && (FAVORITES_KEY !in items ==> v.favorites == [])
    && (THEME_KEY in items ==> items[THEME_KEY] == Text(ThemeName(v.theme)))
    && (THEME_KEY !in items ==> v.theme == Light)
    && (v.notificationsEnabled <==> NOTIFICATIONS_KEY in items && items[NOTIFICATIONS_KEY] == Text("true"))
  }

  /** A freshly mounted state agrees with the storage it was read from. */
  lemma MountedViewSynced(items: map<string, Stored>, online: bool)
    requires WellFormed(items)
    ensures SyncedWith(MountedView(items, online), items)
  {
  }

  /** What a session persisted is what the next mount reads back: favorites,
      theme and the notification flag survive a reload. */
  lemma PersistedStateSurvivesReload(v: View, items: map<string, Stored>, online: bool)
    requires WellFormed(items) && SyncedWith(v, items)
    ensures MountedView(items, online).favorites == v.favorites
    ensures MountedView(items, online).theme == v.theme
    ensures MountedView(items, online).notificationsEnabled == v.notificationsEnabled
  {
    if THEME_KEY in items {
      ThemeNameRoundTrip(v.theme);
    }
  }

  class AppState {
    var activeTab: AppTab
    var selectedMood: Mood
    var quote: Option<IslamicQuote>
    var loading: bool
    var favorites: seq<IslamicQuote>
    var theme: Theme
    var isOnline: bool
    var showInterstitial: bool
    var isRewardedMode: bool
    var notificationsEnabled: bool
    var reminderTime: string
    const store: LocalStorage

    function Snapshot(): View
      reads this
    {
      View(activeTab, selectedMood, quote, loading, favorites, theme, isOnline,
           showInterstitial, isRewardedMode, notificationsEnabled, reminderTime)
    }

    ghost predicate Valid()
      reads this, store
    {
      store.Valid() && SyncedWith(Snapshot(), store.items)
    }

    /** The first render followed by the mount effect, which reads storage.
        `online` is `navigator.onLine`. */
    constructor Mount(store: LocalStorage, online: bool)
      requires store.Valid()
      ensures Valid() && this.store == store
      ensures Snapshot() == MountedView(store.items, online)
    {
      var items := store.items;
      activeTab, selectedMood, quote, loading := Home, SeekingKnowledge, None, false;
      isOnline, showInterstitial, isRewardedMode := online, false, false;
      favorites := QuotesAt(items, FAVORITES_KEY);
      theme := StoredTheme(items);
      notificationsEnabled := NOTIFICATIONS_KEY in items && items[NOTIFICATIONS_KEY] == Text("true");
      reminderTime :=
        if REMINDER_TIME_KEY in items && items[REMINDER_TIME_KEY].Text? && items[REMINDER_TIME_KEY].s != ""
        then items[REMINDER_TIME_KEY].s else DEFAULT_REMINDER_TIME;
      this.store := store;
      new;
      MountedViewSynced(items, online);
    }

    /** `isFavorited`: some favorite has the quote's text. */
    function IsFavorited(q: IslamicQuote): bool
      reads this
    {
      HasText(favorites, q.quote)
    }

    /** `triggerInterstitial`: shows the plain interstitial, overwriting the
        rewarded flag even when an ad is already on screen. */
    method TriggerInterstitial()
      requires Valid()
      modifies this
      ensures Valid()
      ensures Snapshot() == old(Snapshot()).(showInterstitial := true, isRewardedMode := false)
    {
      isRewardedMode := false;
      showInterstitial := true;
    }

    /** `triggerRewardedAd`: shows the rewarded variant, with no probability gate. */
    method TriggerRewardedAd()
      requires Valid()
      modifies this
      ensures Valid()
      ensures Snapshot() == old(Snapshot()).(showInterstitial := true, isRewardedMode := true)
    {
      isRewardedMode := true;
      showInterstitial := true;
    }

    /** The overlay's `onClose`: hides it and leaves the rewarded flag. */
    method CloseInterstitial()
      requires Valid()
      modifies this
      ensures Valid()
      ensures Snapshot() == old(Snapshot()).(showInterstitial := false)
    {
      showInterstitial := false;
    }

    /** `toggleTheme(newTheme?)`: sets the given theme, or flips the current one,
        persists it, and shows an interstitial when the sample is below 0.4. */
    method ToggleTheme(newTheme: Option<Theme>, sample: real) returns (adShown: bool)
      requires Valid()
      modifies this, store
      ensures Valid()
      ensures theme == newTheme.GetOr(Flip(old(theme)))
      ensures store.items == old(store.items)[THEME_KEY := Text(ThemeName(theme))]
      ensures adShown <==> sample < 0.4
      ensures Snapshot() == old(Snapshot()).(theme := theme,
                                             showInterstitial := old(showInterstitial) || adShown,
                                             isRewardedMode := old(isRewardedMode) && !adShown)
    {
      var targetTheme := newTheme.GetOr(if theme == Light then Dark else Light);
      theme := targetTheme;
      store.SetItem(THEME_KEY, Text(ThemeName(targetTheme)));
      adShown := ShouldShowAd(ThemeToggled, sample);
      if adShown {
        TriggerInterstitial();
      }
    }

    /** The synchronous start of `fetchNewQuote(mood, skipAd)`: the ad gate,
        which only a refresh without `skipAd` passes through, then `loading`. */
    method BeginFetch(skipAd: bool, sample: real) returns (adShown: bool)
      requires Valid()
      modifies this
      ensures Valid()
      ensures adShown <==> !skipAd && sample < 0.35
      ensures Snapshot() == old(Snapshot()).(loading := true,
                                             showInterstitial := old(showInterstitial) || adShown,
                                             isRewardedMode := old(isRewardedMode) && !adShown)
    {
      adShown := !skipAd && ShouldShowAd(QuoteRefreshed, sample);
      if adShown {
        TriggerInterstitial();
      }
      loading := true;
    }

    /** The end of `fetchNewQuote` once `generateQuote` settles: `outcome` is the
        resolved quote, or `None` when the promise rejected. The quote is kept
        on rejection and `loading` is cleared either way. */
    method CompleteFetch(outcome: Option<IslamicQuote>)
      requires Valid()
      modifies this
      ensures Valid()
      ensures Snapshot() == old(Snapshot()).(loading := false,
                                             quote := if outcome.Some? then outcome else old(quote))
    {
      if outcome.Some? {
        quote := outcome;
      }
      loading := false;
    }

    /** `fetchNewQuote(mood, skipAd)` run to completion: `online` is
        `navigator.onLine` at the call, `pickSample` the draw of the offline
        pick and `remote` the generator's reply. */
    method FetchNewQuote(mood: Mood, skipAd: bool, adSample: real, online: bool, pickSample: real,
                         remote: Option<IslamicQuote>) returns (adShown: bool)
      requires Valid() && 0.0 <= pickSample < 1.0
      modifies this, store
      ensures Valid()
      ensures adShown <==> !skipAd && adSample < 0.35
      ensures quote == Some(ResolvedQuote(old(CachedQuotes(store)), mood, online, pickSample, remote))
      ensures Snapshot() == old(Snapshot()).(loading := false, quote := quote,
                                             showInterstitial := old(showInterstitial) || adShown,
                                             isRewardedMode := old(isRewardedMode) && !adShown)
      ensures StoredAfterFetch(old(store.items), store.items, online, remote)
    {
      adShown := BeginFetch(skipAd, adSample);
      var newQuote := GenerateQuote(store, mood, online, pickSample, remote);
      CompleteFetch(Some(newQuote));
    }

    /** Choosing a mood on the home screen. The effect on `selectedMood` runs
        only when the mood changes, and always with `skipAd`, so no ad is shown. */
    method SelectMood(mood: Mood, online: bool, pickSample: real, remote: Option<IslamicQuote>)
      requires Valid() && 0.0 <= pickSample < 1.0
      modifies this, store
      ensures Valid()
      ensures selectedMood == mood
      ensures showInterstitial == old(showInterstitial) && isRewardedMode == old(isRewardedMode)
      ensures mood == old(selectedMood) ==> Snapshot() == old(Snapshot()) && store.items == old(store.items)
      ensures mood != old(selectedMood) ==>
        && quote == Some(ResolvedQuote(old(CachedQuotes(store)), mood, online, pickSample, remote))
        && Snapshot() == old(Snapshot()).(selectedMood := mood, quote := quote, loading := false)
        && StoredAfterFetch(old(store.items), store.items, online, remote)
    {
      if mood == selectedMood {
        return;
      }
      selectedMood := mood;
      // with skipAd the ad sample is never drawn (App.tsx:82), so any value will do
      var adShown := FetchNewQuote(mood, true, 0.0, online, pickSample, remote);
    }

    /** The first run of the effect on `selectedMood`, right after mounting:
        a fetch for the current mood with `skipAd`, so no ad is shown. */
    method InitialFetch(online: bool, pickSample: real, remote: Option<IslamicQuote>)
      requires Valid() && 0.0 <= pickSample < 1.0
      modifies this, store
      ensures Valid()
      ensures quote == Some(ResolvedQuote(old(CachedQuotes(store)), selectedMood, online, pickSample, remote))
      ensures Snapshot() == old(Snapshot()).(quote := quote, loading := false)
      ensures StoredAfterFetch(old(store.items), store.items, online, remote)
    {
      // with skipAd the ad sample is never drawn (App.tsx:82), so any value will do
      var adShown := FetchNewQuote(selectedMood, true, 0.0, online, pickSample, remote);
    }

    /** `toggleFavorite(q)`: updates the list, persists it, and when the quote
        was added shows an interstitial for a sample below 0.25. */
    method ToggleFavorite(q: IslamicQuote, sample: real) returns (adShown: bool)
      requires Valid()
      modifies this, store
      ensures Valid()
      ensures favorites == ToggledFavorites(old(favorites), q)
      ensures store.items == old(store.items)[FAVORITES_KEY := QuoteList(favorites)]
      ensures adShown <==> !HasText(old(favorites), q.quote) && sample < 0.25
      ensures IsFavorited(q) <==> !old(IsFavorited(q))
      ensures Snapshot() == old(Snapshot()).(favorites := favorites,
                                             showInterstitial := old(showInterstitial) || adShown,
                                             isRewardedMode := old(isRewardedMode) && !adShown)
    {
      var prev := favorites;
      var wasSaved := HasText(prev, q.quote);
      var updated := if wasSaved then WithoutText(prev, q.quote) else [q] + prev;
      assert updated == ToggledFavorites(prev, q);
      ToggleFlipsFavorited(prev, q);
      ToggledFavoritesDistinct(prev, q);
      favorites := updated;
      store.SetItem(FAVORITES_KEY, QuoteList(updated));
      adShown := !wasSaved && ShouldShowAd(FavoriteAdded, sample);
      if adShown {
        TriggerInterstitial();
      }
    }

    /** `handleToggleNotifications`: disabling always succeeds and stores
        'false'; enabling asks for permission and succeeds, storing 'true', only
        when it is granted. */
    method ToggleNotifications(permission: Permission)
      requires Valid()
      modifies this, store
      ensures Valid()
      ensures old(notificationsEnabled) ==>
        !notificationsEnabled && store.items == old(store.items)[NOTIFICATIONS_KEY := Text("false")]
      ensures !old(notificationsEnabled) && permission == Granted ==>
        notificationsEnabled && store.items == old(store.items)[NOTIFICATIONS_KEY := Text("true")]
      ensures !old(notificationsEnabled) && permission != Granted ==>
        !notificationsEnabled && store.items == old(store.items)
      ensures Snapshot() == old(Snapshot()).(notificationsEnabled := notificationsEnabled)
    {
      if !notificationsEnabled {
        if permission == Granted {
          notificationsEnabled := true;
          store.SetItem(NOTIFICATIONS_KEY, Text("true"));
        }
      } else {
        notificationsEnabled := false;
        store.SetItem(NOTIFICATIONS_KEY, Text("false"));
      }
    }

    /** `clearCache`: when confirmed, clears storage and reloads, which mounts
        the application afresh on the empty store. */
    method ClearCache(confirmed: bool, online: bool)
      requires Valid()
      modifies this, store
      ensures Valid()
      ensures !confirmed ==> Snapshot() == old(Snapshot()) && store.items == old(store.items)
      ensures confirmed ==> store.items == map[] && Snapshot() == MountedView(map[], online)
    {
      if confirmed {
        store.Clear();
        activeTab, selectedMood, quote, loading := Home, SeekingKnowledge, None, false;
        isOnline, showInterstitial, isRewardedMode := online, false, false;
        favorites, theme, notificationsEnabled, reminderTime := [], Light, false, DEFAULT_REMINDER_TIME;
      }
    }

    /** A tap on the navigation bar. */
    method SelectTab(tab: AppTab)
      requires Valid()
      modifies this
      ensures Valid()
      ensures Snapshot() == old(Snapshot()).(activeTab := tab)
    {
      activeTab := tab;
    }

    /** The window's `online` and `offline` events. */
    method SetOnline(online: bool)
      requires Valid()
      modifies this
      ensures Valid()
      ensures Snapshot() == old(Snapshot()).(isOnline := online)
    {
      isOnline := online;
    }
  }

  /** A rewarded session whose parent switches to the plain interstitial
      before the first tick (InterstitialAd.tsx:94 against line 16): the
      numerator as written is 5 - 10, the corrected elapsed count 0. */
  method RewardedSwitchedToPlain() returns (asWritten: int, corrected: nat)
    ensures asWritten == -5
    ensures corrected == 0
  {
    var o := new InterstitialAd.Overlay(Some(OverlayUnit(true)), true);
    o.Rerender(OverlayUnit(false), false);
    o.Load();
    asWritten := o.ElapsedAsWritten();
    corrected := o.Elapsed();
  }
}
