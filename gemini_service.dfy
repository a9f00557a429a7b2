// The quote provider: a bounded, text-deduplicated cache of generated quotes
// in persistent storage, and the choice of a fallback quote when the device
// is offline or the remote generator fails.
//
// The remote generator is an oracle: `remote` is `Some(q)` when the request
// returned a parsable quote `q` and `None` for any failure inside the `try`.
// `Math.random()` is the parameter `sample`, a real number in [0, 1).
module GeminiService {
  import opened Types
  import opened Constants
  import opened Storage

  /** The cache keeps at most this many quotes. */
  const CACHE_LIMIT: nat := 50

  function Min(a: nat, b: nat): nat
  {
    if a <= b then a else b
  }

  /** Some entry has quote text `text`: `qs.find(q => q.quote === text)` is defined. */
  predicate HasText(qs: seq<IslamicQuote>, text: string)
  {
    exists i :: 0 <= i < |qs| && qs[i].quote == text
  }

  // ---------------------------------------------------------------------------
  // The cache

  /** The list `saveToCache` leaves in storage: the old one when a quote with the
      same text is already there, otherwise `[quote, ...cache].slice(0, 50)`. */
  function CacheInsert(cache: seq<IslamicQuote>, quote: IslamicQuote): seq<IslamicQuote>
  {
    if HasText(cache, quote.quote) then cache
    else ([quote] + cache)[..Min(|cache| + 1, CACHE_LIMIT)]
  }

  /** A quote whose text is already cached leaves the cache exactly as it was:
      it is neither added again nor moved to the front. */
  lemma CacheInsertPresent(cache: seq<IslamicQuote>, quote: IslamicQuote)
    requires HasText(cache, quote.quote)
    ensures CacheInsert(cache, quote) == cache
  {
  }

  /** A new text goes to the front; the rest is the old cache in its order,
      cut to 49 entries, so at most 50 remain. */
  lemma CacheInsertAbsent(cache: seq<IslamicQuote>, quote: IslamicQuote)
    requires !HasText(cache, quote.quote)
    ensures var r := CacheInsert(cache, quote);
      && 1 <= |r| <= CACHE_LIMIT
      && r[0] == quote
      && r[1..] == cache[..Min(|cache|, CACHE_LIMIT - 1)]
  {
    var r := CacheInsert(cache, quote);
    assert r == ([quote] + cache)[..Min(|cache| + 1, CACHE_LIMIT)];
    assert r[1..] == cache[..Min(|cache|, CACHE_LIMIT - 1)];
  }

  /** After saving, the quote's text can always be found in the cache. */
  lemma CacheInsertFindable(cache: seq<IslamicQuote>, quote: IslamicQuote)
    ensures HasText(CacheInsert(cache, quote), quote.quote)
  {
    if !HasText(cache, quote.quote) {
      CacheInsertAbsent(cache, quote);
      assert CacheInsert(cache, quote)[0].quote == quote.quote;
    }
  }

  /** Saving the same quote twice is the same as saving it once. */
  lemma CacheInsertIdempotent(cache: seq<IslamicQuote>, quote: IslamicQuote)
    ensures CacheInsert(CacheInsert(cache, quote), quote) == CacheInsert(cache, quote)
  {
    CacheInsertFindable(cache, quote);
  }

  /** A cache of at most 50 entries with pairwise distinct texts keeps both
      properties through any save. */
  lemma CacheInsertPreservesInvariant(cache: seq<IslamicQuote>, quote: IslamicQuote)
    requires |cache| <= CACHE_LIMIT && DistinctTexts(cache)
    ensures |CacheInsert(cache, quote)| <= CACHE_LIMIT
    ensures DistinctTexts(CacheInsert(cache, quote))
  {
    if !HasText(cache, quote.quote) {
      var r := CacheInsert(cache, quote);
      CacheInsertAbsent(cache, quote);
      forall i, j | 0 <= i < j < |r|
        ensures r[i].quote != r[j].quote
      {
        assert r[j] == cache[j - 1];
        if i == 0 {
          assert r[i] == quote;
        } else {
          assert r[i] == cache[i - 1];
        }
      }
    }
  }

  // ---------------------------------------------------------------------------
  // Filtering by mood

  /** `qs.filter(q => q.mood === mood)`. */
  function QuotesWithMood(qs: seq<IslamicQuote>, mood: Mood): (r: seq<IslamicQuote>)
    ensures |r| <= |qs|
  {
    if qs == [] then []
    else (if qs[0].mood == mood then [qs[0]] else []) + QuotesWithMood(qs[1..], mood)
  }

  /** The filtered list holds exactly the entries of that mood. */
  lemma {:induction false} QuotesWithMoodMembers(qs: seq<IslamicQuote>, mood: Mood)
    ensures forall q :: q in QuotesWithMood(qs, mood) <==> q in qs && q.mood == mood
  {
    if qs != [] {
      QuotesWithMoodMembers(qs[1..], mood);
      assert qs == [qs[0]] + qs[1..];
    }
  }

  /** The first element of the filtered list is the earliest entry of that mood. */
  lemma {:induction false} FirstWithMood(qs: seq<IslamicQuote>, mood: Mood)
    requires QuotesWithMood(qs, mood) != []
    ensures exists k :: (0 <= k < |qs| && qs[k] == QuotesWithMood(qs, mood)[0]
                         && qs[k].mood == mood && forall j :: 0 <= j < k ==> qs[j].mood != mood)
  {
    if qs[0].mood != mood {
      assert QuotesWithMood(qs, mood) == QuotesWithMood(qs[1..], mood);
      FirstWithMood(qs[1..], mood);
      var k :| 0 <= k < |qs[1..]| && qs[1..][k] == QuotesWithMood(qs[1..], mood)[0]
        && qs[1..][k].mood == mood && forall j :: 0 <= j < k ==> qs[1..][j].mood != mood;
      assert qs[k + 1] == qs[1..][k];
      forall j | 0 <= j < k + 1
        ensures qs[j].mood != mood
      {
        if j > 0 { assert qs[j] == qs[1..][j - 1]; }
      }
    } else {
      assert qs[0] == QuotesWithMood(qs, mood)[0];
    }
  }

  /** The bundled quotes of each mood: one each for Anxious, Lost, Seeking
      Knowledge and Tired, none for Grateful, Patient and Happy. */
  lemma StaticQuotesByMood()
    ensures QuotesWithMood(OFFLINE_QUOTES, Anxious) == [OFFLINE_QUOTES[0]]
    ensures QuotesWithMood(OFFLINE_QUOTES, Lost) == [OFFLINE_QUOTES[1]]
    ensures QuotesWithMood(OFFLINE_QUOTES, SeekingKnowledge) == [OFFLINE_QUOTES[2]]
    ensures QuotesWithMood(OFFLINE_QUOTES, Tired) == [OFFLINE_QUOTES[3]]
    ensures QuotesWithMood(OFFLINE_QUOTES, Grateful) == []
    ensures QuotesWithMood(OFFLINE_QUOTES, Patient) == []
    ensures QuotesWithMood(OFFLINE_QUOTES, Happy) == []
  {
    var s := OFFLINE_QUOTES;
    assert s[0].mood == Anxious && s[1].mood == Lost && s[2].mood == SeekingKnowledge && s[3].mood == Tired;
    var t1, t2, t3 := s[1..], s[2..], s[3..];
    assert t1[1..] == t2 && t2[1..] == t3 && t3[1..] == [];
    forall mood: Mood
      ensures QuotesWithMood(s, mood)
           == (if s[0].mood == mood then [s[0]] else []) + (if s[1].mood == mood then [s[1]] else [])
            + (if s[2].mood == mood then [s[2]] else []) + (if s[3].mood == mood then [s[3]] else [])
    {
      QuotesWithMoodCons(s, mood);
      QuotesWithMoodCons(t1, mood);
      QuotesWithMoodCons(t2, mood);
      QuotesWithMoodCons(t3, mood);
    }
  }

  /** Filtering a list with a known first element, one step. */
  lemma QuotesWithMoodCons(qs: seq<IslamicQuote>, mood: Mood)
    requires qs != []
    ensures QuotesWithMood(qs, mood)
         == (if qs[0].mood == mood then [qs[0]] else []) + QuotesWithMood(qs[1..], mood)
  {
  }

  // ---------------------------------------------------------------------------
  // The fallback choices

  /** `Math.floor(sample * n)`: for a sample in [0, 1) an index of an n-element list. */
  function RandomIndex(sample: real, n: nat): (i: nat)
    requires 0.0 <= sample < 1.0 && n > 0
    ensures i < n
  {
    var x := sample * n as real;
    assert 0.0 <= x < n as real;
    x.Floor
  }

  /** The offline choice (geminiService.ts, the `!navigator.onLine` branch): a
      cached quote of the mood picked by the sample, else the first bundled quote
      of the mood, else the first bundled quote. */
  function OfflineQuote(cache: seq<IslamicQuote>, mood: Mood, sample: real): (r: IslamicQuote)
    requires 0.0 <= sample < 1.0
    ensures QuotesWithMood(cache, mood) != [] ==> r in cache && r.mood == mood
    ensures QuotesWithMood(cache, mood) == [] ==> r in OFFLINE_QUOTES
    ensures r.mood == mood
         || (r == OFFLINE_QUOTES[0] && QuotesWithMood(cache, mood) == []
             && QuotesWithMood(OFFLINE_QUOTES, mood) == [])
  {
    var moodQuotes := QuotesWithMood(cache, mood);
    QuotesWithMoodMembers(cache, mood);
    QuotesWithMoodMembers(OFFLINE_QUOTES, mood);
    if |moodQuotes| > 0 then
      moodQuotes[RandomIndex(sample, |moodQuotes|)]
    else
      var staticQuotes := QuotesWithMood(OFFLINE_QUOTES, mood);
      if |staticQuotes| > 0 then staticQuotes[0] else OFFLINE_QUOTES[0]
  }

  /** The bundled quote the offline branch falls back to for each mood, written
      as a table. */
  function StaticFallback(mood: Mood): IslamicQuote
  {
    match mood
    case Anxious => OFFLINE_QUOTES[0]
    case Lost => OFFLINE_QUOTES[1]
    case SeekingKnowledge => OFFLINE_QUOTES[2]
    case Tired => OFFLINE_QUOTES[3]
    case Grateful => OFFLINE_QUOTES[0]
    case Patient => OFFLINE_QUOTES[0]
    case Happy => OFFLINE_QUOTES[0]
  }

  /** Offline with no cached quote of the mood, the result is the table's entry. */
  lemma OfflineWithoutCachedMatch(cache: seq<IslamicQuote>, mood: Mood, sample: real)
    requires 0.0 <= sample < 1.0 && QuotesWithMood(cache, mood) == []
    ensures OfflineQuote(cache, mood, sample) == StaticFallback(mood)
  {
    StaticQuotesByMood();
  }

  /** Offline with exactly one cached quote of the mood, that quote is returned
      whatever the sample. */
  lemma OfflineSingleCandidate(cache: seq<IslamicQuote>, mood: Mood, sample: real, q: IslamicQuote)
    requires 0.0 <= sample < 1.0 && QuotesWithMood(cache, mood) == [q]
    ensures OfflineQuote(cache, mood, sample) == q
  {
  }

  /** Every cached quote of the mood is returned for some sample. */
  lemma OfflineEveryCandidateReachable(cache: seq<IslamicQuote>, mood: Mood, k: nat)
    requires k < |QuotesWithMood(cache, mood)|
    ensures exists sample: real :: (0.0 <= sample < 1.0
                                   && OfflineQuote(cache, mood, sample) == QuotesWithMood(cache, mood)[k])
  {
    var n := |QuotesWithMood(cache, mood)|;
    var sample := k as real / n as real;
    RandomIndexHits(k, n);
    var m := QuotesWithMood(cache, mood);
    assert OfflineQuote(cache, mood, sample) == m[RandomIndex(sample, |m|)];
  }

  /** The draw is uniform: index k is chosen exactly for the samples in
      [k/n, (k+1)/n), an interval 1/n wide. */
  lemma RandomIndexInterval(sample: real, n: nat, k: nat)
    requires 0.0 <= sample < 1.0 && n > 0
    ensures RandomIndex(sample, n) == k
        <==> k as real / n as real <= sample < (k + 1) as real / n as real
    ensures (k + 1) as real / n as real - k as real / n as real == 1.0 / n as real
  {
    var b := n as real;
    QuotientBelow(k as real, b, sample);
    QuotientBelow((k + 1) as real, b, sample);
    assert (k + 1) as real / b - k as real / b == ((k + 1) as real - k as real) / b;
  }

  /** For a positive divisor, a/b <= s exactly when a <= s * b. */
  lemma QuotientBelow(a: real, b: real, s: real)
    requires b > 0.0
    ensures a / b <= s <==> a <= s * b
  {
    assert (a / b) * b == a;
    if a / b <= s {
      assert (a / b) * b <= s * b;
    } else {
      assert s * b < (a / b) * b;
    }
  }

  /** The sample k/n selects index k. */
  lemma RandomIndexHits(k: nat, n: nat)
    requires k < n
    ensures 0.0 <= k as real / n as real < 1.0
    ensures RandomIndex(k as real / n as real, n) == k
  {
    var a, b := k as real, n as real;
    assert (a / b) * b == a;
  }

  /** The choice after a failed remote call (the `catch` branch): the first,
      most recent, cached quote of the mood, else the first bundled quote. */
  function FailureQuote(cache: seq<IslamicQuote>, mood: Mood): (r: IslamicQuote)
    ensures QuotesWithMood(cache, mood) == [] ==> r == OFFLINE_QUOTES[0]
    ensures QuotesWithMood(cache, mood) != [] ==>
      exists k :: 0 <= k < |cache| && cache[k] == r && r.mood == mood
        && forall j :: 0 <= j < k ==> cache[j].mood != mood
  {
    var moodQuotes := QuotesWithMood(cache, mood);
    if moodQuotes != [] then FirstWithMood(cache, mood); moodQuotes[0] else OFFLINE_QUOTES[0]
  }

  /** The two fallbacks differ: offline consults the bundled quotes by mood,
      failure goes straight to the first bundled quote. */
  lemma OfflineAndFailureDiffer()
    ensures OfflineQuote([], Lost, 0.0) == OFFLINE_QUOTES[1]
    ensures FailureQuote([], Lost) == OFFLINE_QUOTES[0]
    ensures OFFLINE_QUOTES[0] != OFFLINE_QUOTES[1]
  {
    StaticQuotesByMood();
  }

  // ---------------------------------------------------------------------------
  // The stateful operations on storage

  /** `getCachedQuotes`: the stored cache, or the empty list when none is stored. */
  function CachedQuotes(store: LocalStorage): seq<IslamicQuote>
    reads store
  {
    QuotesAt(store.items, CACHE_KEY)
  }

  /** `saveToCache`: reads the stored cache and writes back `CacheInsert` of it,
      touching storage only when the quote's text is new. */
  method SaveToCache(store: LocalStorage, quote: IslamicQuote)
    requires store.Valid()
    modifies store
    ensures store.Valid()
    ensures CachedQuotes(store) == CacheInsert(old(CachedQuotes(store)), quote)
    ensures if HasText(old(CachedQuotes(store)), quote.quote)
            then store.items == old(store.items)
            else store.items == old(store.items)[CACHE_KEY := QuoteList(CachedQuotes(store))]
  {
    var cache := CachedQuotes(store);
    if !HasText(cache, quote.quote) {
      var updated := ([quote] + cache)[..Min(|cache| + 1, CACHE_LIMIT)];
      store.SetItem(CACHE_KEY, QuoteList(updated));
    }
  }

  /** The quote `generateQuote` resolves to, from the cache it reads: the
      remote reply when it is online and the reply arrives, otherwise the
      offline or the failure fallback. */
  function ResolvedQuote(cache: seq<IslamicQuote>, mood: Mood, online: bool, sample: real,
                         remote: Option<IslamicQuote>): (r: IslamicQuote)
    requires 0.0 <= sample < 1.0
    ensures online && remote.Some? ==> r == remote.value
    ensures !(online && remote.Some?) && QuotesWithMood(cache, mood) != [] ==> r in cache && r.mood == mood
  {
    if !online then OfflineQuote(cache, mood, sample)
    else if remote.Some? then remote.value
    else FailureQuote(cache, mood)
  }

  /** `generateQuote(mood)`. `online` is `navigator.onLine`. Only a successful
      remote call writes storage, and what it returns is what it saved. */
  method GenerateQuote(store: LocalStorage, mood: Mood, online: bool, sample: real,
                       remote: Option<IslamicQuote>) returns (q: IslamicQuote)
    requires store.Valid() && 0.0 <= sample < 1.0
    modifies store
    ensures store.Valid()
    ensures q == ResolvedQuote(old(CachedQuotes(store)), mood, online, sample, remote)
    ensures !online ==> q == OfflineQuote(old(CachedQuotes(store)), mood, sample)
    ensures online && remote.Some? ==>
      q == remote.value && CachedQuotes(store) == CacheInsert(old(CachedQuotes(store)), q)
    ensures online && remote.None? ==> q == FailureQuote(old(CachedQuotes(store)), mood)
    ensures !(online && remote.Some?) ==> store.items == old(store.items)
    ensures store.items == old(store.items)
         || store.items == old(store.items)[CACHE_KEY := QuoteList(CachedQuotes(store))]
    ensures forall key :: key != CACHE_KEY ==>
      (key in store.items <==> key in old(store.items))
      && (key in store.items ==> store.items[key] == old(store.items)[key])
  {
    if !online {
      q := OfflineQuote(CachedQuotes(store), mood, sample);
      return;
    }
    match remote
    case Some(quoteData) =>
      SaveToCache(store, quoteData);
      q := quoteData;
    case None =>
      q := FailureQuote(CachedQuotes(store), mood);
  }
}
