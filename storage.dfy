// The browser's persistent key-value store, as the application uses it.
// JSON encoding is left abstract: a stored quote array is kept as the
// sequence it encodes, and every other value as its string.
module Storage {
  import opened Types

  datatype Stored = Text(s: string) | QuoteList(quotes: seq<IslamicQuote>)

  const CACHE_KEY: string := "nur_quotes_cache"
  const FAVORITES_KEY: string := "sakeena_favorites"
  const THEME_KEY: string := "sakeena_theme"
  const NOTIFICATIONS_KEY: string := "sakeena_notifications"
  const REMINDER_TIME_KEY: string := "sakeena_reminder_time"

  /** No two entries share a quote text. */
  ghost predicate DistinctTexts(qs: seq<IslamicQuote>)
  {
    forall i, j :: 0 <= i < j < |qs| ==> qs[i].quote != qs[j].quote
  }

  /** What each key the application writes may hold; any other key is
      unconstrained. Favorites are keyed by their quote text. */
  ghost predicate WellFormed(items: map<string, Stored>)
  {
    && (CACHE_KEY in items ==> items[CACHE_KEY].QuoteList?)
    && (FAVORITES_KEY in items ==> items[FAVORITES_KEY].QuoteList? && DistinctTexts(items[FAVORITES_KEY].quotes))
    && (THEME_KEY in items ==> items[THEME_KEY].Text? && ParseTheme(items[THEME_KEY].s).Some?)
    && (NOTIFICATIONS_KEY in items ==> items[NOTIFICATIONS_KEY].Text?)
    && (REMINDER_TIME_KEY in items ==> items[REMINDER_TIME_KEY].Text?)
  }

  /** The quote array stored under `key`, or the empty array when the key is absent
      (the `cached ? JSON.parse(cached) : []` reading). */
  function QuotesAt(items: map<string, Stored>, key: string): (qs: seq<IslamicQuote>)
    ensures key !in items ==> qs == []
    ensures key in items && items[key].QuoteList? ==> qs == items[key].quotes
  {
    if key in items && items[key].QuoteList? then items[key].quotes else []
  }

  /** Reading a list back: a list written under `key` is what `key` then
      reads as, a write to another key leaves the reading unchanged, and
      an emptied store reads as the empty list. */
  lemma QuotesAtReadAfterWrite(items: map<string, Stored>, key: string, other: string,
                               qs: seq<IslamicQuote>, v: Stored)
    ensures QuotesAt(items[key := QuoteList(qs)], key) == qs
    ensures other != key ==> QuotesAt(items[other := v], key) == QuotesAt(items, key)
    ensures QuotesAt(map[], key) == []
  {
  }

  class LocalStorage {
    var items: map<string, Stored>

    ghost predicate Valid()
      reads this
    {
      WellFormed(items)
    }

    constructor ()
      ensures Valid() && items == map[]
    {
      items := map[];
    }

    /** `setItem`: replaces the value under `key` and nothing else. */
    method SetItem(key: string, value: Stored)
      requires Valid() && WellFormed(items[key := value])
      modifies this
      ensures Valid()
      ensures items == old(items)[key := value]
    {
      items := items[key := value];
    }

    /** `clear`: removes every key. */
    method Clear()
      modifies this
      ensures Valid() && items == map[]
    {
      items := map[];
    }
  }
}
