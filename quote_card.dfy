// The quote card: the text handed to the share sheet or the clipboard, the
// labels it shows, and the guard that keeps playback of the Arabic text from
// starting twice.
module QuoteCard {
  import opened Types

  /** `quote.arabicText` is truthy: present and not the empty string. */
  predicate HasArabic(q: IslamicQuote)
  {
    q.arabicText.Some? && q.arabicText.value != ""
  }

  /** The clipboard fallback: the quote in double quotes, an em dash and the reference. */
  function ClipboardText(q: IslamicQuote): string
  {
    "\"" + q.quote + "\" — " + q.reference
  }

  /** The share-sheet text: the Arabic text and a newline when there is one,
      then the clipboard text. */
  function ShareText(q: IslamicQuote): string
  {
    (if HasArabic(q) then q.arabicText.value + "\n" else "") + ClipboardText(q)
  }

  /** The clipboard text never depends on the Arabic text. */
  lemma ClipboardIgnoresArabic(q: IslamicQuote, arabic: Option<string>)
    ensures ClipboardText(q.(arabicText := arabic)) == ClipboardText(q)
  {
  }

  /** The shared text is the clipboard text with the Arabic line, if any, in front. */
  lemma ShareTextShape(q: IslamicQuote)
    ensures var clip := ClipboardText(q);
      && |ShareText(q)| >= |clip|
      && ShareText(q)[|ShareText(q)| - |clip|..] == clip
      && (HasArabic(q) ==> ShareText(q)[..|q.arabicText.value| + 1] == q.arabicText.value + "\n")
  {
    var clip := ClipboardText(q);
    var prefix := if HasArabic(q) then q.arabicText.value + "\n" else "";
    assert ShareText(q) == prefix + clip;
    assert (prefix + clip)[|prefix|..] == clip;
    assert (prefix + clip)[..|prefix|] == prefix;
  }

  /** Sharing and copying give the same text exactly when there is no Arabic text. */
  lemma ShareEqualsClipboardIff(q: IslamicQuote)
    ensures ShareText(q) == ClipboardText(q) <==> !HasArabic(q)
  {
    if HasArabic(q) {
      assert |ShareText(q)| > |ClipboardText(q)|;
    }
  }

  /** The favorite button's caption. */
  function FavoriteLabel(isFavorited: bool): (s: string)
    ensures s == "Saved" <==> isFavorited
  {
    if isFavorited then "Saved" else "Save"
  }

  /** What the card renders: while loading only the placeholder, which
      carries none of the quote's fields. */
  datatype CardView =
    | Placeholder
    | Card(mood: string, arabic: Option<string>, playButton: bool, playing: bool,
           quote: string, reference: string, reflection: string, saveLabel: string)

  function Render(q: IslamicQuote, isLoading: bool, isFavorited: bool, isPlaying: bool): (v: CardView)
    ensures v.Placeholder? <==> isLoading
    ensures v.Card? ==> (v.playButton <==> HasArabic(q)) && (v.arabic.Some? <==> HasArabic(q))
    ensures v.Card? ==> (v.saveLabel == "Saved" <==> isFavorited)
  {
    if isLoading then Placeholder
    else Card(MoodLabel(q.mood),
              if HasArabic(q) then q.arabicText else None,
              HasArabic(q), isPlaying,
              q.quote, q.reference, q.reflection, FavoriteLabel(isFavorited))
  }

  /** The card's playback flag. */
  class Player {
    var isPlaying: bool

    constructor ()
      ensures !isPlaying
    {
      isPlaying := false;
    }

    /** The synchronous part of `handlePlayAudio`: nothing happens without an
        Arabic text or while a playback is in flight; otherwise playback is
        marked as started and `text` is what to speak. */
    method BeginPlayAudio(q: IslamicQuote) returns (text: Option<string>)
      modifies this
      ensures text.Some? <==> HasArabic(q) && !old(isPlaying)
      ensures text.Some? ==> text == q.arabicText
      ensures isPlaying <==> old(isPlaying) || text.Some?
    {
      if !HasArabic(q) || isPlaying {
        return None;
      }
      isPlaying := true;
      text := q.arabicText;
    }

    /** The `finally` of `handlePlayAudio`; `alert` is whether the failure
        alert is shown. */
    method FinishPlayAudio(succeeded: bool) returns (alert: bool)
      modifies this
      ensures !isPlaying
      ensures alert <==> !succeeded
    {
      alert := !succeeded;
      isPlaying := false;
    }
  }
}
