// The constant tables the quote fallback and the tally counter rely on.
module Constants {
  import opened Types

  /** An entry of the home screen's mood picker; `mood` is the source's `label` field. */
  datatype MoodOption = MoodOption(mood: Mood, emoji: string, color: string, darkColor: string)

  const MOODS: seq<MoodOption> := [
    MoodOption(Anxious, "🌿", "bg-emerald-50", "dark:bg-emerald-900/20"),
    MoodOption(Grateful, "✨", "bg-amber-50", "dark:bg-amber-900/20"),
    MoodOption(Patient, "⏳", "bg-stone-100", "dark:bg-stone-800"),
    MoodOption(Lost, "🧭", "bg-indigo-50", "dark:bg-indigo-900/20"),
    MoodOption(Happy, "☀️", "bg-yellow-50", "dark:bg-yellow-900/20"),
    MoodOption(Tired, "🌙", "bg-blue-50", "dark:bg-blue-900/20"),
    MoodOption(SeekingKnowledge, "📖", "bg-teal-50", "dark:bg-teal-900/20")
  ]

  /** The bundled quotes used when neither the network nor the cache can supply one. */
  const OFFLINE_QUOTES: seq<IslamicQuote> := [
    IslamicQuote(
      "Verily, with every hardship comes ease.",
      Some("فَإِنَّ مَعَ ٱلْعُسْرِ يُسْرًا"),
      "Quran 94:6",
      "No matter how dark the night, the dawn is promised by Allah.",
      Anxious),
    IslamicQuote(
      "And He found you lost and guided you.",
      Some("وَوَجَدَكَ ضَآلًّا فَهَدَىٰ"),
      "Quran 93:7",
      "Allah knows your path even when you feel you've lost your way.",
      Lost),
    IslamicQuote(
      "So remember Me; I will remember you.",
      Some("فَٱذْكُرُونِىٓ أَذْكُرْكُمْ"),
      "Quran 2:152",
      "Connection with the Divine is the ultimate remedy for the soul.",
      SeekingKnowledge),
    IslamicQuote(
      "My mercy encompasses all things.",
      Some("وَرَحْمَتِى وَسِعَتْ كُلَّ شَيْءٍ"),
      "Quran 7:156",
      "You are never beyond the reach of Allah's infinite love and compassion.",
      Tired)
  ]

  /** The nine phrases the tally counter cycles through. */
  const TASBIH_PHRASES: seq<TasbihPhrase> := [
    TasbihPhrase("SubhanAllah (Glory be to Allah)", "سُبْحَانَ ٱللَّٰهِ"),
    TasbihPhrase("Alhamdulillah (Praise be to Allah)", "ٱلْحَمْدُ لِلَّٰهِ"),
    TasbihPhrase("Allahu Akbar (Allah is the Greatest)", "ٱللَّٰهُ أَكْبَرُ"),
    TasbihPhrase("La ilaha illallah (There is no god but Allah)", "لَا إِلَٰهَ إِلَّا ٱللَّٰهُ"),
    TasbihPhrase("Astaghfirullah (I seek forgiveness)", "أَسْتَغْفِرُ ٱللَّٰهَ"),
    TasbihPhrase("SubhanAllahi wa bihamdihi", "سُبْحَانَ ٱللَّٰهِ وَبِحَمْدِهِ"),
    TasbihPhrase("SubhanAllahil 'Azeem", "سُبْحَانَ ٱللَّٰهِ ٱلْعَظِيمِ"),
    TasbihPhrase("La hawla wa la quwwata illa billah", "لَا حَوْلَ وَلَا قُوَّةَ إِلَّا بِٱللَّٰهِ"),
    TasbihPhrase("Hasbunallahu wa ni'mal wakeel", "حَسْبُنَا ٱللَّٰهُ وَنِعْمَ ٱلْوَكِيلُ")
  ]

  /** The mood labels in picker order. */
  function MoodLabels(): (labels: seq<Mood>)
    ensures |labels| == |MOODS|
    ensures forall i :: 0 <= i < |MOODS| ==> labels[i] == MOODS[i].mood
  {
    seq(|MOODS|, i requires 0 <= i < |MOODS| => MOODS[i].mood)
  }

  /** The picker lists each of the seven moods exactly once. */
  lemma MoodsListEveryMoodOnce()
    ensures |MOODS| == 7
    ensures forall i, j :: 0 <= i < j < |MOODS| ==> MOODS[i].mood != MOODS[j].mood
    ensures forall m: Mood :: m in MoodLabels()
  {
    var labels := MoodLabels();
    assert labels == [Anxious, Grateful, Patient, Lost, Happy, Tired, SeekingKnowledge];
    forall m: Mood
      ensures m in labels
    {
      match m
      case Anxious => assert labels[0] == m;
      case Grateful => assert labels[1] == m;
      case Patient => assert labels[2] == m;
      case Lost => assert labels[3] == m;
      case Happy => assert labels[4] == m;
      case Tired => assert labels[5] == m;
      case SeekingKnowledge => assert labels[6] == m;
    }
  }

  /** The bundled table is non-empty, its first entry is tagged 'Anxious',
      and every entry carries a non-empty Arabic text. */
  lemma OfflineQuotesShape()
    ensures |OFFLINE_QUOTES| == 4
    ensures OFFLINE_QUOTES[0].mood == Anxious
    ensures forall i :: 0 <= i < |OFFLINE_QUOTES| ==>
              OFFLINE_QUOTES[i].arabicText.Some? && OFFLINE_QUOTES[i].arabicText.value != ""
  {
  }

  /** Nine phrases, so cycling modulo their count is well defined. */
  lemma TasbihPhraseCount()
    ensures |TASBIH_PHRASES| == 9
  {
  }
}
