// The application's value types: moods, themes, quotes, tally phrases,
// settings and navigation tabs.
module Types {

  /** An optional value; stands for a TypeScript `T | undefined`. */
  datatype Option<+T> = None | Some(value: T)
  {
    function GetOr(default: T): T
    {
      match this
      case Some(v) => v
      case None => default
    }
  }

  /** The seven moods a quote is tagged with and the home screen filters by. */
  datatype Mood = Anxious | Grateful | Patient | Lost | Happy | Tired | SeekingKnowledge

  /** The string literal each mood is written as. */
  function MoodLabel(m: Mood): string
  {
    match m
    case Anxious => "Anxious"
    case Grateful => "Grateful"
    case Patient => "Patient"
    case Lost => "Lost"
    case Happy => "Happy"
    case Tired => "Tired"
    case SeekingKnowledge => "Seeking Knowledge"
  }

  /** Reads a mood back from its label; the partner of MoodLabel. */
  function ParseMood(s: string): (r: Option<Mood>)
    ensures r.Some? ==> MoodLabel(r.value) == s
  {
    if s == "Anxious" then Some(Anxious)
    else if s == "Grateful" then Some(Grateful)
    else if s == "Patient" then Some(Patient)
    else if s == "Lost" then Some(Lost)
    else if s == "Happy" then Some(Happy)
    else if s == "Tired" then Some(Tired)
    else if s == "Seeking Knowledge" then Some(SeekingKnowledge)
    else None
  }

  /** Every mood's label parses back to that mood, so the labels are pairwise distinct. */
  lemma MoodLabelRoundTrip(m: Mood)
    ensures ParseMood(MoodLabel(m)) == Some(m)
  {
  }

  lemma MoodLabelInjective(m1: Mood, m2: Mood)
    ensures MoodLabel(m1) == MoodLabel(m2) ==> m1 == m2
  {
    MoodLabelRoundTrip(m1);
    MoodLabelRoundTrip(m2);
  }

  /** The colour scheme: exactly 'light' or 'dark'. */
  datatype Theme = Light | Dark

  function ThemeName(t: Theme): string
  {
    match t
    case Light => "light"
    case Dark => "dark"
  }

  /** Reads a theme back from its stored name; the partner of ThemeName. */
  function ParseTheme(s: string): (r: Option<Theme>)
    ensures r.Some? ==> ThemeName(r.value) == s
  {
    if s == "light" then Some(Light) else if s == "dark" then Some(Dark) else None
  }

  lemma ThemeNameRoundTrip(t: Theme)
    ensures ParseTheme(ThemeName(t)) == Some(t)
  {
  }

  /** The other theme. */
  function Flip(t: Theme): (r: Theme)
    ensures r != t
  {
    match t
    case Light => Dark
    case Dark => Light
  }

  /** A quote with optional Arabic original, a source reference, a reflection and a mood tag. */
  datatype IslamicQuote = IslamicQuote(
    quote: string,
    arabicText: Option<string>,
    reference: string,
    reflection: string,
    mood: Mood)

  /** A tally phrase in transliteration (`en`) and Arabic (`ar`). */
  datatype TasbihPhrase = TasbihPhrase(en: string, ar: string)

  /** The persisted settings record. */
  datatype AppSettings = AppSettings(notificationsEnabled: bool, reminderTime: string, theme: Theme)

  /** The four navigation tabs. */
  datatype AppTab = Home | TasbihTab | Favorites | Settings

  /** The enum's string values. */
  function TabValue(t: AppTab): string
  {
    match t
    case Home => "home"
    case TasbihTab => "tasbih"
    case Favorites => "favorites"
    case Settings => "settings"
  }

  /** The tab values are pairwise distinct. */
  lemma TabValuesDistinct(t1: AppTab, t2: AppTab)
    ensures TabValue(t1) == TabValue(t2) <==> t1 == t2
  {
  }
}
