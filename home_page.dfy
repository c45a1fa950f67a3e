/**
 * The helpers of the memory list on the home page: the icon and label of a
 * stored category key (with a fallback for unknown keys), the relative
 * "created" time of a card, and the 100-character story preview of a card.
 * The time helper receives the difference `now - createdAt` in whole
 * milliseconds instead of two dates.
 */
module HomePage {
  import opened Text
  import opened Categories
  import FormatStory

  /** The icon table of `getCategoryIcon`. */
  const Icons: map<string, string> := map[
    "childhood" := "\U{1F9D2}",
    "family" := "\U{1F468}\U{200D}\U{1F469}\U{200D}\U{1F467}",
    "pets" := "\U{1F415}",
    "work" := "\U{1F4BC}",
    "other" := "\U{1F4CC}"
  ]
  const FallbackIcon: string := "\U{1F4CC}"

  /** The label table of `getCategoryLabel`. */
  const Labels: map<string, string> := map[
    "childhood" := "Ni\U{00F1}ez",
    "family" := "Familia",
    "pets" := "Mascotas",
    "work" := "Trabajo",
    "other" := "Otro"
  ]
  const FallbackLabel: string := "Otro"

  /** `table[key] || fallback`: a missing key or an empty value gives the fallback. */
  function LookupOr(table: map<string, string>, key: string, fallback: string): string {
    if key in table && table[key] != "" then table[key] else fallback
  }

  function CategoryIcon(category: string): string {
    LookupOr(Icons, category, FallbackIcon)
  }

  function CategoryLabel(category: string): string {
    LookupOr(Labels, category, FallbackLabel)
  }

  /** Each of the five stored keys has its own non-empty table entry: no two
      categories share an icon or a label, and the "other" icon is the fallback. */
  lemma KnownCategoryLookup(c: Category, d: Category)
    ensures CategoryIcon(Key(c)) == Icons[Key(c)] && CategoryLabel(Key(c)) == Labels[Key(c)]
    ensures c != d ==> CategoryIcon(Key(c)) != CategoryIcon(Key(d)) && CategoryLabel(Key(c)) != CategoryLabel(Key(d))
    ensures CategoryIcon(Key(Other)) == FallbackIcon && CategoryLabel(Key(Other)) == FallbackLabel
  {
  }

  /** Any other string is shown like the "other" category. */
  lemma UnknownCategoryFallback(category: string)
    requires forall c: Category :: category != Key(c)
    ensures CategoryIcon(category) == CategoryIcon(Key(Other))
    ensures CategoryLabel(category) == CategoryLabel(Key(Other))
  {
    assert category != Key(Childhood) && category != Key(Family) && category != Key(Pets);
    assert category != Key(Work) && category != Key(Other);
  }

  /** Milliseconds in a day, `1000 * 60 * 60 * 24`. */
  const MsPerDay: int := 1000 * 60 * 60 * 24

  /** `Math.floor(diffMs / MsPerDay)`. With a positive divisor Dafny's `/` rounds
      towards negative infinity, as `Math.floor` does, negative differences included. */
  function DiffDays(diffMs: int): int {
    diffMs / MsPerDay
  }

  /** `DiffDays` is the floor of the quotient: the whole days that fit in `diffMs`. */
  lemma DiffDaysIsFloor(diffMs: int)
    ensures DiffDays(diffMs) * MsPerDay <= diffMs < (DiffDays(diffMs) + 1) * MsPerDay
  {
  }

  /** What a card shows as its date: a text, or the date formatted by the locale. */
  datatype RelativeTime = Label(text: string) | CalendarDate

  function DaysAgo(d: int): string {
    "Hace " + IntToString(d) + " d\U{00ED}as"
  }

  function WeeksAgo(w: int): string {
    "Hace " + IntToString(w) + " semanas"
  }

  /** `getRelativeTime`, on the millisecond difference between now and the creation date. */
  function GetRelativeTime(diffMs: int): RelativeTime {
    var d := DiffDays(diffMs);
    if d == 0 then Label("Hoy")
    else if d == 1 then Label("Ayer")
    else if d < 7 then Label(DaysAgo(d))
    else if d < 30 then Label(WeeksAgo(d / 7))
    else CalendarDate
  }

  /** The strings of the different buckets are pairwise different. */
  lemma BucketTextsDiffer(d: int, w: int)
    ensures DaysAgo(d) != "Hoy" && DaysAgo(d) != "Ayer"
    ensures WeeksAgo(w) != "Hoy" && WeeksAgo(w) != "Ayer"
    ensures DaysAgo(d) != WeeksAgo(w)
  {
    assert DaysAgo(d)[1] == 'a' && WeeksAgo(w)[1] == 'a';
    assert DaysAgo(d)[0] == 'H';
    var x, y := DaysAgo(d), WeeksAgo(w);
    assert x[|x| - 3] == '\U{00ED}' && y[|y| - 3] == 'n';
  }

  /** The buckets of `getRelativeTime`, each one in both directions: "Hoy" exactly
      on day 0, "Ayer" exactly on day 1, "Hace d días" exactly for the other days
      below 7 (negative ones from future dates included), "Hace w semanas" with
      w = d / 7 between 1 and 4 exactly for days 7 to 29, and the calendar date
      exactly from day 30 on. */
  lemma RelativeTimeBuckets(diffMs: int)
    ensures var d, r := DiffDays(diffMs), GetRelativeTime(diffMs);
      && (r == Label("Hoy") <==> d == 0)
      && (r == Label("Ayer") <==> d == 1)
      && (r == Label(DaysAgo(d)) <==> d < 7 && d != 0 && d != 1)
      && (7 <= d < 30 <==> exists w :: 1 <= w <= 4 && w == d / 7 && r == Label(WeeksAgo(w)))
      && (r == CalendarDate <==> 30 <= d)
  {
    var d := DiffDays(diffMs);
    BucketTextsDiffer(d, d / 7);
    if 7 <= d < 30 {
      assert 1 <= d / 7 <= 4;
    }
  }

  /** The inline card preview: more than 100 characters are cut to 100 and "..." added. */
  function CardPreview(story: string): string {
    if |story| > 100 then story[..100] + "..." else story
  }

  /** A story of at most 100 characters is shown whole; a longer one as its first
      100 characters followed by "...". */
  lemma CardPreviewCut(story: string)
    ensures |story| <= 100 ==> CardPreview(story) == story
    ensures |story| > 100 ==> |CardPreview(story)| == 103 && CardPreview(story)[..100] == story[..100]
                              && EndsWith(CardPreview(story), "...")
  {
  }

  /** For a story without the question marker the card preview is the story preview
      with its default limit. */
  lemma CardPreviewIsStoryPreview(story: string)
    requires !StartsWith(story, FormatStory.Marker)
    ensures CardPreview(story) == FormatStory.GetStoryPreview(story)
  {
  }
}
