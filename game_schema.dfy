/** The `game` document schema of the CMS: its slug option, its field rules,
    the genre choices and the subtitle the editor's document list shows. */
module GameSchema {
  import opened Common
  import opened SchemaRules

  const GameSlugOptions := SlugOptions("title", 96)

  /** The slug generated for a title never exceeds the configured cap, carries no
      whitespace or capital letter, and is left unchanged by generating it again. */
  lemma GameSlugProperties(title: string)
    ensures Utf16Length(Slugify(title)) <= GameSlugOptions.maxLength
    ensures NoWhitespace(Slugify(title)) && NoUpper(Slugify(title))
    ensures Slugify(Slugify(title)) == Slugify(title)
  {
    SlugifyIdempotent(title);
  }

  /** The `fields` list with each field's `validation` chain, in schema order; the genre
      also carries the rule its `options.list` implies. */
  const GameFields: seq<FieldSpec> := [
    FieldSpec("title", [Required, MaxLength(100)]),
    FieldSpec("slug", [Required]),
    FieldSpec("coverImage", [Required]),
    FieldSpec("shortDescription", [Required, MaxLength(200)]),
    FieldSpec("fullDescription", []),
    FieldSpec("videoUrl", []),
    FieldSpec("genre", [Required, OneOf(GenreOptions)]),
    FieldSpec("platformLinks", []),
    FieldSpec("screenshots", []),
    FieldSpec("releaseDate", [])
  ]

  /** A game document is valid exactly when it has a title of at most 100 characters,
      a slug, a cover image, a short description of at most 200 characters and a genre
      among the offered choices. */
  lemma ValidGameIff(doc: Document)
    ensures DocumentValid(GameFields, doc) <==>
      && Present(doc, "title") && TextWithin(doc, "title", 100)
      && Present(doc, "slug")
      && Present(doc, "coverImage")
      && Present(doc, "shortDescription") && TextWithin(doc, "shortDescription", 200)
      && Present(doc, "genre") && TextAmong(doc, "genre", GenreOptions)
  {
    if DocumentValid(GameFields, doc) {
      assert FieldValid(doc, GameFields[0]) && FieldValid(doc, GameFields[1]) && FieldValid(doc, GameFields[2]);
      assert FieldValid(doc, GameFields[3]) && FieldValid(doc, GameFields[6]);
      assert Satisfies(ValueOf(doc, "title"), GameFields[0].rules[0]);
      assert Satisfies(ValueOf(doc, "title"), GameFields[0].rules[1]);
      assert Satisfies(ValueOf(doc, "slug"), GameFields[1].rules[0]);
      assert Satisfies(ValueOf(doc, "coverImage"), GameFields[2].rules[0]);
      assert Satisfies(ValueOf(doc, "shortDescription"), GameFields[3].rules[0]);
      assert Satisfies(ValueOf(doc, "shortDescription"), GameFields[3].rules[1]);
      assert Satisfies(ValueOf(doc, "genre"), GameFields[6].rules[0]);
      assert Satisfies(ValueOf(doc, "genre"), GameFields[6].rules[1]);
    }
  }

  /** A genre typed in outside the offered choices makes the document invalid. */
  lemma UnlistedGenreRejected(doc: Document, genre: string)
    requires ValueOf(doc, "genre") == Text(genre) && genre !in GenreOptions
    ensures !DocumentValid(GameFields, doc)
  {
    ValidGameIff(doc);
  }

  /** A release date is optional: setting, changing or clearing it never changes validity
      (an empty date is shown as "TBA"). */
  lemma ReleaseDateOptional(doc: Document, v: FieldValue)
    ensures DocumentValid(GameFields, doc["releaseDate" := v]) <==> DocumentValid(GameFields, doc)
  {
    UnruledFieldIrrelevant(GameFields, doc, "releaseDate", v);
  }

  /** The genre choices offered by the editor. */
  const GenreOptions: seq<string> := [
    "RPG", "Shooter", "Puzzle", "Strategy", "Action", "Adventure", "Platformer",
    "Simulation", "Sports", "Racing", "Fighting", "Party Game", "Other"
  ]

  /** There are thirteen genre choices, no two alike, and "Other" is one of them. */
  lemma GenreOptionsDistinct()
    ensures |GenreOptions| == 13
    ensures forall i, j :: 0 <= i < j < |GenreOptions| ==> GenreOptions[i] != GenreOptions[j]
    ensures "Other" in GenreOptions
  {
    assert GenreOptions[12] == "Other";
  }

  /** A calendar date as the `date` field stores it (`YYYY-MM-DD`). */
  datatype CalendarDate = CalendarDate(year: int, month: nat, day: nat)

  /** `new Date(date).getFullYear()`: the date-only string denotes midnight UTC and the
      year is read in the editor's time zone, `offsetMinutes` east of UTC. A zone behind
      UTC sees the previous day, which is in the previous year only on the first of January. */
  function LocalYearOfUtcMidnight(d: CalendarDate, offsetMinutes: int): (y: int)
    requires -1440 < offsetMinutes < 1440
    ensures y == d.year || y == d.year - 1
    ensures y == d.year - 1 <==> offsetMinutes < 0 && d.month == 1 && d.day == 1
  {
    if offsetMinutes < 0 && d.month == 1 && d.day == 1 then d.year - 1 else d.year
  }

  /** The preview subtitle as the schema computes it: genre or "No genre", then the year
      of the release date read in the editor's zone, or "TBA". */
  function PreviewSubtitleAsWritten(genre: Option<string>, releaseDate: Option<CalendarDate>, offsetMinutes: int): (r: string)
    requires -1440 < offsetMinutes < 1440
    ensures releaseDate.None? ==> r == OrElse(genre, "No genre") + " • TBA"
    ensures releaseDate.Some? ==>
      r == OrElse(genre, "No genre") + " • " + ShowInt(LocalYearOfUtcMidnight(releaseDate.value, offsetMinutes))
  {
    var year := match releaseDate
      case Some(d) => ShowInt(LocalYearOfUtcMidnight(d, offsetMinutes))
      case None => "TBA";
    OrElse(genre, "No genre") + " • " + year
  }

  /** The preview subtitle with the year the release date names: genre or "No genre",
      then the release year, or "TBA" when there is no release date. */
  function PreviewSubtitle(genre: Option<string>, releaseDate: Option<CalendarDate>): (r: string)
    ensures OrElse(genre, "No genre") + " • " <= r
    ensures releaseDate.None? ==> r == OrElse(genre, "No genre") + " • TBA"
    ensures releaseDate.Some? ==> r == OrElse(genre, "No genre") + " • " + ShowInt(releaseDate.value.year)
  {
    OrElse(genre, "No genre") + " • " + match releaseDate
      case Some(d) => ShowInt(d.year)
      case None => "TBA"
  }

  /** The subtitle ends in "TBA" exactly when the game has no release date. */
  lemma PreviewTbaIffNoDate(genre: Option<string>, releaseDate: Option<CalendarDate>)
    ensures var r := PreviewSubtitle(genre, releaseDate);
      (|r| >= 3 && r[|r| - 3..] == "TBA") <==> releaseDate.None?
  {
    var r := PreviewSubtitle(genre, releaseDate);
    if releaseDate.Some? {
      var y := ShowInt(releaseDate.value.year);
      assert r[|r| - 1] == y[|y| - 1];
      assert IsDigit(r[|r| - 1]);
    }
  }

  /** The schema's subtitle disagrees with the release year exactly for a first of
      January viewed from a zone behind UTC. */
  lemma PreviewYearShiftsBehindUtc(genre: Option<string>, d: CalendarDate, offsetMinutes: int)
    requires -1440 < offsetMinutes < 1440
    ensures PreviewSubtitleAsWritten(genre, Some(d), offsetMinutes) != PreviewSubtitle(genre, Some(d))
        <==> offsetMinutes < 0 && d.month == 1 && d.day == 1
  {
    var head := OrElse(genre, "No genre") + " • ";
    var shown := LocalYearOfUtcMidnight(d, offsetMinutes);
    if shown != d.year {
      ShowIntInjective(shown, d.year);
      var a := PreviewSubtitleAsWritten(genre, Some(d), offsetMinutes);
      var b := PreviewSubtitle(genre, Some(d));
      assert a[|head|..] == ShowInt(shown);
      assert b[|head|..] == ShowInt(d.year);
    }
  }

  /** A game released on 1 January 2025 is listed under 2024 by an editor in UTC-3. */
  lemma NewYearReleaseShownInPreviousYear()
    ensures PreviewSubtitleAsWritten(Some("RPG"), Some(CalendarDate(2025, 1, 1)), -180)
         != PreviewSubtitle(Some("RPG"), Some(CalendarDate(2025, 1, 1)))
  {
    PreviewYearShiftsBehindUtc(Some("RPG"), CalendarDate(2025, 1, 1), -180);
  }
}
