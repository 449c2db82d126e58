# Team Staircase site core, modelled in Dafny

This project models the logic of the Team Staircase game-studio website (a Next.js
site backed by the Sanity CMS). It covers:

- **The CMS data layer** (`lib/sanity.ts`, module `SanityClient`). This part turns the
  fetched game and member documents into the objects the pages render:
  - numeric ids taken from the digits of a document id;
  - slugs defaulted to `""`;
  - image URLs at fixed sizes, with placeholder URLs;
  - platform links kept only when set;
  - the first skill as the member's role;
  - LinkedIn before GitHub as the main social link.

  It also covers the three lookups (a game by slug, a member by slug, all member
  slugs) and the rule that any fetch error yields an empty list or `null`.
- **The two document schemas** (`sanity/schemas/game.ts` and `sanity/schemas/member.ts`,
  modules `SchemaRules`, `GameSchema` and `MemberSchema`):
  - the shared `slugify` option: lower-case, each run of whitespace becomes `-`, then the
    text is cut to 96 UTF-16 code units (JavaScript string lengths are counted in those
    units throughout);
  - the `required` and `max(n)` validation chains, the list rule the genre choices imply, and whether a document passes them;
  - the thirteen genre choices;
  - the subtitle each schema's preview shows in the editor.
- **The contact endpoint** (`app/api/contact/route.ts`, module `ContactRoute`). It runs
  two guards in order: four required fields, then the email regular expression. It then
  composes the email it hands to the provider and picks the 200 / 400 / 500 answer.
- **The navigation bar** (`components/Navbar.tsx`, module `Navigation`). This covers the
  rule that highlights a link for the current path, and the mobile menu's open/closed
  state:
  - a class `Navbar` whose methods update `isOpen` and `pathname` as the React handlers
    and the route-change effect do;
  - each method is proved against a pure event-driven model, `Step` and `Run`.
- **The home page** (`app/page.tsx`, module `HomePage`): the first three games are
  featured, and the featured section is hidden when there is none.

Inputs the code receives from outside enter as values:

- what a CMS query returned (`FetchResult`: the documents, or a failure);
- the image-URL builder (a function from asset, width and height to a URL);
- the `CONTACT_EMAIL` setting (an optional string);
- what the email provider did (`SendResult`);
- the editor's time-zone offset.

The member list passes `skills` through unchanged (no de-duplication). The lists keep
the order the CMS query returned them in (the `order(...)` clause of the query does the
sorting, not the code).

## Model

| member | source | states |
|---|---|---|
| `Common.OrElse` | lib/sanity.ts:99 | JavaScript's `or` fallback on an optional string: the string when it is present and non-empty, else the fallback |
| `SanityClient.KeepDigits` | lib/sanity.ts:97 | removing every non-digit leaves only digits, never lengthens the text, and leaves nothing when there was no digit |
| `SanityClient.ParseDigits` | lib/sanity.ts:97 | `parseInt` of a digit string is NaN (`None`) exactly when the string is empty, and otherwise the number the digits spell |
| `SanityClient.IdFromDocId` | lib/sanity.ts:97 | the id is the number the digits of the document id spell when it is non-zero; when it is 0 or there are no digits (NaN), the fallback |
| `SanityClient.IdOfEmbeddedNumber` | lib/sanity.ts:164 | a document id holding a single number among non-digits yields that number, as a game id (fallback 0) and as a member id whenever the number is non-zero |
| `SanityClient.IdsCollide` | lib/sanity.ts:97 | a draft id and its published id ("drafts.game7", "game7") get the same game id 7 |
| `SanityClient.StoreLinks` | lib/sanity.ts:110-114 | a platform appears in `links` exactly when the document's URL for it is truthy, and then it maps to that URL |
| `SanityClient.NormalizeGame` | lib/sanity.ts:96-115 | each field of the built game: id from the digits, title, description and date copied (missing stays missing), slug or "", cover at 800×600 or the placeholder, every screenshot at 1920×1080 in order or none, links as above |
| `SanityClient.GetGames` | lib/sanity.ts:92-121 | a failed fetch gives `[]`; otherwise one normalised game per document, in the order fetched |
| `SanityClient.GetGamesPrefix` | lib/sanity.ts:96-115 | normalising the first k documents gives the first k games |
| `SanityClient.PrimarySocialLink` | lib/sanity.ts:155-158 | LinkedIn when truthy, else GitHub when truthy, else ""; it is "" exactly when neither is set |
| `SanityClient.Role` | lib/sanity.ts:161 | the first skill when the member has at least one, else "" |
| `SanityClient.NormalizeMember` | lib/sanity.ts:163-175 | id from the digits, or position + 1 when they spell 0 or nothing (so always at least 1); name, slug or "", role, avatar at 400×400 or the placeholder, social link, both URLs unchanged, skills or [] |
| `SanityClient.GetTeamMembers` | lib/sanity.ts:149-182 | a failed fetch gives `[]`; otherwise the member at position i is normalised with index i, in the order fetched |
| `SanityClient.FallbackMemberIdsDistinct` | lib/sanity.ts:164 | when no member id carries a non-zero number, the fallback ids are pairwise distinct |
| `SanityClient.GetGameBySlug` | lib/sanity.ts:190-209 | null exactly when the fetch failed or found nothing; otherwise the document with only `fullDescription` changed, and only when it was missing (to `[]`) |
| `SanityClient.GetMemberBySlug` | lib/sanity.ts:212-228 | null exactly when the fetch failed or found nothing; otherwise the document unchanged |
| `SanityClient.GetAllMemberSlugs` | lib/sanity.ts:231-243 | a failed fetch gives `[]`; otherwise the slug of each row, in order |
| `SchemaRules.LowerChar` | sanity/schemas/game.ts:26 | `toLowerCase` on one character: the result is never upper case, capitals move down by 32, and every other character is unchanged |
| `SchemaRules.ToLower` | sanity/schemas/game.ts:26 | lower-casing keeps the length and lowers each character in place |
| `SchemaRules.TrimLeadingWhitespace` | sanity/schemas/game.ts:27 | the result is a suffix of the input that starts with a non-whitespace character, and everything dropped was whitespace |
| `SchemaRules.Hyphenate` | sanity/schemas/game.ts:27 | replacing whitespace runs never lengthens the text, leaves no whitespace, and every character is `-` or comes from the input |
| `SchemaRules.HyphenateRun` | sanity/schemas/game.ts:27 | a maximal whitespace run after a word becomes exactly one `-`, and the word is kept |
| `SchemaRules.HyphenateNoWhitespace` | sanity/schemas/game.ts:27 | text without whitespace is left unchanged |
| `SchemaRules.ToLowerNoUpper` | sanity/schemas/game.ts:26 | text without capitals is left unchanged by lower-casing |
| `SchemaRules.Slugify` | sanity/schemas/game.ts:24-28 | a generated slug is at most 96 UTF-16 code units long and has no whitespace and no capital letter |
| `SchemaRules.SlugifyTruncatesAfterHyphenating` | sanity/schemas/game.ts:24-28 | the slug is the longest prefix of the lower-cased, hyphenated input that fits in 96 UTF-16 code units (all of it when it fits; its first min(96, n) characters for text in the Basic Multilingual Plane) |
| `SchemaRules.SlugifyIdempotent` | sanity/schemas/game.ts:24-28 | generating a slug from a slug gives the same slug |
| `SchemaRules.Satisfies` | sanity/schemas/game.ts:14 | the meaning of one rule: `required()` wants a value, and a non-empty one for a string or an array; `max(n)` a string of at most n UTF-16 code units; the list rule one of the listed strings; the last two pass any non-string |
| `SchemaRules.DocumentValid` | sanity/schemas/game.ts:9-189 | a document is valid when every field passes every rule of its chain |
| `SchemaRules.FailingFields` | sanity/schemas/game.ts:9-189 | the list of failing fields is empty exactly when the document is valid, and lists every field that breaks a rule |
| `SchemaRules.FailingFieldsListOnlyFailing` | sanity/schemas/game.ts:9-189 | every name on the list is that of a field that breaks a rule |
| `SchemaRules.FailingFieldsStartWithFirst` | sanity/schemas/game.ts:9-189 | the list starts with the first failing field in schema order |
| `SchemaRules.UnruledFieldIrrelevant` | sanity/schemas/game.ts:183-188 | a field with no validation rule never changes whether a document is valid |
| `GameSchema.GameSlugProperties` | sanity/schemas/game.ts:21-29 | the game slug respects the configured maxLength of 96 code units, has no whitespace or capitals, and is idempotent |
| `GameSchema.ValidGameIff` | sanity/schemas/game.ts:9-134 | a game is valid exactly when title (≤ 100 code units), slug, cover image, short description (≤ 200 code units) and a genre among the choices are set, the strings non-empty |
| `GameSchema.UnlistedGenreRejected` | sanity/schemas/game.ts:116-133 | a genre outside the thirteen choices makes a game document invalid |
| `GameSchema.ReleaseDateOptional` | sanity/schemas/game.ts:183-188 | setting or clearing the release date never changes validity |
| `GameSchema.GenreOptionsDistinct` | sanity/schemas/game.ts:116-132 | there are thirteen distinct genre choices, "Other" among them |
| `GameSchema.LocalYearOfUtcMidnight` | sanity/schemas/game.ts:200 | the year of a date-only value read in local time is its own year, or the year before exactly for 1 January in a zone behind UTC |
| `GameSchema.PreviewSubtitleAsWritten` | sanity/schemas/game.ts:197-203 | the subtitle as written: genre or "No genre", " • ", then the locally read year or "TBA" |
| `GameSchema.PreviewSubtitle` | sanity/schemas/game.ts:200 | the corrected subtitle: genre or "No genre", " • ", then the release date's own year or "TBA" |
| `GameSchema.PreviewTbaIffNoDate` | sanity/schemas/game.ts:200 | the subtitle ends in "TBA" exactly when there is no release date |
| `GameSchema.PreviewYearShiftsBehindUtc` | sanity/schemas/game.ts:200 | the written and the corrected subtitles differ exactly for 1 January in a zone behind UTC |
| `GameSchema.NewYearReleaseShownInPreviousYear` | sanity/schemas/game.ts:200 | a 2025-01-01 release shows a different year in UTC-3 |
| `MemberSchema.MemberSlugProperties` | sanity/schemas/member.ts:21-29 | the member slug respects the configured maxLength of 96 code units, has no whitespace or capitals, and is idempotent |
| `MemberSchema.ValidMemberIff` | sanity/schemas/member.ts:9-49 | a member is valid exactly when name (≤ 100 code units, non-empty), slug and avatar are set |
| `MemberSchema.OptionalMemberFields` | sanity/schemas/member.ts:50-125 | no value of LinkedIn, GitHub, bio, skills or favourite game changes validity |
| `MemberSchema.PreviewSubtitle` | sanity/schemas/member.ts:136 | the subtitle is "" exactly when the slug is unset or empty, else "/team/" followed by the slug |
| `MemberSchema.PreviewMatchesSitePath` | sanity/schemas/member.ts:136 | the editor's subtitle is the path of the member's page, built from the slug the site normalises |
| `Common.Utf16Length` | sanity/schemas/game.ts:14 | the JavaScript `length` of a string: between n and 2n code units for n characters, and n when every character is in the Basic Multilingual Plane |
| `Common.Utf16Prefix` | sanity/schemas/game.ts:28 | `slice(0, n)`: the longest prefix of whole characters that fits in n code units; the whole string when it fits |
| `Common.Utf16PrefixInBmp` | sanity/schemas/game.ts:28 | inside the Basic Multilingual Plane, `slice(0, n)` keeps the first min(n, length) characters |
| `Common.IsWhitespace` | app/api/contact/route.ts:20 | the characters of the `\s` class (ASCII part), used by the email pattern and by `slugify` |
| `ContactRoute.MatchesEmailPattern` | app/api/contact/route.ts:20 | `emailRegex.test`: some `@` and a later `.` cut the address into three non-empty runs without whitespace or `@`; such an address has at least five characters |
| `ContactRoute.PatternHasShape` | app/api/contact/route.ts:20 | an address the pattern accepts has no whitespace, one `@` with text before it, and a `.` after it with text on both sides |
| `ContactRoute.ShapeMatchesPattern` | app/api/contact/route.ts:20 | every address of that shape is accepted by the pattern |
| `ContactRoute.EmailPatternIff` | app/api/contact/route.ts:20 | the regular expression accepts exactly addresses with no whitespace, exactly one `@` with text before it, and a `.` after it with text on both sides |
| `ContactRoute.EmailPatternExamples` | app/api/contact/route.ts:20-26 | "bad", "a@b", "a@b@c.de" and "a b@c.de" are rejected; "a@b.co" is accepted |
| `ContactRoute.ReplaceNewlines` | app/api/contact/route.ts:43 | no newline is left, and each newline adds exactly three characters |
| `ContactRoute.ReplaceNewlinesAppend` | app/api/contact/route.ts:43 | replacement distributes over concatenation |
| `ContactRoute.ReplaceNewlinesNoNewline` | app/api/contact/route.ts:43 | a message without newlines is sent as it is |
| `ContactRoute.ReplaceNewlinesJoin` | app/api/contact/route.ts:43 | a message made of lines is sent as the same lines joined by `<br>` |
| `ContactRoute.EmailHtml` | app/api/contact/route.ts:34-48 | the body opens with the name and the email in their paragraphs, then holds the subject in its paragraph, and ends with the message followed by the closing footer |
| `ContactRoute.ComposeEmail` | app/api/contact/route.ts:29-48 | fixed sender; `CONTACT_EMAIL` when set, else the default recipient; reply-to the visitor; subject "[Contato] subject - name"; body with the message's newlines as `<br>` |
| `ContactRoute.AllFieldsPresent` | app/api/contact/route.ts:12 | the guard passes when each of the four fields is a non-empty string |
| `ContactRoute.Reject` | app/api/contact/route.ts:12-26 | missing fields are refused first, then a malformed address, each with its 400 message; nothing is refused otherwise |
| `ContactRoute.Post` | app/api/contact/route.ts:6-66 | the handler as written: an unparsable body gives 500; the two 400 refusals send nothing; otherwise exactly one email is sent, and the answer is 500 if the send threw, else 200 |
| `ContactRoute.PostChecked` | app/api/contact/route.ts:29-58 | corrected handler: sends what `Post` sends, and answers 200 exactly when the request is deliverable and the provider accepted |
| `ContactRoute.SendIffDeliverable` | app/api/contact/route.ts:6-66 | exactly the deliverable requests send an email, exactly one; every other request sends nothing and gets 400 or 500 |
| `ContactRoute.MissingFieldReportedFirst` | app/api/contact/route.ts:12-17 | a request missing its name, subject or message gets the missing-fields error, whatever its address |
| `ContactRoute.RefusedSendReportedAsSuccess` | app/api/contact/route.ts:29-58 | as written, a refusal the provider reports gives 200; the corrected handler gives 500 |
| `Navigation.IsActive` | components/Navbar.tsx:43 | a link is highlighted exactly when a path is known and it equals "/" for the "/" link, or starts with the href for any other link |
| `Navigation.ActiveFlags` | components/Navbar.tsx:98-99 | one highlight per link, in order, by the same rule in both lists |
| `Navigation.PrefixMatchIsTextual` | components/Navbar.tsx:43 | "/gamesx" and "/games/x" highlight "/games"; "/game/x" and an unknown path do not |
| `Navigation.AtMostOneActive` | components/Navbar.tsx:14-17 | "/games" and "/contact" are never highlighted together |
| `Navigation.Step` | components/Navbar.tsx:19-25 | the button flips `isOpen` and keeps the path; `closeMenu` closes and keeps the path; a reported path is recorded, closes the menu when it differs, and changes nothing when it is the same |
| `Navigation.Run` | components/Navbar.tsx:19-25 | after a sequence of events the menu is closed if the last event was a close; when the last event reports a path, the path is that one; the path is unchanged when no event reported one |
| `Navigation.RunAppend` | components/Navbar.tsx:19-25 | running two sequences one after the other is running their concatenation |
| `Navigation.ToggleAndCloseLaws` | components/Navbar.tsx:19-20 | two toggles restore the state; closing twice is closing once; closing keeps the path |
| `Navigation.NewPathCloses` | components/Navbar.tsx:23-25 | a new path closes the menu and is recorded |
| `Navigation.TogglesFlip` | components/Navbar.tsx:19 | n toggles flip the menu n times and keep the path |
| `Navigation.OpenIffOddPressesSinceClose` | components/Navbar.tsx:19-20 | after a close, the menu is open exactly when the button was pressed an odd number of times since |
| `Navigation.Navbar.constructor` | components/Navbar.tsx:11-12 | the menu starts closed at the router's path |
| `Navigation.Navbar.ToggleMenu` | components/Navbar.tsx:19 | the state becomes `Step(old, toggle)`: `isOpen` negated, path kept |
| `Navigation.Navbar.CloseMenu` | components/Navbar.tsx:20 | the state becomes `Step(old, close)`: closed, path kept |
| `Navigation.Navbar.OnPathname` | components/Navbar.tsx:23-25 | the state becomes `Step(old, new path)`: the path is recorded, and the menu is closed when the path changed |
| `Navigation.Navbar.ClickLogo` | components/Navbar.tsx:32-36 | runs close, then navigation to "/": the menu is closed at "/" |
| `Navigation.Navbar.ClickMobileLink` | components/Navbar.tsx:107-109 | runs close, then navigation to the href: the menu is closed at the href |
| `Navigation.Navbar.ClickDesktopLink` | components/Navbar.tsx:45-47 | runs navigation to the href only |
| `HomePage.FeaturedGames` | app/page.tsx:18 | the featured games are a prefix of the list, of length min(3, n) |
| `HomePage.HomeFeatured` | app/page.tsx:14-18 | after a failed fetch nothing is featured and the section is hidden; otherwise the first min(3, n) documents are featured, normalised, in order |
| `HomePage.FeaturedOfNormalised` | app/page.tsx:15-18 | featuring the normalised list equals normalising the first three documents |
| `HomePage.NothingToFeature` | components/FeaturedGames.tsx:18 | an empty game list features nothing and hides the section |

## Left out

- CMS access (the client, the GROQ queries and their `order(...)` clauses) and
  `console` logging. A query enters as its outcome: the documents in the order
  returned, or a failure.
- The `@sanity/image-url` builder. It is a parameter, a function from asset, width and
  height to a URL, so it is assumed to return a string for every asset.
- The Resend client and `process.env`. The provider's behaviour enters as a
  `SendResult`, `CONTACT_EMAIL` as an optional string.
- JSON values of other types in the request body or in documents (numbers, arrays,
  objects where a string is expected). Fields are modelled as optional strings.
- Post: JSON `null` and unparsable text are both `Unparsable` (500), without telling
  the two apart; any other non-object body is `Fields(None, None, None, None)` (400).
- ComposeEmail: the inline CSS `style` attributes and the indentation of the HTML
  template are left out. The tags, the text and the place of each field are kept.
- SchemaRules.LowerChar: lower-cases ASCII letters only, not the full Unicode mapping
  of `toLowerCase`.
- Common.IsWhitespace: covers only the ASCII members of the `\s` class. Unicode spaces
  are treated as ordinary characters, both in `slugify` and in the email pattern.
- SanityClient.IdFromDocId: the id is the exact natural number the digits spell. The
  rounding of `parseInt` past 2^53 is not modelled.
- SchemaRules.Satisfies: values other than strings and arrays (a slug object, an image)
  count as set for `required()` whatever they hold; a slug object whose `current` is
  empty is therefore not rejected by the model.
- SchemaRules.Slugify: when a character outside the Basic Multilingual Plane straddles
  the 96th code unit, `slice` keeps half of its surrogate pair, which a Dafny string
  cannot hold; the model drops that whole character, so such a slug is one code unit
  shorter than the source's.
- SchemaRules.SlugifyTruncatesAfterHyphenating: states the cut in whole characters, for
  the reason given for `Slugify`; a lone half surrogate pair at the end is not modelled.
- GameSchema.GameSlugProperties: same surrogate-pair gap as `Slugify`.
- MemberSchema.MemberSlugProperties: same surrogate-pair gap as `Slugify`.
- GameSchema.ValidGameIff: validity is that of the written `validation` chains plus
  the list rule the studio derives from the genre's `options.list`. The URI rule it
  derives for `url` fields (videoUrl and the three platform links) and the uniqueness
  check of `slug` fields are not modelled, nor any rule the `date` and `image` types
  may add on their own.
- GameSchema.ReleaseDateOptional: holds for the written chains only; a format check
  of the `date` type, if the studio adds one, is not modelled.
- MemberSchema.OptionalMemberFields: holds for the written chains only; the URI rule
  the studio derives for `linkedinUrl` and `githubUrl` is not modelled, so a malformed
  URL there is not rejected by the model.
- MemberSchema.ValidMemberIff: the uniqueness check of the `slug` field is not
  modelled.
- GameSchema.LocalYearOfUtcMidnight: the editor's zone is a fixed offset of less than
  a day. Daylight-saving changes within that day are not modelled.
- Rich-text rendering of `fullDescription` and `bio`, the presentational components,
  the contact page's form, the studio route, page metadata and `revalidate`. These
  are not part of this model.
- Navigation: animations and CSS classes are left out. Only the highlight rule and
  the `isOpen`/`pathname` state are modelled.

## Findings

| source | as written | input that shows it | evidently intended | confidence | as-written member | corrected member |
|---|---|---|---|---|---|---|
| app/api/contact/route.ts:29-58 | the value `resend.emails.send` resolves with is discarded, so only a thrown error leads to 500 | a valid request when the provider resolves with an error object (e.g. a rejected sender domain): the answer is 200 with the success message | answer 500 whenever the provider reports a failure | medium, not executed (it depends on the provider SDK reporting failures in its result rather than by throwing) | `ContactRoute.RefusedSendReportedAsSuccess` | `ContactRoute.PostChecked` |
| sanity/schemas/game.ts:200 | `new Date("YYYY-MM-DD").getFullYear()` reads UTC midnight in the editor's local zone | release date 2025-01-01 viewed in UTC-3: the subtitle shows 2024 | the year written in the date | high, not executed | `GameSchema.NewYearReleaseShownInPreviousYear` | `GameSchema.PreviewSubtitle` |
