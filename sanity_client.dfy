/** The content client: it maps the documents the CMS returns to the site's
    `Game` and `TeamMember` shapes and turns every fetch failure into an empty
    list or a null result. The fetch itself and the image URL builder are
    foreign; they enter as a `FetchResult` value and an `ImageUrl` function. */
module SanityClient {
  import opened Common

  /** An image asset reference as the CMS stores it; opaque to the site. */
  datatype Asset = Asset(ref: string)

  /** One block of portable rich text; the site passes these through uninterpreted. */
  datatype RichTextBlock = RichTextBlock(raw: string)

  /** `urlFor(asset).width(w).height(h).url()`: the CDN URL of an asset at a size. */
  type ImageUrl = (Asset, nat, nat) -> string

  /** What `await client.fetch(query)` produced: the decoded result, or a thrown error. */
  datatype FetchResult<T> = Fetched(value: T) | FetchFailed

  datatype PlatformLinks = PlatformLinks(steam: Option<string>, itch: Option<string>, googlePlay: Option<string>)

  /** A game document as the game queries project it. `slug` is `slug?.current`; a field
      the editor left blank (a draft's title, an unannounced release date) is `None`. */
  datatype SanityGame = SanityGame(
    docId: string,
    title: Option<string>,
    slug: Option<string>,
    shortDescription: Option<string>,
    fullDescription: Option<seq<RichTextBlock>>,
    coverImage: Option<Asset>,
    screenshots: Option<seq<Asset>>,
    releaseDate: Option<string>,
    genre: Option<string>,
    platformLinks: Option<PlatformLinks>,
    videoUrl: Option<string>)

  /** A team-member document as the member queries project it. `slug` is `slug?.current`. */
  datatype SanityMember = SanityMember(
    docId: string,
    name: Option<string>,
    slug: Option<string>,
    avatar: Option<Asset>,
    bio: Option<seq<RichTextBlock>>,
    skills: Option<seq<string>>,
    favoriteGame: Option<string>,
    linkedinUrl: Option<string>,
    githubUrl: Option<string>)

  /** The keys of a game's `links` object. */
  datatype Platform = Steam | Itch | GooglePlay

  /** The site's `Game` shape; `links` holds only the keys that were set. The copied
      text fields stay `undefined` (`None`) when the document lacks them. */
  datatype Game = Game(
    id: nat,
    title: Option<string>,
    slug: string,
    shortDescription: Option<string>,
    coverImage: string,
    screenshots: seq<string>,
    releaseDate: Option<string>,
    links: map<Platform, string>)

  /** The object the member list builds: the `TeamMember` fields plus the two social URLs. */
  datatype TeamMember = TeamMember(
    id: nat,
    name: Option<string>,
    slug: string,
    role: string,
    photo: string,
    socialLink: string,
    linkedinUrl: Option<string>,
    githubUrl: Option<string>,
    skills: seq<string>)

  /** One row of the slug-enumeration query, `{ "slug": slug.current }`. */
  datatype SlugRow = SlugRow(slug: string)

  const CoverPlaceholder := "/api/placeholder/800/600"
  const AvatarPlaceholder := "/api/placeholder/400/400"

  // ---------------------------------------------------------------------------
  // Numeric ids

  /** `s.replace(/[^0-9]/g, "")`: the digits of `s`, in order. */
  function KeepDigits(s: string): (r: string)
    ensures AllDigits(r) && |r| <= |s|
    ensures NoDigits(s) ==> r == []
  {
    if s == [] then []
    else (if IsDigit(s[0]) then [s[0]] else []) + KeepDigits(s[1..])
  }

  predicate NoDigits(s: string) {
    forall i :: 0 <= i < |s| ==> !IsDigit(s[i])
  }

  lemma {:induction false} KeepDigitsAppend(a: string, b: string)
    ensures KeepDigits(a + b) == KeepDigits(a) + KeepDigits(b)
  {
    if a == [] {
      assert a + b == b;
    } else {
      var head := if IsDigit(a[0]) then [a[0]] else [];
      assert (a + b)[0] == a[0];
      assert (a + b)[1..] == a[1..] + b;
      KeepDigitsAppend(a[1..], b);
      calc {
        KeepDigits(a + b);
        head + KeepDigits(a[1..] + b);
        head + (KeepDigits(a[1..]) + KeepDigits(b));
        (head + KeepDigits(a[1..])) + KeepDigits(b);
        KeepDigits(a) + KeepDigits(b);
      }
    }
  }

  lemma {:induction false} KeepDigitsOfDigits(s: string)
    requires AllDigits(s)
    ensures KeepDigits(s) == s
  {
    if s != [] {
      KeepDigitsOfDigits(s[1..]);
    }
  }

  /** `parseInt(ds)` on a string of digits: NaN (here `None`) when it is empty. */
  function ParseDigits(ds: string): (r: Option<nat>)
    requires AllDigits(ds)
    ensures r.None? <==> ds == []
    ensures r.Some? ==> r.value == DecimalValue(ds)
  {
    if ds == [] then None else Some(DecimalValue(ds))
  }

  /** `parseInt(docId.replace(/[^0-9]/g, "")) || fallback`: NaN and 0 are falsy. */
  function IdFromDocId(docId: string, fallback: nat): (r: nat)
    ensures DecimalValue(KeepDigits(docId)) != 0 ==> r == DecimalValue(KeepDigits(docId))
    ensures DecimalValue(KeepDigits(docId)) == 0 ==> r == fallback
  {
    match ParseDigits(KeepDigits(docId))
    case Some(v) => if v != 0 then v else fallback
    case None => fallback
  }

  /** A document id that embeds one number among non-digits yields that number:
      as a game id always, as a member id whenever the number is not 0. */
  lemma IdOfEmbeddedNumber(prefix: string, n: nat, suffix: string, index: nat)
    requires NoDigits(prefix) && NoDigits(suffix)
    ensures IdFromDocId(prefix + ShowNat(n) + suffix, 0) == n
    ensures n != 0 ==> IdFromDocId(prefix + ShowNat(n) + suffix, index + 1) == n
  {
    var digits := ShowNat(n);
    calc {
      KeepDigits(prefix + digits + suffix);
      { KeepDigitsAppend(prefix + digits, suffix); }
      KeepDigits(prefix + digits) + KeepDigits(suffix);
      { KeepDigitsAppend(prefix, digits); KeepDigitsOfDigits(digits); }
      KeepDigits(prefix) + digits + KeepDigits(suffix);
      { assert KeepDigits(prefix) == [] && KeepDigits(suffix) == []; }
      [] + digits + [];
      { assert [] + digits + [] == digits; }
      digits;
    }
    DecimalValueOfShowNat(n);
  }

  /** The derived id loses information: a draft and its published document, or any two
      ids with the same digits, get the same number. */
  lemma IdsCollide()
    ensures IdFromDocId("drafts.game7", 0) == IdFromDocId("game7", 0) == 7
  {
    assert ShowNat(7) == "7";
    assert "game" + ShowNat(7) + "" == "game7";
    assert "drafts.game" + ShowNat(7) + "" == "drafts.game7";
    IdOfEmbeddedNumber("game", 7, "", 0);
    IdOfEmbeddedNumber("drafts.game", 7, "", 0);
  }

  // ---------------------------------------------------------------------------
  // Games

  /** The URL one platform link holds, if the document sets it. */
  function PlatformUrl(links: Option<PlatformLinks>, p: Platform): Option<string> {
    match links
    case None => None
    case Some(l) =>
      match p
      case Steam => l.steam
      case Itch => l.itch
      case GooglePlay => l.googlePlay
  }

  /** The `links` object: one conditional spread per platform, each taken only when truthy. */
  function StoreLinks(links: Option<PlatformLinks>): (r: map<Platform, string>)
    ensures forall p :: p in r <==> Truthy(PlatformUrl(links, p))
    ensures forall p :: p in r ==> PlatformUrl(links, p) == Some(r[p])
  {
    match links
    case None => map[]
    case Some(l) =>
      var steam := if Truthy(l.steam) then map[Steam := l.steam.value] else map[];
      var itch := if Truthy(l.itch) then map[Itch := l.itch.value] else map[];
      var googlePlay := if Truthy(l.googlePlay) then map[GooglePlay := l.googlePlay.value] else map[];
      steam + itch + googlePlay
  }

  /** The object literal `getGames` builds for one document. */
  function NormalizeGame(g: SanityGame, urlFor: ImageUrl): (r: Game)
    ensures r.id == DecimalValue(KeepDigits(g.docId))
    ensures r.title == g.title && r.shortDescription == g.shortDescription && r.releaseDate == g.releaseDate
    ensures r.slug == g.slug.GetOr("")
    ensures g.coverImage.None? ==> r.coverImage == CoverPlaceholder
    ensures g.coverImage.Some? ==> r.coverImage == urlFor(g.coverImage.value, 800, 600)
    ensures g.screenshots.None? ==> r.screenshots == []
    ensures g.screenshots.Some? ==> |r.screenshots| == |g.screenshots.value|
    ensures g.screenshots.Some? ==>
      forall i :: 0 <= i < |r.screenshots| ==> r.screenshots[i] == urlFor(g.screenshots.value[i], 1920, 1080)
    ensures forall p :: p in r.links <==> Truthy(PlatformUrl(g.platformLinks, p))
    ensures forall p :: p in r.links ==> PlatformUrl(g.platformLinks, p) == Some(r.links[p])
  {
    Game(
      id := IdFromDocId(g.docId, 0),
      title := g.title,
      slug := OrElse(g.slug, ""),
      shortDescription := g.shortDescription,
      coverImage := match g.coverImage
        case Some(a) => urlFor(a, 800, 600)
        case None => CoverPlaceholder,
      screenshots := match g.screenshots
        case Some(shots) => seq(|shots|, i requires 0 <= i < |shots| => urlFor(shots[i], 1920, 1080))
        case None => [],
      releaseDate := g.releaseDate,
      links := StoreLinks(g.platformLinks))
  }

  /** `getGames`: every fetched document normalised, in the order fetched; `[]` on error. */
  function GetGames(fetched: FetchResult<seq<SanityGame>>, urlFor: ImageUrl): (r: seq<Game>)
    ensures fetched.FetchFailed? ==> r == []
    ensures fetched.Fetched? ==> |r| == |fetched.value|
    ensures fetched.Fetched? ==>
      forall i :: 0 <= i < |r| ==> r[i] == NormalizeGame(fetched.value[i], urlFor)
  {
    match fetched
    case FetchFailed => []
    case Fetched(docs) => seq(|docs|, i requires 0 <= i < |docs| => NormalizeGame(docs[i], urlFor))
  }

  /** Normalising a prefix of the fetched list gives the same prefix of the normalised list. */
  lemma GetGamesPrefix(docs: seq<SanityGame>, k: nat, urlFor: ImageUrl)
    requires k <= |docs|
    ensures GetGames(Fetched(docs[..k]), urlFor) == GetGames(Fetched(docs), urlFor)[..k]
  {
  }

  // ---------------------------------------------------------------------------
  // Team members

  /** The main social link: LinkedIn, then GitHub, then nothing. */
  function PrimarySocialLink(linkedinUrl: Option<string>, githubUrl: Option<string>): (r: string)
    ensures r == "" <==> !Truthy(linkedinUrl) && !Truthy(githubUrl)
    ensures Truthy(linkedinUrl) ==> r == linkedinUrl.value
    ensures !Truthy(linkedinUrl) && Truthy(githubUrl) ==> r == githubUrl.value
  {
    OrElse(linkedinUrl, OrElse(githubUrl, ""))
  }

  /** The display role: the first skill, or "" when there is none. */
  function Role(skills: Option<seq<string>>): (r: string)
    ensures skills.Some? && |skills.value| > 0 ==> r == skills.value[0]
    ensures skills.None? || skills.value == [] ==> r == ""
  {
    if skills.Some? && |skills.value| > 0 then skills.value[0] else ""
  }

  /** The object literal `getTeamMembers` builds for the document at `index`. */
  function NormalizeMember(m: SanityMember, index: nat, urlFor: ImageUrl): (r: TeamMember)
    ensures r.id >= 1
    ensures DecimalValue(KeepDigits(m.docId)) != 0 ==> r.id == DecimalValue(KeepDigits(m.docId))
    ensures DecimalValue(KeepDigits(m.docId)) == 0 ==> r.id == index + 1
    ensures r.name == m.name && r.slug == m.slug.GetOr("")
    ensures r.role == Role(m.skills)
    ensures m.avatar.None? ==> r.photo == AvatarPlaceholder
    ensures m.avatar.Some? ==> r.photo == urlFor(m.avatar.value, 400, 400)
    ensures r.socialLink == PrimarySocialLink(m.linkedinUrl, m.githubUrl)
    ensures r.linkedinUrl == m.linkedinUrl && r.githubUrl == m.githubUrl
    ensures r.skills == m.skills.GetOr([])
  {
    TeamMember(
      id := IdFromDocId(m.docId, index + 1),
      name := m.name,
      slug := OrElse(m.slug, ""),
      role := Role(m.skills),
      photo := if m.avatar.Some? then urlFor(m.avatar.value, 400, 400) else AvatarPlaceholder,
      socialLink := PrimarySocialLink(m.linkedinUrl, m.githubUrl),
      linkedinUrl := m.linkedinUrl,
      githubUrl := m.githubUrl,
      skills := if m.skills.Some? then m.skills.value else [])
  }

  /** `getTeamMembers`: every fetched document normalised with its position, in order; `[]` on error. */
  function GetTeamMembers(fetched: FetchResult<seq<SanityMember>>, urlFor: ImageUrl): (r: seq<TeamMember>)
    ensures fetched.FetchFailed? ==> r == []
    ensures fetched.Fetched? ==> |r| == |fetched.value|
    ensures fetched.Fetched? ==>
      forall i :: 0 <= i < |r| ==> r[i] == NormalizeMember(fetched.value[i], i, urlFor)
  {
    match fetched
    case FetchFailed => []
    case Fetched(docs) => seq(|docs|, i requires 0 <= i < |docs| => NormalizeMember(docs[i], i, urlFor))
  }

  /** When no fetched member id carries a non-zero number, the ids are the positions
      1, 2, ..., n, so they are pairwise distinct. */
  lemma FallbackMemberIdsDistinct(docs: seq<SanityMember>, urlFor: ImageUrl)
    requires forall i :: 0 <= i < |docs| ==> DecimalValue(KeepDigits(docs[i].docId)) == 0
    ensures var r := GetTeamMembers(Fetched(docs), urlFor);
      forall i, j :: 0 <= i < |r| && 0 <= j < |r| && i != j ==> r[i].id != r[j].id
  {
    var r := GetTeamMembers(Fetched(docs), urlFor);
    forall i, j | 0 <= i < |r| && 0 <= j < |r| && i != j
      ensures r[i].id != r[j].id
    {
      assert r[i].id == i + 1 && r[j].id == j + 1;
    }
  }

  // ---------------------------------------------------------------------------
  // Lookups by slug

  /** `getGameBySlug`: the document with `fullDescription` defaulted to `[]`, or null
      when nothing was found or the fetch failed. */
  function GetGameBySlug(fetched: FetchResult<Option<SanityGame>>): (r: Option<SanityGame>)
    ensures r.Some? <==> fetched.Fetched? && fetched.value.Some?
    ensures r.Some? ==> r.value.fullDescription.Some?
    ensures r.Some? ==> r.value.(fullDescription := fetched.value.value.fullDescription) == fetched.value.value
    ensures r.Some? && fetched.value.value.fullDescription.Some? ==> r.value == fetched.value.value
    ensures r.Some? && fetched.value.value.fullDescription.None? ==> r.value.fullDescription == Some([])
  {
    match fetched
    case FetchFailed => None
    case Fetched(None) => None
    case Fetched(Some(game)) => Some(game.(fullDescription := Some(game.fullDescription.GetOr([]))))
  }

  /** `getMemberBySlug`: the document unchanged, or null when nothing was found or the fetch failed. */
  function GetMemberBySlug(fetched: FetchResult<Option<SanityMember>>): (r: Option<SanityMember>)
    ensures r.Some? <==> fetched.Fetched? && fetched.value.Some?
    ensures r.Some? ==> r.value == fetched.value.value
  {
    match fetched
    case FetchFailed => None
    case Fetched(found) => found
  }

  /** `getAllMemberSlugs`: the `slug` of each fetched row, in order; `[]` on error. */
  function GetAllMemberSlugs(fetched: FetchResult<seq<SlugRow>>): (r: seq<string>)
    ensures fetched.FetchFailed? ==> r == []
    ensures fetched.Fetched? ==> |r| == |fetched.value|
    ensures fetched.Fetched? ==> forall i :: 0 <= i < |r| ==> r[i] == fetched.value[i].slug
  {
    match fetched
    case FetchFailed => []
    case Fetched(rows) => seq(|rows|, i requires 0 <= i < |rows| => rows[i].slug)
  }
}
