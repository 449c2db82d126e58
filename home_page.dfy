/** The home page's use of the game list: the first three games are featured, and
    the featured section renders nothing when there are none. */
module HomePage {
  import opened SanityClient

  const FeaturedCount: nat := 3

  /** `allGames.slice(0, 3)`. */
  function FeaturedGames(all: seq<Game>): (r: seq<Game>)
    ensures r <= all
    ensures |r| == if |all| < FeaturedCount then |all| else FeaturedCount
  {
    all[..if |all| < FeaturedCount then |all| else FeaturedCount]
  }

  /** `FeaturedGames` renders a section only for a non-empty list. */
  predicate ShowsFeaturedSection(games: seq<Game>) {
    |games| != 0
  }

  /** The games `Home` features for a fetch outcome: the normalised first
      `min(3, n)` documents in the order fetched, and none when the fetch failed. */
  function HomeFeatured(fetched: FetchResult<seq<SanityGame>>, urlFor: ImageUrl): (r: seq<Game>)
    ensures fetched.FetchFailed? ==> r == [] && !ShowsFeaturedSection(r)
    ensures fetched.Fetched? ==> |r| == if |fetched.value| < 3 then |fetched.value| else 3
    ensures fetched.Fetched? ==> forall i :: 0 <= i < |r| ==> r[i] == NormalizeGame(fetched.value[i], urlFor)
    ensures r <= GetGames(fetched, urlFor)
  {
    FeaturedGames(GetGames(fetched, urlFor))
  }

  /** Featuring commutes with normalising: the featured games are the normalised
      featured documents. */
  lemma FeaturedOfNormalised(docs: seq<SanityGame>, urlFor: ImageUrl)
    ensures HomeFeatured(Fetched(docs), urlFor)
         == GetGames(Fetched(docs[..if |docs| < 3 then |docs| else 3]), urlFor)
  {
    GetGamesPrefix(docs, if |docs| < 3 then |docs| else 3, urlFor);
  }

  /** An empty game list features nothing and hides the section. */
  lemma NothingToFeature(urlFor: ImageUrl)
    ensures HomeFeatured(Fetched([]), urlFor) == []
    ensures !ShowsFeaturedSection(HomeFeatured(Fetched([]), urlFor))
  {
  }
}
