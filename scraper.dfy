/**
  The scraper of `scrape.main`, seen from `api/utils.py`: `get_anime`,
  `get_animeUrl_by_ep` and `get_all_animes`.  The remote site is a fixed
  `Source`; the gateway answers from it and logs each call, so that a
  contract can say which pages were requested.
*/
module Scraper {
  import opened Wrappers
  import opened Catalog

  /**
    What the remote site serves: anime pages by URL, the owning anime's URL of
    each episode it can resolve, and the directory listing.
  */
  datatype Source = Source(pages: map<Url, AnimeInfo>, owners: map<Url, Url>, listing: seq<Url>)

  /** One request to the remote site. */
  datatype Call = AnimePage(url: Url) | EpisodeOwner(episode: Url) | Listing

  /** `get_anime(url)`: the scraped page, or the exception it raises when the page cannot be had. */
  function GetAnime(src: Source, url: Url): (r: Result<Scraped, Error>)
    ensures r.Ok? <==> url in src.pages
    ensures r.Ok? ==> r.value == Scraped(url, src.pages[url])
    ensures r.Err? ==> r.error == NotFound(url)
  {
    if url in src.pages then Ok(Scraped(url, src.pages[url])) else Err(NotFound(url))
  }

  /** `get_animeUrl_by_ep(url)`: the owning anime's URL, or None. */
  function OwnerOf(src: Source, episode: Url): (r: Option<Url>)
    ensures r.Some? <==> episode in src.owners
    ensures r.Some? ==> r.value == src.owners[episode]
  {
    if episode in src.owners then Some(src.owners[episode]) else None
  }

  /** The scraper as the code calls it; `log` records the requests in the order made. */
  class Gateway {
    const source: Source
    ghost var log: seq<Call>

    constructor (src: Source)
      ensures source == src && log == []
    {
      source := src;
      log := [];
    }

    method FetchAnime(url: Url) returns (r: Result<Scraped, Error>)
      modifies this
      ensures r == GetAnime(source, url)
      ensures log == old(log) + [AnimePage(url)]
    {
      r := GetAnime(source, url);
      log := log + [AnimePage(url)];
    }

    method FetchOwner(episode: Url) returns (r: Option<Url>)
      modifies this
      ensures r == OwnerOf(source, episode)
      ensures log == old(log) + [EpisodeOwner(episode)]
    {
      r := OwnerOf(source, episode);
      log := log + [EpisodeOwner(episode)];
    }

    /** `get_all_animes()`. */
    method FetchListing() returns (links: seq<Url>)
      modifies this
      ensures links == source.listing
      ensures log == old(log) + [Listing]
    {
      links := source.listing;
      log := log + [Listing];
    }
  }
}
