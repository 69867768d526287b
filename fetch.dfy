/**
  The request-then-write steps both loops of api/utils.py are built from:
  `anime.update(get_anime(url))` and `Anime.create(get_anime(url))`, as
  functions saying what they do to the store and which request they make,
  and as methods against the `Db` and the `Gateway` proved to follow them.
*/
module Fetch {
  import opened Wrappers
  import opened Catalog
  import opened Scraper

  /** The effect of a run: its outcome, the store after it, and the scraper requests made. */
  datatype Run<T> = Run(result: Result<T, Error>, store: Store, calls: seq<Call>)

  /** The requests `get_anime` makes for each of `urls`, in order. */
  function Pages(urls: seq<Url>): (r: seq<Call>)
    ensures |r| == |urls| && forall i :: 0 <= i < |urls| ==> r[i] == AnimePage(urls[i])
  {
    if urls == [] then [] else [AnimePage(urls[0])] + Pages(urls[1..])
  }

  /** `anime.update(get_anime(url))` on the stored anime of `url`. */
  function FetchUpdate(src: Source, s: Store, url: Url): (r: Run<()>)
    requires url in s.animes
    ensures r.calls == [AnimePage(url)]
    ensures url in r.store.animes
    ensures r.result.Err? ==> r.store == s
  {
    match GetAnime(src, url)
    case Err(e) => Run(Err(e), s, [AnimePage(url)])
    case Ok(page) => Run(Ok(()), Update(s, url, page.info), [AnimePage(url)])
  }

  /** `Anime.create(get_anime(url))`. */
  function FetchCreate(src: Source, s: Store, url: Url): (r: Run<()>)
    ensures r.calls == [AnimePage(url)]
    ensures r.result.Ok? ==> url in r.store.animes
    ensures r.result.Err? ==> r.store == s
  {
    match GetAnime(src, url)
    case Err(e) => Run(Err(e), s, [AnimePage(url)])
    case Ok(page) =>
      match Create(s, page)
      case Err(e) => Run(Err(e), s, [AnimePage(url)])
      case Ok(s1) => Run(Ok(()), s1, [AnimePage(url)])
  }

  /**
    One creation: one request; a failure writes nothing and is the page's
    absence or an integrity error; a success adds the one anime; either way
    no stored anime changes and the database stays valid.
  */
  lemma FetchCreateWrites(src: Source, s: Store, url: Url)
    requires Valid(s)
    ensures var r := FetchCreate(src, s, url);
            && r.calls == [AnimePage(url)]
            && Valid(r.store) && Extends(s, r.store)
            && (r.result.Ok? <==> url in src.pages && url !in s.animes && EpisodeUrls(src.pages[url].episodes) !! s.episodes.Keys)
            && (r.result.Err? ==> r.store == s && (r.result.error == NotFound(url) || r.result.error == Integrity(url)))
            && (r.result.Ok? ==> r.store.animes.Keys == s.animes.Keys + {url})
            && (forall a :: a in s.animes ==> r.store.animes[a] == s.animes[a])
  {
    if url in src.pages {
      var page := Scraped(url, src.pages[url]);
      CreateFacts(s, page);
      CreateKeepsValid(s, page);
    }
  }

  /** A creation fails only because the page is absent or the anime or an episode is already stored. */
  lemma FetchCreateError(src: Source, s: Store, url: Url)
    ensures var r := FetchCreate(src, s, url);
            r.result.Err? ==> r.result.error == NotFound(url) || r.result.error == Integrity(url)
  {
    if url in src.pages {
      assert GetAnime(src, url) == Ok(Scraped(url, src.pages[url]));
    }
  }

  /** One creation keeps every stored anime and adds at most its own URL. */
  lemma FetchCreateKeys(src: Source, s: Store, url: Url)
    ensures var r := FetchCreate(src, s, url);
            s.animes.Keys <= r.store.animes.Keys <= s.animes.Keys + {url}
  {
    if url in src.pages && Create(s, Scraped(url, src.pages[url])).Ok? {
      var rec := Scraped(url, src.pages[url]);
      var a := Anime(s.nextAid, rec.info.name, rec.info.cover, rec.info.relations);
      var s1 := s.(animes := s.animes[url := a], nextAid := s.nextAid + 1);
      assert Create(s, rec).value == Insert(s1, rec.info.episodes, url);
    }
  }

  lemma SeqAssociate<T>(a: seq<T>, b: seq<T>, c: seq<T>)
    ensures a + (b + c) == (a + b) + c
  {
  }

  /** `anime.update(get_anime(url))`. */
  method FetchAndUpdate(db: Db, gw: Gateway, url: Url) returns (err: Option<Error>)
    requires url in db.animes
    modifies db, gw
    ensures var run := FetchUpdate(gw.source, old(db.Value()), url);
            && err == (if run.result.Err? then Some(run.result.error) else None)
            && db.Value() == run.store && gw.log == old(gw.log) + run.calls
  {
    var page := gw.FetchAnime(url);
    if page.Err? {
      return Some(page.error);
    }
    db.UpdateAnime(url, page.value.info);
    return None;
  }

  /** `Anime.create(get_anime(url))`. */
  method FetchAndCreate(db: Db, gw: Gateway, url: Url) returns (err: Option<Error>)
    modifies db, gw
    ensures var run := FetchCreate(gw.source, old(db.Value()), url);
            && err == (if run.result.Err? then Some(run.result.error) else None)
            && db.Value() == run.store && gw.log == old(gw.log) + run.calls
  {
    var page := gw.FetchAnime(url);
    if page.Err? {
      return Some(page.error);
    }
    err := db.CreateAnime(page.value);
  }
}
