/**
  `verify_recents` of api/utils.py: resolving the feed of recent episode URLs
  against the catalog, creating unseen animes and, one hop deep, the animes
  they relate to.

  The functions `Cascade`, `Resolve` and `Recents` say what one cascade, one
  link and one whole feed do to the store and which scraper requests they
  make; the methods of the same shape run against the `Db` and the `Gateway`
  and are proved to follow them.
*/
module Recents {
  import opened Wrappers
  import opened Catalog
  import opened Scraper
  import opened Fetch

  /** A value of the instance dictionary `vars(tmpe)`. */
  datatype Value = Text(s: string) | Number(n: int) | ModelState | Nested(fields: map<string, Value>)

  /** What `format_data` returns: the episode's dictionary, reshaped. */
  type View = map<string, Value>

  /** The keys `format_data` deletes. */
  const Dropped: set<string> := {"_state", "id", "anime_id", "cover"}

  /** `vars(tmpe)` of an episode instance read from the store. */
  function Fields(url: Url, e: Episode, owner: Anime): (r: map<string, Value>)
    ensures Dropped <= r.Keys
    ensures "animeflv_url" in r && r["animeflv_url"] == Text(url)
  {
    map["_state" := ModelState, "id" := Number(e.id), "anime_id" := Number(owner.aid),
        "animeflv_url" := Text(url), "number" := Number(e.number), "cover" := Text(e.cover)]
  }

  /** The `anime` entry `format_data` adds. */
  function Summary(a: Anime): Value {
    Nested(map["name" := Text(a.name), "cover" := Text(a.cover), "aid" := Number(a.aid)])
  }

  /**
    `format_data`: deletes `_state`, `id`, `anime_id` and `cover` from the
    instance dictionary and adds the owner's name, cover and aid under `anime`;
    every other field passes through unchanged.
  */
  function FormatData(fields: map<string, Value>, owner: Anime): (v: View)
    requires Dropped <= fields.Keys
    ensures v.Keys == fields.Keys - Dropped + {"anime"}
    ensures forall k :: k in fields && k !in Dropped && k != "anime" ==> v[k] == fields[k]
    ensures v["anime"] == Summary(owner)
  {
    (fields - Dropped)["anime" := Summary(owner)]
  }

  /** The stored episode `url` has its anime row, so `tmpe.anime` succeeds. */
  predicate Readable(s: Store, url: Url) {
    url in s.episodes && s.episodes[url].owner in s.animes
  }

  /** The view of the stored episode `url`. */
  function ViewOf(s: Store, url: Url): (v: View)
    requires Readable(s, url)
    ensures Shows(v, url)
    ensures v.Keys == {"animeflv_url", "number", "anime"}
  {
    var e := s.episodes[url];
    FormatData(Fields(url, e, s.animes[e.owner]), s.animes[e.owner])
  }

  /** The view is exactly the explicit projection {animeflv_url, number, anime: {name, cover, aid}}. */
  lemma ViewIsProjection(s: Store, url: Url)
    requires Readable(s, url)
    ensures ViewOf(s, url) == map["animeflv_url" := Text(url), "number" := Number(s.episodes[url].number),
                                  "anime" := Summary(s.animes[s.episodes[url].owner])]
  {
    var v := ViewOf(s, url);
    var p := map["animeflv_url" := Text(url), "number" := Number(s.episodes[url].number),
                 "anime" := Summary(s.animes[s.episodes[url].owner])];
    assert v.Keys == p.Keys;
  }

  /** `anime.episode_set.get(animeflv_url=link)` finds a row. */
  predicate Owns(s: Store, owner: Url, link: Url) {
    link in s.episodes && s.episodes[link].owner == owner
  }

  /** The URLs of a list, as a set. */
  function Elements(urls: seq<Url>): set<Url>
    decreases |urls|
  {
    if urls == [] then {} else {urls[0]} + Elements(urls[1..])
  }

  /** One pass of the loop of lines 72-77: refresh the related anime when stored, create it otherwise. */
  function RefreshOne(src: Source, s: Store, url: Url): (r: Run<()>)
    ensures r.calls == [AnimePage(url)]
    ensures r.result.Err? ==> r.store == s
    ensures r.result.Ok? ==> url in r.store.animes
  {
    if url in s.animes then FetchUpdate(src, s, url) else FetchCreate(src, s, url)
  }

  /**
    One pass of the cascade makes the one request for `url`, writes nothing
    when it fails, refreshes or adds `url` alone, and when it succeeds `url`
    is stored and shows its page.
  */
  lemma RefreshOneWrites(src: Source, s: Store, url: Url)
    requires Valid(s)
    ensures var r := RefreshOne(src, s, url);
            && r.calls == [AnimePage(url)]
            && (r.result.Err? ==> r.store == s)
            && Valid(r.store) && Extends(s, r.store)
            && r.store.animes.Keys <= s.animes.Keys + {url}
            && (forall a :: a in s.animes && a != url ==> r.store.animes[a] == s.animes[a])
            && (r.result.Ok? ==> url in r.store.animes && url in src.pages && Mirrors(r.store.animes[url], src.pages[url]))
  {
    if url in src.pages {
      var page := Scraped(url, src.pages[url]);
      if url in s.animes {
        UpdateFacts(s, url, page.info);
        UpdateKeepsValid(s, url, page.info);
      } else {
        CreateFacts(s, page);
        CreateKeepsValid(s, page);
      }
    }
  }

  /**
    The loop of lines 72-77 without its transaction: each related URL in turn,
    stopping at the first failure.
  */
  function Refresh(src: Source, s: Store, related: seq<Url>): (r: Run<()>)
    ensures |r.calls| <= |related|
    ensures r.result.Ok? ==> |r.calls| == |related|
    decreases |related|
  {
    if related == [] then Run(Ok(()), s, [])
    else
      var first := RefreshOne(src, s, related[0]);
      if first.result.Err? then first
      else
        var rest := Refresh(src, first.store, related[1..]);
        Run(rest.result, rest.store, first.calls + rest.calls)
  }

  /** The one-hop bound on requests: the cascade asks only for the related pages, in order. */
  lemma {:induction false} RefreshRequests(src: Source, s: Store, related: seq<Url>)
    requires Valid(s)
    ensures var r := Refresh(src, s, related);
            && |r.calls| <= |related|
            && (forall i :: 0 <= i < |r.calls| ==> r.calls[i] == AnimePage(related[i]))
            && (r.result.Ok? ==> r.calls == Pages(related))
    decreases |related|
  {
    if related != [] {
      RefreshOneWrites(src, s, related[0]);
      var first := RefreshOne(src, s, related[0]);
      if first.result.Ok? {
        RefreshRequests(src, first.store, related[1..]);
      }
    }
  }

  /**
    The one-hop bound on writes: the cascade refreshes or adds only the related
    animes, never their own relations, and leaves every other anime as it was.
  */
  lemma {:induction false} RefreshWrites(src: Source, s: Store, related: seq<Url>)
    requires Valid(s)
    ensures var r := Refresh(src, s, related);
            && Valid(r.store) && Extends(s, r.store)
            && r.store.animes.Keys <= s.animes.Keys + Elements(related)
            && (forall a :: a in s.animes && a !in Elements(related) ==> r.store.animes[a] == s.animes[a])
    decreases |related|
  {
    if related != [] {
      RefreshOneWrites(src, s, related[0]);
      var first := RefreshOne(src, s, related[0]);
      if first.result.Ok? {
        RefreshWrites(src, first.store, related[1..]);
        ExtendsTransitive(s, first.store, Refresh(src, first.store, related[1..]).store);
      }
    }
  }

  /** A cascade that completes has stored every related anime, and only those are new. */
  lemma {:induction false} RefreshCompletes(src: Source, s: Store, related: seq<Url>)
    requires Valid(s)
    ensures var r := Refresh(src, s, related);
            r.result.Ok? ==> r.store.animes.Keys == s.animes.Keys + Elements(related)
    decreases |related|
  {
    if related != [] {
      RefreshOneWrites(src, s, related[0]);
      var first := RefreshOne(src, s, related[0]);
      if first.result.Ok? {
        var rest := Refresh(src, first.store, related[1..]);
        assert Refresh(src, s, related).result == rest.result && Refresh(src, s, related).store == rest.store;
        RefreshCompletes(src, first.store, related[1..]);
        assert first.store.animes.Keys == s.animes.Keys + {related[0]};
      }
    }
  }

  /** After a cascade that completes, every related anime shows its scraped page. */
  lemma {:induction false} RefreshMirrors(src: Source, s: Store, related: seq<Url>)
    requires Valid(s)
    ensures var r := Refresh(src, s, related);
            r.result.Ok? ==>
              forall u :: u in Elements(related) ==>
                u in r.store.animes && u in src.pages && Mirrors(r.store.animes[u], src.pages[u])
    decreases |related|
  {
    if related != [] {
      RefreshOneWrites(src, s, related[0]);
      var first := RefreshOne(src, s, related[0]);
      if first.result.Ok? {
        var rest := Refresh(src, first.store, related[1..]);
        assert Refresh(src, s, related).result == rest.result && Refresh(src, s, related).store == rest.store;
        RefreshMirrors(src, first.store, related[1..]);
        RefreshWrites(src, first.store, related[1..]);
      }
    }
  }

  /**
    Lines 71-77: the cascade inside `transaction.atomic()`; a failure rolls
    the store back to where the cascade began before the error propagates.
  */
  function Cascade(src: Source, s: Store, related: seq<Url>): (r: Run<()>)
    ensures r.result.Err? ==> r.store == s
    ensures |r.calls| <= |related|
  {
    var run := Refresh(src, s, related);
    if run.result.Err? then Run(run.result, s, run.calls) else run
  }

  /**
    Lines 62-66: the owner is stored, so it is refreshed in place and the
    episode is looked up again; if it is still missing the error propagates.
  */
  function RefreshOwner(src: Source, s: Store, link: Url, owner: Url): (r: Run<Option<View>>)
    requires owner in s.animes
    ensures r.calls == [AnimePage(owner)]
    ensures r.result.Ok? ==> r.result.value.Some? && Shows(r.result.value.value, link)
  {
    var update := FetchUpdate(src, s, owner);
    if update.result.Err? then Run(Err(update.result.error), update.store, update.calls)
    else if Owns(update.store, owner, link) then Run(Ok(Some(ViewOf(update.store, link))), update.store, update.calls)
    else Run(Err(EpisodeMissing(link)), update.store, update.calls)
  }

  /**
    Lines 67-77: the owner is new, so it is created outside any transaction,
    its episode's view is taken, and then the one-hop cascade runs.
  */
  function CreateOwner(src: Source, s: Store, link: Url, owner: Url): (r: Run<Option<View>>)
    requires owner !in s.animes
    ensures r.calls != [] && r.calls[0] == AnimePage(owner)
    ensures r.result.Ok? ==> r.result.value.Some? && Shows(r.result.value.value, link)
  {
    var create := FetchCreate(src, s, owner);
    if create.result.Err? then Run(Err(create.result.error), create.store, create.calls)
    else if !Owns(create.store, owner, link) then Run(Err(EpisodeMissing(link)), create.store, create.calls)
    else
      var view := ViewOf(create.store, link);
      var cascade := Cascade(src, create.store, create.store.animes[owner].relations);
      var calls := create.calls + cascade.calls;
      if cascade.result.Err? then Run(Err(cascade.result.error), cascade.store, calls)
      else Run(Ok(Some(view)), cascade.store, calls)
  }

  /**
    Lines 55-77 for one link: the fast path, the silent drop, or the owner's
    refresh or creation.
  */
  function Resolve(src: Source, s: Store, link: Url): (r: Run<Option<View>>)
    ensures link in s.episodes ==> r.store == s && r.calls == []
    ensures link !in s.episodes ==> r.calls != [] && r.calls[0] == EpisodeOwner(link)
  {
    if link in s.episodes then
      if Readable(s, link) then Run(Ok(Some(ViewOf(s, link))), s, []) else Run(Err(Dangling(link)), s, [])
    else
      match OwnerOf(src, link)
      case None => Run(Ok(None), s, [EpisodeOwner(link)])
      case Some(owner) =>
        var r := if owner in s.animes then RefreshOwner(src, s, link, owner) else CreateOwner(src, s, link, owner);
        Run(r.result, r.store, [EpisodeOwner(link)] + r.calls)
  }

  function Emitted(out: Option<View>): seq<View> {
    if out.Some? then [out.value] else []
  }

  function Prepend(views: seq<View>, r: Result<seq<View>, Error>): Result<seq<View>, Error> {
    match r
    case Ok(rest) => Ok(views + rest)
    case Err(e) => Err(e)
  }

  lemma PrependAssociates(a: seq<View>, b: seq<View>, r: Result<seq<View>, Error>)
    ensures Prepend([], r) == r
    ensures Prepend(a, Prepend(b, r)) == Prepend(a + b, r)
  {
    if r.Ok? {
      assert [] + r.value == r.value;
      assert a + (b + r.value) == (a + b) + r.value;
    }
  }

  /**
    `verify_recents(links)`: the links in order; an exception from any link
    ends the whole call, and what the links before it wrote stays written.
  */
  function Recents(src: Source, s: Store, links: seq<Url>): (r: Run<seq<View>>)
    ensures r.result.Ok? ==> |r.result.value| <= |links|
    decreases |links|
  {
    if links == [] then Run(Ok([]), s, [])
    else
      var first := Resolve(src, s, links[0]);
      match first.result
      case Err(e) => Run(Err(e), first.store, first.calls)
      case Ok(out) =>
        var rest := Recents(src, first.store, links[1..]);
        Run(Prepend(Emitted(out), rest.result), rest.store, first.calls + rest.calls)
  }

  // ---------------------------------------------------------------------------
  // What one link does

  /** The relations of the owner's page, when the site serves it. */
  function Related(src: Source, owner: Url): set<Url> {
    if owner in src.pages then Elements(src.pages[owner].relations) else {}
  }

  /** The view names the episode it was made for. */
  predicate Shows(v: View, link: Url) {
    "animeflv_url" in v && v["animeflv_url"] == Text(link)
  }

  /**
    The fast path (lines 55-57): a stored episode yields its projection, with
    no owner lookup, no page request and no write.
  */
  lemma FastPath(src: Source, s: Store, link: Url)
    requires Valid(s) && link in s.episodes
    ensures var e := s.episodes[link];
            Resolve(src, s, link) ==
              Run(Ok(Some(map["animeflv_url" := Text(link), "number" := Number(e.number),
                              "anime" := Summary(s.animes[e.owner])])), s, [])
  {
    ViewIsProjection(s, link);
  }

  /** An episode whose owner the site cannot name is dropped (lines 59-61): no view and no write. */
  lemma Unresolvable(src: Source, s: Store, link: Url)
    requires link !in s.episodes && link !in src.owners
    ensures Resolve(src, s, link) == Run(Ok(None), s, [EpisodeOwner(link)])
  {
  }

  /**
    A known owner (lines 62-66) is refreshed in place: no anime is created, no
    cascade runs, and the emitted view exists exactly when the refreshed page
    lists the episode; otherwise the lookup's error propagates.
  */
  lemma KnownOwner(src: Source, s: Store, link: Url, owner: Url)
    requires Valid(s) && owner in s.animes && link !in s.episodes
    ensures var r := RefreshOwner(src, s, link, owner);
            && r.calls == [AnimePage(owner)]
            && r.store.animes.Keys == s.animes.Keys
            && (forall a :: a in s.animes && a != owner ==> r.store.animes[a] == s.animes[a])
            && (owner !in src.pages ==> r.result == Err(NotFound(owner)) && r.store == s)
            && (owner in src.pages ==>
                  && r.store.animes[owner].aid == s.animes[owner].aid
                  && Mirrors(r.store.animes[owner], src.pages[owner])
                  && (r.result.Ok? <==> link in EpisodeUrls(src.pages[owner].episodes))
                  && (r.result.Err? ==> r.result.error == EpisodeMissing(link)))
            && (r.result.Ok? ==> Readable(r.store, link) && r.result.value == Some(ViewOf(r.store, link)))
  {
    if owner in src.pages {
      UpdateFacts(s, owner, src.pages[owner]);
    }
  }

  /**
    A new owner (lines 67-77) adds at most the owner and its direct relations:
    the relations of those relations are never followed, and every other
    anime is left as it was.
  */
  lemma NewOwnerOneHop(src: Source, s: Store, link: Url, owner: Url)
    requires Valid(s) && owner !in s.animes
    ensures var r := CreateOwner(src, s, link, owner);
            && r.store.animes.Keys <= s.animes.Keys + {owner} + Related(src, owner)
            && (forall a :: a in s.animes && a !in Related(src, owner) ==>
                  a in r.store.animes && r.store.animes[a] == s.animes[a])
  {
    if owner in src.pages {
      var page := Scraped(owner, src.pages[owner]);
      CreateFacts(s, page);
      CreateKeepsValid(s, page);
      if Create(s, page).Ok? {
        var s1 := Create(s, page).value;
        var related := s1.animes[owner].relations;
        assert related == page.info.relations;
        RefreshWrites(src, s1, related);
        var r := CreateOwner(src, s, link, owner);
        assert r.store == s1 || r.store == Refresh(src, s1, related).store;
      }
    }
  }

  /**
    A new owner whose resolution fails leaves the store as it was or with the
    owner alone created: the creation at line 68 stays, while whatever the
    cascade wrote is rolled back.
  */
  lemma NewOwnerFailure(src: Source, s: Store, link: Url, owner: Url)
    requires owner !in s.animes
    ensures var r := CreateOwner(src, s, link, owner);
            r.result.Err? ==>
              r.store == s || (owner in src.pages && r.store == Create(s, Scraped(owner, src.pages[owner])).value)
  {
  }

  /**
    A new owner resolved in full: the owner and every related anime are
    stored, each related one showing its page, the owner's page and then each
    related page were requested once, in order, and the view emitted is the
    episode's as it was right after the owner's creation.
  */
  lemma NewOwnerSuccess(src: Source, s: Store, link: Url, owner: Url)
    requires Valid(s) && owner !in s.animes
    ensures var r := CreateOwner(src, s, link, owner);
            r.result.Ok? ==>
              && owner in src.pages
              && var page := Scraped(owner, src.pages[owner]);
              && Create(s, page).Ok?
              && var created := Create(s, page).value;
              && Readable(created, link) && created.episodes[link].owner == owner
              && r.result.value == Some(ViewOf(created, link))
              && r.calls == [AnimePage(owner)] + Pages(page.info.relations)
              && r.store.animes.Keys == s.animes.Keys + {owner} + Elements(page.info.relations)
              && (forall u :: u in Elements(page.info.relations) ==> u in src.pages && Mirrors(r.store.animes[u], src.pages[u]))
  {
    if owner in src.pages {
      var page := Scraped(owner, src.pages[owner]);
      CreateFacts(s, page);
      CreateKeepsValid(s, page);
      if Create(s, page).Ok? {
        var s1 := Create(s, page).value;
        RefreshRequests(src, s1, s1.animes[owner].relations);
        RefreshCompletes(src, s1, s1.animes[owner].relations);
        RefreshMirrors(src, s1, s1.animes[owner].relations);
      }
    }
  }

  lemma RefreshOwnerKeepsValid(src: Source, s: Store, link: Url, owner: Url)
    requires Valid(s) && owner in s.animes
    ensures Valid(RefreshOwner(src, s, link, owner).store) && Extends(s, RefreshOwner(src, s, link, owner).store)
  {
    if owner in src.pages {
      UpdateFacts(s, owner, src.pages[owner]);
      UpdateKeepsValid(s, owner, src.pages[owner]);
    }
  }

  lemma CreateOwnerKeepsValid(src: Source, s: Store, link: Url, owner: Url)
    requires Valid(s) && owner !in s.animes
    ensures Valid(CreateOwner(src, s, link, owner).store) && Extends(s, CreateOwner(src, s, link, owner).store)
  {
    if owner in src.pages {
      var page := Scraped(owner, src.pages[owner]);
      CreateFacts(s, page);
      CreateKeepsValid(s, page);
      if Create(s, page).Ok? {
        var s1 := Create(s, page).value;
        var related := s1.animes[owner].relations;
        RefreshWrites(src, s1, related);
        ExtendsTransitive(s, s1, Refresh(src, s1, related).store);
        var r := CreateOwner(src, s, link, owner);
        assert r.store == s1 || r.store == Refresh(src, s1, related).store;
      }
    }
  }

  /** Resolving a link keeps the database's integrity and deletes or renumbers nothing. */
  lemma ResolveKeepsValid(src: Source, s: Store, link: Url)
    requires Valid(s)
    ensures Valid(Resolve(src, s, link).store) && Extends(s, Resolve(src, s, link).store)
  {
    if link !in s.episodes && link in src.owners {
      var owner := src.owners[link];
      if owner in s.animes {
        RefreshOwnerKeepsValid(src, s, link, owner);
      } else {
        CreateOwnerKeepsValid(src, s, link, owner);
      }
    }
  }

  /** Every view a link yields is the view of that link's episode. */
  lemma ResolveShows(src: Source, s: Store, link: Url)
    ensures var r := Resolve(src, s, link);
            r.result.Ok? && r.result.value.Some? ==> Shows(r.result.value.value, link)
  {
  }

  // ---------------------------------------------------------------------------
  // What the whole feed does

  /**
    `views` picks, in order, at most one view per link, each showing its link:
    a subsequence of the input, in input order.
  */
  ghost predicate Follows(views: seq<View>, links: seq<Url>)
    decreases |links|
  {
    if views == [] then true
    else if links == [] then false
    else (Shows(views[0], links[0]) && Follows(views[1..], links[1..])) || Follows(views, links[1..])
  }

  lemma {:induction false} FollowsBound(views: seq<View>, links: seq<Url>)
    requires Follows(views, links)
    ensures |views| <= |links|
    decreases |links|
  {
    if views != [] {
      if Shows(views[0], links[0]) && Follows(views[1..], links[1..]) {
        FollowsBound(views[1..], links[1..]);
      } else {
        FollowsBound(views, links[1..]);
      }
    }
  }

  /**
    The output order (lines 53-78): the views returned follow the input links
    in order, at most one per link, so there are no more views than links.
  */
  lemma {:induction false} FeedOrder(src: Source, s: Store, links: seq<Url>)
    ensures var r := Recents(src, s, links);
            r.result.Ok? ==> Follows(r.result.value, links) && |r.result.value| <= |links|
    decreases |links|
  {
    var r := Recents(src, s, links);
    if links != [] && r.result.Ok? {
      var first := Resolve(src, s, links[0]);
      ResolveShows(src, s, links[0]);
      var rest := Recents(src, first.store, links[1..]);
      FeedOrder(src, first.store, links[1..]);
      var out := first.result.value;
      assert r.result.value == Emitted(out) + rest.result.value;
      if out.Some? {
        assert r.result.value[1..] == rest.result.value;
      } else {
        assert r.result.value == rest.result.value;
      }
      FollowsBound(r.result.value, links);
    }
  }

  /** The views of stored episodes, in order. */
  function Cached(s: Store, links: seq<Url>): (views: seq<View>)
    requires forall i :: 0 <= i < |links| ==> Readable(s, links[i])
    ensures |views| == |links|
    decreases |links|
  {
    if links == [] then [] else [ViewOf(s, links[0])] + Cached(s, links[1..])
  }

  /**
    A feed of stored episodes is answered from the store alone: every link's
    view, in order, with no request to the site and no write.
  */
  lemma {:induction false} CachedFeed(src: Source, s: Store, links: seq<Url>)
    requires Valid(s) && forall i :: 0 <= i < |links| ==> links[i] in s.episodes
    ensures Recents(src, s, links) == Run(Ok(Cached(s, links)), s, [])
    decreases |links|
  {
    if links != [] {
      CachedFeed(src, s, links[1..]);
    }
  }

  /** The whole feed keeps the database's integrity and deletes or renumbers nothing. */
  lemma {:induction false} RecentsKeepsValid(src: Source, s: Store, links: seq<Url>)
    requires Valid(s)
    ensures Valid(Recents(src, s, links).store) && Extends(s, Recents(src, s, links).store)
    decreases |links|
  {
    if links != [] {
      ResolveKeepsValid(src, s, links[0]);
      var first := Resolve(src, s, links[0]);
      if first.result.Ok? {
        RecentsKeepsValid(src, first.store, links[1..]);
        ExtendsTransitive(s, first.store, Recents(src, first.store, links[1..]).store);
      }
    }
  }

  // ---------------------------------------------------------------------------
  // The code, against the database and the scraper

  /** One pass of the loop of lines 72-77. */
  method RefreshStep(db: Db, gw: Gateway, url: Url) returns (err: Option<Error>)
    modifies db, gw
    ensures var run := RefreshOne(gw.source, old(db.Value()), url);
            && err == (if run.result.Err? then Some(run.result.error) else None)
            && db.Value() == run.store && gw.log == old(gw.log) + run.calls
  {
    if url in db.animes {
      err := FetchAndUpdate(db, gw, url);
    } else {
      err := FetchAndCreate(db, gw, url);
    }
  }

  /** Lines 71-77: the cascade inside `transaction.atomic()`. */
  method RefreshRelated(db: Db, gw: Gateway, related: seq<Url>) returns (err: Option<Error>)
    modifies db, gw
    ensures var run := Cascade(gw.source, old(db.Value()), related);
            && err == (if run.result.Err? then Some(run.result.error) else None)
            && db.Value() == run.store && gw.log == old(gw.log) + run.calls
  {
    var saved := db.Value();
    ghost var whole := Refresh(gw.source, saved, related);
    ghost var done: seq<Call> := [];
    var i := 0;
    assert related[0..] == related;
    while i < |related|
      invariant 0 <= i <= |related|
      invariant gw.log == old(gw.log) + done
      invariant var rest := Refresh(gw.source, db.Value(), related[i..]);
                whole == Run(rest.result, rest.store, done + rest.calls)
    {
      var url := related[i];
      assert related[i..][1..] == related[i + 1..];
      ghost var cur := db.Value();
      ghost var step := RefreshOne(gw.source, cur, url);
      err := RefreshStep(db, gw, url);
      SeqAssociate(old(gw.log), done, step.calls);
      if err.Some? {
        assert Refresh(gw.source, cur, related[i..]) == step;
        db.Rollback(saved);
        return;
      }
      ghost var next := Refresh(gw.source, step.store, related[i + 1..]);
      assert Refresh(gw.source, cur, related[i..]) == Run(next.result, next.store, step.calls + next.calls);
      SeqAssociate(done, step.calls, next.calls);
      done := done + step.calls;
      i := i + 1;
    }
    return None;
  }

  /** Lines 62-66. */
  method RefreshKnownOwner(db: Db, gw: Gateway, link: Url, owner: Url) returns (res: Result<Option<View>, Error>)
    requires owner in db.animes
    modifies db, gw
    ensures var run := RefreshOwner(gw.source, old(db.Value()), link, owner);
            res == run.result && db.Value() == run.store && gw.log == old(gw.log) + run.calls
  {
    var failed := FetchAndUpdate(db, gw, owner);
    if failed.Some? {
      return Err(failed.value);
    }
    if !Owns(db.Value(), owner, link) {
      return Err(EpisodeMissing(link));
    }
    return Ok(Some(ViewOf(db.Value(), link)));
  }

  /** Lines 67-77. */
  method CreateNewOwner(db: Db, gw: Gateway, link: Url, owner: Url) returns (res: Result<Option<View>, Error>)
    requires owner !in db.animes
    modifies db, gw
    ensures var run := CreateOwner(gw.source, old(db.Value()), link, owner);
            res == run.result && db.Value() == run.store && gw.log == old(gw.log) + run.calls
  {
    var failed := FetchAndCreate(db, gw, owner);
    if failed.Some? {
      return Err(failed.value);
    }
    if !Owns(db.Value(), owner, link) {
      return Err(EpisodeMissing(link));
    }
    var view := ViewOf(db.Value(), link);
    ghost var created := db.Value();
    ghost var mid := gw.log;
    var cascadeFailed := RefreshRelated(db, gw, db.animes[owner].relations);
    ghost var cascade := Cascade(gw.source, created, created.animes[owner].relations);
    assert gw.log == mid + cascade.calls;
    SeqAssociate(old(gw.log), [AnimePage(owner)], cascade.calls);
    if cascadeFailed.Some? {
      return Err(cascadeFailed.value);
    }
    return Ok(Some(view));
  }

  /** The body of the loop of lines 54-77, for one link. */
  method ResolveLink(db: Db, gw: Gateway, link: Url) returns (res: Result<Option<View>, Error>)
    modifies db, gw
    ensures var run := Resolve(gw.source, old(db.Value()), link);
            res == run.result && db.Value() == run.store && gw.log == old(gw.log) + run.calls
  {
    if link in db.episodes {
      if !Readable(db.Value(), link) {
        return Err(Dangling(link));
      }
      return Ok(Some(ViewOf(db.Value(), link)));
    }
    var owner := gw.FetchOwner(link);
    if owner.None? {
      return Ok(None);
    }
    ghost var before := db.Value();
    ghost var mid := gw.log;
    ghost var r: Run<Option<View>>;
    if owner.value in db.animes {
      res := RefreshKnownOwner(db, gw, link, owner.value);
      r := RefreshOwner(gw.source, before, link, owner.value);
    } else {
      res := CreateNewOwner(db, gw, link, owner.value);
      r := CreateOwner(gw.source, before, link, owner.value);
    }
    assert gw.log == mid + r.calls;
    SeqAssociate(old(gw.log), [EpisodeOwner(link)], r.calls);
  }

  /** `verify_recents`: lines 53-78. */
  method VerifyRecents(db: Db, gw: Gateway, links: seq<Url>) returns (res: Result<seq<View>, Error>)
    modifies db, gw
    ensures var run := Recents(gw.source, old(db.Value()), links);
            res == run.result && db.Value() == run.store && gw.log == old(gw.log) + run.calls
  {
    var recents: seq<View> := [];
    ghost var whole := Recents(gw.source, db.Value(), links);
    ghost var done: seq<Call> := [];
    assert links[0..] == links;
    PrependAssociates([], [], whole.result);
    for i := 0 to |links|
      invariant gw.log == old(gw.log) + done
      invariant var rest := Recents(gw.source, db.Value(), links[i..]);
                whole == Run(Prepend(recents, rest.result), rest.store, done + rest.calls)
    {
      assert links[i..][1..] == links[i + 1..];
      ghost var before := db.Value();
      ghost var step := Resolve(gw.source, before, links[i]);
      var out := ResolveLink(db, gw, links[i]);
      SeqAssociate(old(gw.log), done, step.calls);
      match out
      case Err(e) =>
        assert Recents(gw.source, before, links[i..]) == Run(Err(e), step.store, step.calls);
        return Err(e);
      case Ok(v) =>
        ghost var next := Recents(gw.source, step.store, links[i + 1..]);
        assert Recents(gw.source, before, links[i..]) == Run(Prepend(Emitted(v), next.result), next.store, step.calls + next.calls);
        PrependAssociates(recents, Emitted(v), next.result);
        SeqAssociate(done, step.calls, next.calls);
        if v.Some? {
          recents := recents + [v.value];
        }
        done := done + step.calls;
    }
    assert links[|links|..] == [];
    assert recents + [] == recents && done + [] == done;
    return Ok(recents);
  }
}
