/**
  The catalog store: the `Anime` and `Episode` tables of `api.models` as the
  functions of `api/utils.py` see them.  Both tables are keyed by their
  `animeflv_url`, the external URL that is unique within each table.

  The model layer (`Anime.create`, `anime.update`, `Anime.create_or_update`)
  is not part of this model; `Create`, `Update` and `CreateOrUpdate` below
  state the behaviour assumed of it, and `Db` is the database those calls
  change in place.
*/
module Catalog {
  import opened Wrappers

  type Url = string

  /** A stored episode; `owner` is the URL of the anime its `anime_id` points to. */
  datatype Episode = Episode(id: nat, number: int, cover: string, owner: Url)

  /** A stored anime; `aid` is its local id and `relations` its `relation_set`, in the order the scraped page lists them. */
  datatype Anime = Anime(aid: nat, name: string, cover: string, relations: seq<Url>)

  /** One episode of a scraped anime page. */
  datatype EpisodeInfo = EpisodeInfo(url: Url, number: int, cover: string)

  /** The fields of a scraped anime page (an `AnimeScrape` without its URL). */
  datatype AnimeInfo = AnimeInfo(name: string, cover: string, episodes: seq<EpisodeInfo>, relations: seq<Url>)

  /** An `AnimeScrape`: what `get_anime(url)` or `AnimeScrape.load_from_dict` yields. */
  datatype Scraped = Scraped(url: Url, info: AnimeInfo)

  /** The database; `nextAid` and `nextEid` are the next values of the two id sequences. */
  datatype Store = Store(animes: map<Url, Anime>, episodes: map<Url, Episode>, nextAid: nat, nextEid: nat)

  /** The exceptions the modelled code can meet. */
  datatype Error =
    | NotFound(url: Url)          // the scraper could not fetch this anime page
    | Integrity(url: Url)         // creating this anime violated a uniqueness constraint
    | EpisodeMissing(url: Url)    // Episode.DoesNotExist after the owner was refreshed or created
    | Dangling(url: Url)          // Anime.DoesNotExist: this stored episode's anime row is missing
    | Unreadable(detail: string)  // the directory file or one of its entries could not be read

  const EmptyStore: Store := Store(map[], map[], 0, 0)

  /** The integrity the database enforces: foreign keys resolve and local ids are fresh and unique. */
  ghost predicate Valid(s: Store) {
    && (forall e :: e in s.episodes ==> s.episodes[e].owner in s.animes)
    && (forall e :: e in s.episodes ==> s.episodes[e].id < s.nextEid)
    && (forall a :: a in s.animes ==> s.animes[a].aid < s.nextAid)
    && (forall a, b :: a in s.animes && b in s.animes && a != b ==> s.animes[a].aid != s.animes[b].aid)
  }

  /** `t` keeps every row of `s`: nothing is deleted, no local id and no episode row changes. */
  ghost predicate Extends(s: Store, t: Store) {
    && s.animes.Keys <= t.animes.Keys
    && (forall a :: a in s.animes ==> t.animes[a].aid == s.animes[a].aid)
    && s.episodes.Keys <= t.episodes.Keys
    && (forall e :: e in s.episodes ==> t.episodes[e] == s.episodes[e])
    && s.nextAid <= t.nextAid && s.nextEid <= t.nextEid
  }

  /** The stored anime shows the scraped fields. */
  predicate Mirrors(a: Anime, info: AnimeInfo) {
    a.name == info.name && a.cover == info.cover && a.relations == info.relations
  }

  /** The URLs of a scraped episode list. */
  function EpisodeUrls(eps: seq<EpisodeInfo>): set<Url>
    decreases |eps|
  {
    if eps == [] then {} else {eps[0].url} + EpisodeUrls(eps[1..])
  }

  /** Some listed episode's URL is already stored: the uniqueness check of the episode table. */
  predicate Clash(eps: seq<EpisodeInfo>, stored: map<Url, Episode>)
    decreases |eps|
  {
    eps != [] && (eps[0].url in stored || Clash(eps[1..], stored))
  }

  /** A clash is exactly a listed URL that is already a key of the episode table. */
  lemma {:induction false} ClashIsOverlap(eps: seq<EpisodeInfo>, stored: map<Url, Episode>)
    ensures Clash(eps, stored) <==> !(EpisodeUrls(eps) !! stored.Keys)
    decreases |eps|
  {
    if eps != [] {
      ClashIsOverlap(eps[1..], stored);
    }
  }

  lemma ExtendsTransitive(s: Store, t: Store, u: Store)
    requires Extends(s, t) && Extends(t, u)
    ensures Extends(s, u)
  {
  }

  /**
    Adds, in list order, a row owned by `owner` for every listed episode whose
    URL is not stored yet; rows already stored are left as they are.
  */
  function Insert(s: Store, eps: seq<EpisodeInfo>, owner: Url): (r: Store)
    ensures r.animes == s.animes && r.nextAid == s.nextAid
    decreases |eps|
  {
    if eps == [] then s
    else
      var e := eps[0];
      var s1 := if e.url in s.episodes then s
                else s.(episodes := s.episodes[e.url := Episode(s.nextEid, e.number, e.cover, owner)],
                         nextEid := s.nextEid + 1);
      Insert(s1, eps[1..], owner)
  }

  /**
    Inserting touches only the episode table: afterwards every listed URL is
    stored, the rows that were there are unchanged, and each new row belongs
    to `owner` and has a fresh id.
  */
  lemma {:induction false} InsertFacts(s: Store, eps: seq<EpisodeInfo>, owner: Url)
    ensures var r := Insert(s, eps, owner);
            && s.nextEid <= r.nextEid
            && r.episodes.Keys == s.episodes.Keys + EpisodeUrls(eps)
            && (forall e :: e in s.episodes ==> r.episodes[e] == s.episodes[e])
            && (forall e :: e in r.episodes && e !in s.episodes ==>
                  r.episodes[e].owner == owner && s.nextEid <= r.episodes[e].id < r.nextEid)
    decreases |eps|
  {
    if eps != [] {
      var e := eps[0];
      var s1 := if e.url in s.episodes then s
                else s.(episodes := s.episodes[e.url := Episode(s.nextEid, e.number, e.cover, owner)],
                         nextEid := s.nextEid + 1);
      InsertFacts(s1, eps[1..], owner);
    }
  }

  /** Inserting episodes for a stored owner keeps the store valid and loses nothing. */
  lemma InsertKeepsValid(s: Store, eps: seq<EpisodeInfo>, owner: Url)
    requires Valid(s) && owner in s.animes
    ensures Valid(Insert(s, eps, owner)) && Extends(s, Insert(s, eps, owner))
  {
    InsertFacts(s, eps, owner);
  }

  /**
    `Anime.create(scraped)`: inserts the anime with the next local id, its
    relations and its episodes.  It raises an integrity error, and writes
    nothing, when the anime's URL or one of its episodes' URLs is already stored.
  */
  function Create(s: Store, rec: Scraped): (r: Result<Store, Error>)
    ensures r.Ok? ==> rec.url in r.value.animes
  {
    if rec.url in s.animes || Clash(rec.info.episodes, s.episodes) then
      Err(Integrity(rec.url))
    else
      var a := Anime(s.nextAid, rec.info.name, rec.info.cover, rec.info.relations);
      var s1 := s.(animes := s.animes[rec.url := a], nextAid := s.nextAid + 1);
      Ok(Insert(s1, rec.info.episodes, rec.url))
  }

  /**
    What `Anime.create` does: it fails exactly on a duplicate anime or episode
    URL; otherwise it adds one anime, showing the scraped fields under an aid
    no other anime has, adds its episodes, and changes no existing row.
  */
  lemma CreateFacts(s: Store, rec: Scraped)
    requires Valid(s)
    ensures var r := Create(s, rec);
            && (r.Ok? <==> rec.url !in s.animes && EpisodeUrls(rec.info.episodes) !! s.episodes.Keys)
            && (r.Err? ==> r.error == Integrity(rec.url))
            && (r.Ok? ==> Extends(s, r.value))
            && (r.Ok? ==> r.value.animes.Keys == s.animes.Keys + {rec.url})
            && (r.Ok? ==> forall a :: a in s.animes ==> r.value.animes[a] == s.animes[a])
            && (r.Ok? ==> Mirrors(r.value.animes[rec.url], rec.info))
            && (r.Ok? ==> forall a :: a in s.animes ==> r.value.animes[rec.url].aid != s.animes[a].aid)
            && (r.Ok? ==> r.value.episodes.Keys == s.episodes.Keys + EpisodeUrls(rec.info.episodes))
            && (r.Ok? ==> forall e :: e in r.value.episodes && e !in s.episodes ==> r.value.episodes[e].owner == rec.url)
  {
    ClashIsOverlap(rec.info.episodes, s.episodes);
    if rec.url !in s.animes && EpisodeUrls(rec.info.episodes) !! s.episodes.Keys {
      var a := Anime(s.nextAid, rec.info.name, rec.info.cover, rec.info.relations);
      var s1 := s.(animes := s.animes[rec.url := a], nextAid := s.nextAid + 1);
      InsertFacts(s1, rec.info.episodes, rec.url);
    }
  }

  /** `Anime.create` keeps the database's integrity. */
  lemma CreateKeepsValid(s: Store, rec: Scraped)
    requires Valid(s)
    ensures Create(s, rec).Ok? ==> Valid(Create(s, rec).value)
  {
    if Create(s, rec).Ok? {
      var a := Anime(s.nextAid, rec.info.name, rec.info.cover, rec.info.relations);
      InsertKeepsValid(s.(animes := s.animes[rec.url := a], nextAid := s.nextAid + 1), rec.info.episodes, rec.url);
    }
  }

  /**
    `anime.update(scraped)` on a stored anime: overwrites its name, cover and
    relations, keeps its local id, and adds the scraped episodes not yet stored.
  */
  function Update(s: Store, url: Url, info: AnimeInfo): (r: Store)
    requires url in s.animes
    ensures url in r.animes
  {
    var a := s.animes[url].(name := info.name, cover := info.cover, relations := info.relations);
    Insert(s.(animes := s.animes[url := a]), info.episodes, url)
  }

  /**
    What `anime.update` does: the anime keeps its aid and shows the scraped
    fields, no other anime changes, and the scraped episodes are all stored
    afterwards, the new ones under this anime.
  */
  lemma UpdateFacts(s: Store, url: Url, info: AnimeInfo)
    requires Valid(s) && url in s.animes
    ensures var r := Update(s, url, info);
            && Extends(s, r)
            && r.animes.Keys == s.animes.Keys
            && r.animes[url].aid == s.animes[url].aid
            && Mirrors(r.animes[url], info)
            && (forall a :: a in s.animes && a != url ==> r.animes[a] == s.animes[a])
            && r.episodes.Keys == s.episodes.Keys + EpisodeUrls(info.episodes)
            && (forall e :: e in r.episodes && e !in s.episodes ==> r.episodes[e].owner == url)
  {
    var a := s.animes[url].(name := info.name, cover := info.cover, relations := info.relations);
    InsertFacts(s.(animes := s.animes[url := a]), info.episodes, url);
  }

  /** `anime.update` keeps the database's integrity. */
  lemma UpdateKeepsValid(s: Store, url: Url, info: AnimeInfo)
    requires Valid(s) && url in s.animes
    ensures Valid(Update(s, url, info))
  {
    var a := s.animes[url].(name := info.name, cover := info.cover, relations := info.relations);
    InsertKeepsValid(s.(animes := s.animes[url := a]), info.episodes, url);
  }

  /** `Anime.create_or_update(scraped)`: update the stored anime of that URL, or create it. */
  function CreateOrUpdate(s: Store, rec: Scraped): (r: Result<Store, Error>)
    ensures r.Ok? ==> rec.url in r.value.animes
  {
    if rec.url in s.animes then Ok(Update(s, rec.url, rec.info)) else Create(s, rec)
  }

  /**
    What `Anime.create_or_update` does: it fails only when creating a new
    anime whose episodes clash; otherwise the anime is stored with the scraped
    fields, its episodes are stored, and no other anime changes.
  */
  lemma CreateOrUpdateFacts(s: Store, rec: Scraped)
    requires Valid(s)
    ensures var r := CreateOrUpdate(s, rec);
            && (r.Ok? <==> rec.url in s.animes || EpisodeUrls(rec.info.episodes) !! s.episodes.Keys)
            && (r.Err? ==> r.error == Integrity(rec.url))
            && (r.Ok? ==> Valid(r.value) && Extends(s, r.value))
            && (r.Ok? ==> r.value.animes.Keys == s.animes.Keys + {rec.url} && Mirrors(r.value.animes[rec.url], rec.info))
            && (r.Ok? ==> r.value.episodes.Keys == s.episodes.Keys + EpisodeUrls(rec.info.episodes))
            && (r.Ok? ==> forall a :: a in s.animes && a != rec.url ==> r.value.animes[a] == s.animes[a])
  {
    if rec.url in s.animes {
      UpdateFacts(s, rec.url, rec.info);
      UpdateKeepsValid(s, rec.url, rec.info);
    } else {
      CreateFacts(s, rec);
      CreateKeepsValid(s, rec);
    }
  }

  /** `Anime.create_or_update` raises only when it has to create, and otherwise stores exactly one more URL at most. */
  lemma CreateOrUpdateKeys(s: Store, rec: Scraped)
    ensures var r := CreateOrUpdate(s, rec);
            && (r.Err? ==> r.error == Integrity(rec.url) && rec.url !in s.animes)
            && (r.Ok? ==> r.value.animes.Keys == s.animes.Keys + {rec.url})
  {
  }

  /** The database, changed in place by the model layer's calls. */
  class Db {
    var animes: map<Url, Anime>
    var episodes: map<Url, Episode>
    var nextAid: nat
    var nextEid: nat

    function Value(): Store
      reads this
    {
      Store(animes, episodes, nextAid, nextEid)
    }

    constructor (s: Store)
      ensures Value() == s
    {
      animes, episodes, nextAid, nextEid := s.animes, s.episodes, s.nextAid, s.nextEid;
    }

    /** `Anime.create`: on an integrity error nothing is written. */
    method CreateAnime(rec: Scraped) returns (err: Option<Error>)
      modifies this
      ensures Create(old(Value()), rec).Ok? ==> err == None && Value() == Create(old(Value()), rec).value
      ensures Create(old(Value()), rec).Err? ==> err == Some(Create(old(Value()), rec).error) && Value() == old(Value())
    {
      match Create(Value(), rec)
      case Ok(s) =>
        animes, episodes, nextAid, nextEid := s.animes, s.episodes, s.nextAid, s.nextEid;
        err := None;
      case Err(e) =>
        err := Some(e);
    }

    /** `anime.update` on the stored anime of `url`. */
    method UpdateAnime(url: Url, info: AnimeInfo)
      requires url in animes
      modifies this
      ensures Value() == Update(old(Value()), url, info)
    {
      var s := Update(Value(), url, info);
      animes, episodes, nextAid, nextEid := s.animes, s.episodes, s.nextAid, s.nextEid;
    }

    /** `Anime.create_or_update`. */
    method CreateOrUpdateAnime(rec: Scraped) returns (err: Option<Error>)
      modifies this
      ensures CreateOrUpdate(old(Value()), rec).Ok? ==> err == None && Value() == CreateOrUpdate(old(Value()), rec).value
      ensures CreateOrUpdate(old(Value()), rec).Err? ==> err == Some(CreateOrUpdate(old(Value()), rec).error) && Value() == old(Value())
    {
      if rec.url in animes {
        UpdateAnime(rec.url, rec.info);
        err := None;
      } else {
        err := CreateAnime(rec);
      }
    }

    /** The rollback of a `transaction.atomic()` block: the state at block entry comes back. */
    method Rollback(saved: Store)
      modifies this
      ensures Value() == saved
    {
      animes, episodes, nextAid, nextEid := saved.animes, saved.episodes, saved.nextAid, saved.nextEid;
    }
  }
}
