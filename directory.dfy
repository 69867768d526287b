/**
  The two batch loaders of api/utils.py.  `create_directory` fetches and
  creates every listed anime that was not saved when it started;
  `load_directory` restores a directory file entry by entry.  Both try each
  item, report the item that fails, and go on with the next one.
*/
module Directory {
  import opened Wrappers
  import opened Catalog
  import opened Scraper
  import opened Fetch

  /** One `Error saving anime "{e}": {url}` line. */
  datatype Report = Report(error: Error, url: Url)

  /** The URLs the reports name, in order. */
  function Urls(reports: seq<Report>): (r: seq<Url>)
    ensures |r| == |reports| && forall i :: 0 <= i < |r| ==> r[i] == reports[i].url
  {
    if reports == [] then [] else [reports[0].url] + Urls(reports[1..])
  }

  /** The report of one attempt: one line when it raised, none otherwise. */
  function Failed<T>(result: Result<T, Error>, url: Url): (r: seq<Report>)
    ensures |r| <= 1
    ensures r != [] <==> result.Err?
    ensures result.Err? ==> r == [Report(result.error, url)]
  {
    if result.Err? then [Report(result.error, url)] else []
  }

  /** `a` is `b` with some elements left out, the rest kept in order. */
  ghost predicate Subsequence(a: seq<Url>, b: seq<Url>)
    decreases |b|
  {
    if a == [] then true
    else if b == [] then false
    else (a[0] == b[0] && Subsequence(a[1..], b[1..])) || Subsequence(a, b[1..])
  }

  lemma {:induction false} SubsequenceBound(a: seq<Url>, b: seq<Url>)
    requires Subsequence(a, b)
    ensures |a| <= |b| && forall u :: u in a ==> u in b
    decreases |b|
  {
    if a != [] {
      if a[0] == b[0] && Subsequence(a[1..], b[1..]) {
        SubsequenceBound(a[1..], b[1..]);
        assert a == [a[0]] + a[1..] && b == [b[0]] + b[1..];
      } else {
        SubsequenceBound(a, b[1..]);
      }
    }
  }

  // ---------------------------------------------------------------------------
  // create_directory

  /** The effect of `create_directory`: the store after it, its reports, and its requests. */
  datatype Batch = Batch(store: Store, reports: seq<Report>, calls: seq<Call>)

  /** The links the loop fetches: those not in the snapshot, in listing order, repeats included. */
  function Unsaved(saved: set<Url>, links: seq<Url>): (r: seq<Url>)
    ensures Subsequence(r, links)
    ensures forall u :: u in r <==> u in links && u !in saved
    ensures forall u :: multiset(r)[u] == if u in saved then 0 else multiset(links)[u]
    decreases |links|
  {
    if links == [] then []
    else
      assert links == [links[0]] + links[1..];
      var rest := Unsaved(saved, links[1..]);
      if links[0] in saved then rest else [links[0]] + rest
  }

  /**
    The loop of lines 33-39: a link in the snapshot `saved` is skipped; any
    other is fetched and created, and its exception, if any, is reported.
  */
  function Build(src: Source, saved: set<Url>, s: Store, links: seq<Url>): (b: Batch)
    ensures |b.reports| <= |b.calls| <= |links|
    decreases |links|
  {
    if links == [] then Batch(s, [], [])
    else if links[0] in saved then Build(src, saved, s, links[1..])
    else
      var step := FetchCreate(src, s, links[0]);
      var rest := Build(src, saved, step.store, links[1..]);
      Batch(rest.store, Failed(step.result, links[0]) + rest.reports, step.calls + rest.calls)
  }

  /** `create_directory()`: the listing, then the loop against the URLs saved before it starts (line 31). */
  function Directory(src: Source, s: Store): (b: Batch)
    ensures b.calls != [] && b.calls[0] == Listing
    ensures |b.reports| < |b.calls| <= |src.listing| + 1
  {
    var b := Build(src, s.animes.Keys, s, src.listing);
    Batch(b.store, b.reports, [Listing] + b.calls)
  }

  /** Only the links missing from the snapshot are fetched, each occurrence once, in listing order. */
  lemma {:induction false} BuildRequests(src: Source, saved: set<Url>, s: Store, links: seq<Url>)
    ensures Build(src, saved, s, links).calls == Pages(Unsaved(saved, links))
    decreases |links|
  {
    if links != [] {
      if links[0] in saved {
        BuildRequests(src, saved, s, links[1..]);
      } else {
        var step := FetchCreate(src, s, links[0]);
        BuildRequests(src, saved, step.store, links[1..]);
        assert Pages(Unsaved(saved, links)) == [AnimePage(links[0])] + Pages(Unsaved(saved, links[1..]));
      }
    }
  }

  /**
    The loop only adds: every stored anime is left exactly as it was, every
    anime it adds is a listed link, and the database stays valid.
  */
  lemma {:induction false} BuildWrites(src: Source, saved: set<Url>, s: Store, links: seq<Url>)
    requires Valid(s)
    ensures var b := Build(src, saved, s, links);
            && Valid(b.store) && Extends(s, b.store)
            && (forall a :: a in s.animes ==> b.store.animes[a] == s.animes[a])
            && (forall a :: a in b.store.animes ==> a in s.animes || a in links)
    decreases |links|
  {
    if links != [] {
      if links[0] in saved {
        BuildWrites(src, saved, s, links[1..]);
      } else {
        var step := FetchCreate(src, s, links[0]);
        FetchCreateWrites(src, s, links[0]);
        BuildWrites(src, saved, step.store, links[1..]);
        ExtendsTransitive(s, step.store, Build(src, saved, step.store, links[1..]).store);
      }
    }
  }

  /**
    A failing link does not stop the loop: every link missing from the
    snapshot ends up stored or reported.
  */
  lemma {:induction false} BuildCovers(src: Source, saved: set<Url>, s: Store, links: seq<Url>)
    requires Valid(s)
    ensures var b := Build(src, saved, s, links);
            forall u :: u in links && u !in saved ==> u in b.store.animes || u in Urls(b.reports)
    decreases |links|
  {
    if links != [] {
      if links[0] in saved {
        BuildCovers(src, saved, s, links[1..]);
      } else {
        var step := FetchCreate(src, s, links[0]);
        var rest := Build(src, saved, step.store, links[1..]);
        FetchCreateWrites(src, s, links[0]);
        BuildCovers(src, saved, step.store, links[1..]);
        BuildWrites(src, saved, step.store, links[1..]);
        var b := Build(src, saved, s, links);
        assert b.store == rest.store;
        assert b.reports == Failed(step.result, links[0]) + rest.reports;
        if step.result.Err? {
          assert Urls(b.reports) == [links[0]] + Urls(rest.reports);
        } else {
          assert Urls(b.reports) == Urls(rest.reports);
        }
      }
    }
  }

  /**
    Each report names a link missing from the snapshot, and the reports come
    in listing order, at most one per fetch.
  */
  lemma {:induction false} BuildReports(src: Source, saved: set<Url>, s: Store, links: seq<Url>)
    ensures Subsequence(Urls(Build(src, saved, s, links).reports), Unsaved(saved, links))
    decreases |links|
  {
    if links != [] {
      var later := Unsaved(saved, links[1..]);
      if links[0] in saved {
        BuildReports(src, saved, s, links[1..]);
        assert Unsaved(saved, links) == later;
      } else {
        var step := FetchCreate(src, s, links[0]);
        var rest := Build(src, saved, step.store, links[1..]);
        var failed := Failed(step.result, links[0]);
        BuildReports(src, saved, step.store, links[1..]);
        assert Unsaved(saved, links) == [links[0]] + later;
        assert Build(src, saved, s, links).reports == failed + rest.reports;
        UrlsAppend(failed, rest.reports);
        if step.result.Err? {
          assert Urls(failed) == [links[0]];
          SubsequenceKeep(links[0], Urls(rest.reports), later);
        } else {
          assert Urls(failed) + Urls(rest.reports) == Urls(rest.reports);
          SubsequenceSkip(Urls(rest.reports), links[0], later);
        }
      }
    }
  }

  /** No link is listed twice. */
  predicate Distinct(links: seq<Url>) {
    forall i, j :: 0 <= i < j < |links| ==> links[i] != links[j]
  }

  lemma DistinctTail(links: seq<Url>)
    requires links != [] && Distinct(links)
    ensures Distinct(links[1..]) && links[0] !in links[1..]
  {
    forall k | 0 <= k < |links[1..]|
      ensures links[1..][k] != links[0]
    {
      assert links[1..][k] == links[k + 1];
    }
  }

  /** The loop keeps every stored anime and adds only listed links. */
  lemma {:induction false} BuildKeys(src: Source, saved: set<Url>, s: Store, links: seq<Url>)
    ensures var b := Build(src, saved, s, links);
            && s.animes.Keys <= b.store.animes.Keys
            && (forall a :: a in b.store.animes ==> a in s.animes || a in links)
    decreases |links|
  {
    if links != [] {
      if links[0] in saved {
        BuildKeys(src, saved, s, links[1..]);
      } else {
        var step := FetchCreate(src, s, links[0]);
        FetchCreateKeys(src, s, links[0]);
        BuildKeys(src, saved, step.store, links[1..]);
      }
    }
  }

  /**
    For a listing without repeats whose unsaved links are not stored yet, an
    error line names an unsaved link exactly when its anime is not stored
    afterwards: the failing links are reported, and every other one persists.
  */
  lemma {:induction false} BuildReportsExactly(src: Source, saved: set<Url>, s: Store, links: seq<Url>)
    requires Distinct(links)
    requires forall u :: u in links && u !in saved ==> u !in s.animes
    ensures var b := Build(src, saved, s, links);
            forall i :: 0 <= i < |links| && links[i] !in saved ==> (links[i] in Urls(b.reports) <==> links[i] !in b.store.animes)
    decreases |links|
  {
    if links != [] {
      DistinctTail(links);
      var b := Build(src, saved, s, links);
      if links[0] in saved {
        BuildReportsExactly(src, saved, s, links[1..]);
        forall i | 0 <= i < |links| && links[i] !in saved
          ensures links[i] in Urls(b.reports) <==> links[i] !in b.store.animes
        {
          assert links[i] == links[1..][i - 1];
        }
      } else {
        var step := FetchCreate(src, s, links[0]);
        FetchCreateKeys(src, s, links[0]);
        var rest := Build(src, saved, step.store, links[1..]);
        BuildReportsExactly(src, saved, step.store, links[1..]);
        BuildKeys(src, saved, step.store, links[1..]);
        BuildReports(src, saved, step.store, links[1..]);
        SubsequenceBound(Urls(rest.reports), Unsaved(saved, links[1..]));
        var failed := Failed(step.result, links[0]);
        assert b.store == rest.store && b.reports == failed + rest.reports;
        UrlsAppend(failed, rest.reports);
        assert Urls(failed) == if step.result.Err? then [links[0]] else [];
        forall i | 0 <= i < |links| && links[i] !in saved
          ensures links[i] in Urls(b.reports) <==> links[i] !in b.store.animes
        {
          if i > 0 {
            assert links[i] == links[1..][i - 1];
          }
        }
      }
    }
  }

  /**
    `create_directory` on a listing without repeats: a listed anime that was
    not stored is reported exactly when it is not stored afterwards.
  */
  lemma DirectoryReportsExactly(src: Source, s: Store)
    requires Distinct(src.listing)
    ensures var b := Directory(src, s);
            forall u :: u in src.listing && u !in s.animes ==> (u in Urls(b.reports) <==> u !in b.store.animes)
  {
    BuildReportsExactly(src, s.animes.Keys, s, src.listing);
  }

  lemma {:induction false} UrlsAppend(a: seq<Report>, b: seq<Report>)
    ensures Urls(a + b) == Urls(a) + Urls(b)
  {
    assert |Urls(a + b)| == |Urls(a) + Urls(b)|;
    forall i | 0 <= i < |a + b|
      ensures Urls(a + b)[i] == (Urls(a) + Urls(b))[i]
    {
      if i >= |a| {
        assert (a + b)[i] == b[i - |a|];
      }
    }
  }

  lemma SubsequenceKeep(x: Url, a: seq<Url>, b: seq<Url>)
    requires Subsequence(a, b)
    ensures Subsequence([x] + a, [x] + b)
  {
    assert ([x] + a)[1..] == a && ([x] + b)[1..] == b;
  }

  lemma SubsequenceSkip(a: seq<Url>, x: Url, b: seq<Url>)
    requires Subsequence(a, b)
    ensures Subsequence(a, [x] + b)
  {
    assert ([x] + b)[1..] == b;
  }

  /** The page's absence or an integrity error, for the link the report names. */
  predicate CreateFailure(r: Report) {
    r.error == NotFound(r.url) || r.error == Integrity(r.url)
  }

  /** Each report is the page's absence or an integrity error, for the link it names. */
  lemma {:induction false} BuildReportKinds(src: Source, saved: set<Url>, s: Store, links: seq<Url>)
    ensures forall r :: r in Build(src, saved, s, links).reports ==> CreateFailure(r)
    decreases |links|
  {
    if links != [] {
      if links[0] in saved {
        BuildReportKinds(src, saved, s, links[1..]);
      } else {
        var step := FetchCreate(src, s, links[0]);
        var rest := Build(src, saved, step.store, links[1..]);
        var failed := Failed(step.result, links[0]);
        BuildReportKinds(src, saved, step.store, links[1..]);
        FetchCreateError(src, s, links[0]);
        assert Build(src, saved, s, links).reports == failed + rest.reports;
        assert forall r :: r in failed ==> CreateFailure(r);
      }
    }
  }

  /**
    The snapshot is taken once (line 31): a link listed twice and missing
    from it is fetched twice, and the second creation is reported as an
    integrity error although the first one stored it.
  */
  lemma RepeatedLink(src: Source, s: Store, url: Url)
    requires Valid(s) && url !in s.animes && url in src.pages
    requires EpisodeUrls(src.pages[url].episodes) !! s.episodes.Keys
    ensures var b := Build(src, s.animes.Keys, s, [url, url]);
            && b.calls == [AnimePage(url), AnimePage(url)]
            && b.reports == [Report(Integrity(url), url)]
            && url in b.store.animes && Mirrors(b.store.animes[url], src.pages[url])
  {
    var page := Scraped(url, src.pages[url]);
    var saved := s.animes.Keys;
    CreateFacts(s, page);
    var s1 := Create(s, page).value;
    var first := FetchCreate(src, s, url);
    assert first.result.Ok? && first.store == s1 && first.calls == [AnimePage(url)];
    var second := FetchCreate(src, s1, url);
    assert second.result == Err(Integrity(url)) && second.store == s1 && second.calls == [AnimePage(url)];
    assert [url, url][1..] == [url];
    assert [url][1..] == [];
    assert Build(src, saved, s1, []) == Batch(s1, [], []);
    var tail := Build(src, saved, s1, [url]);
    assert tail.store == s1 && tail.reports == [Report(Integrity(url), url)] && tail.calls == [AnimePage(url)];
  }

  /** Lines 28-39. */
  method CreateDirectory(db: Db, gw: Gateway) returns (reports: seq<Report>)
    modifies db, gw
    ensures var b := Directory(gw.source, old(db.Value()));
            && reports == b.reports && db.Value() == b.store && gw.log == old(gw.log) + b.calls
  {
    var links := gw.FetchListing();
    var saved := db.animes.Keys;
    ghost var whole := Build(gw.source, saved, db.Value(), links);
    ghost var mark := gw.log;
    ghost var done: seq<Call> := [];
    reports := [];
    assert links[0..] == links;
    for i := 0 to |links|
      invariant gw.log == mark + done
      invariant var rest := Build(gw.source, saved, db.Value(), links[i..]);
                whole == Batch(rest.store, reports + rest.reports, done + rest.calls)
    {
      var url := links[i];
      assert links[i..][1..] == links[i + 1..];
      if url !in saved {
        ghost var step := FetchCreate(gw.source, db.Value(), url);
        var err := FetchAndCreate(db, gw, url);
        ghost var next := Build(gw.source, saved, step.store, links[i + 1..]);
        var mine := if err.Some? then [Report(err.value, url)] else [];
        assert mine == Failed(step.result, url);
        SeqAssociate(mark, done, step.calls);
        SeqAssociate(done, step.calls, next.calls);
        SeqAssociate(reports, mine, next.reports);
        reports := reports + mine;
        done := done + step.calls;
      }
    }
    assert links[|links|..] == [];
    assert reports + [] == reports && done + [] == done;
    SeqAssociate(old(gw.log), [Listing], done);
  }

  // ---------------------------------------------------------------------------
  // load_directory

  /** A JSON value as `json.loads` returns it; an object keeps its members in file order. */
  datatype Json =
    | Null
    | Boolean(b: bool)
    | Num(n: int)
    | Str(s: string)
    | Array(items: seq<Json>)
    | Object(members: seq<Member>)

  datatype Member = Member(key: string, value: Json)

  /** What opening, reading and parsing the directory file give. */
  datatype DirectoryFile = Missing | Malformed(detail: string) | Present(doc: Json)

  /** What `AnimeScrape.load_from_dict(a)` yields: a record, a falsy value, or an exception. */
  datatype Loaded = Parsed(rec: Scraped) | Falsy | Raised(detail: string)

  /** One line printed by `load_directory`: a save error after the loop, or the exception caught at line 152. */
  datatype Message = SaveError(report: Report) | Printed(detail: string)

  /** The effect of a load: the store after it and the lines printed. */
  datatype Loading = Loading(store: Store, messages: seq<Message>)

  /** `d.values()` when `d` is a dict, in order; nothing otherwise (line 138). */
  function Entries(doc: Json): (r: seq<Json>)
    ensures doc.Object? ==> |r| == |doc.members| && forall i :: 0 <= i < |r| ==> r[i] == doc.members[i].value
    ensures !doc.Object? ==> r == []
  {
    if doc.Object? then Values(doc.members) else []
  }

  function Values(members: seq<Member>): (r: seq<Json>)
    ensures |r| == |members| && forall i :: 0 <= i < |r| ==> r[i] == members[i].value
  {
    if members == [] then [] else [members[0].value] + Values(members[1..])
  }

  /**
    Lines 139-142: each value is parsed in order and a falsy parse is
    skipped; the first exception abandons the collection.
  */
  function Collect(load: Json -> Loaded, values: seq<Json>): (r: Result<seq<Scraped>, string>)
    ensures r.Ok? ==> |r.value| <= |values|
    decreases |values|
  {
    if values == [] then Ok([])
    else
      match load(values[0])
      case Raised(d) => Err(d)
      case Falsy => Collect(load, values[1..])
      case Parsed(rec) =>
        match Collect(load, values[1..])
        case Ok(rest) => Ok([rec] + rest)
        case Err(d) => Err(d)
  }

  /**
    Collecting fails exactly when some value's parse raises, and then with
    that exception; otherwise it keeps every record parsed and nothing else,
    no more than one per value.
  */
  lemma {:induction false} CollectFacts(load: Json -> Loaded, values: seq<Json>)
    ensures var r := Collect(load, values);
            && (r.Ok? <==> forall i :: 0 <= i < |values| ==> !load(values[i]).Raised?)
            && (r.Err? ==> exists i :: 0 <= i < |values| && load(values[i]) == Raised(r.error))
            && (r.Ok? ==> |r.value| <= |values|)
            && (r.Ok? ==> forall x :: x in r.value ==> exists i :: 0 <= i < |values| && load(values[i]) == Parsed(x))
            && (r.Ok? ==> forall i :: 0 <= i < |values| && load(values[i]).Parsed? ==> load(values[i]).rec in r.value)
    decreases |values|
  {
    if values != [] {
      CollectFacts(load, values[1..]);
      var r := Collect(load, values);
      var rest := Collect(load, values[1..]);
      if r.Err? && !load(values[0]).Raised? {
        var i :| 0 <= i < |values[1..]| && load(values[1..][i]) == Raised(rest.error);
        assert load(values[i + 1]) == Raised(r.error);
      }
      if r.Ok? {
        forall x | x in r.value
          ensures exists i :: 0 <= i < |values| && load(values[i]) == Parsed(x)
        {
          if load(values[0]) != Parsed(x) {
            assert x in rest.value;
            var i :| 0 <= i < |values[1..]| && load(values[1..][i]) == Parsed(x);
            assert load(values[i + 1]) == Parsed(x);
          }
        }
        forall i | 0 <= i < |values|
          ensures !load(values[i]).Raised?
          ensures load(values[i]).Parsed? ==> load(values[i]).rec in r.value
        {
          if i > 0 {
            assert values[i] == values[1..][i - 1];
          }
        }
      }
    }
  }

  /** The positions from `from` on whose value parses to a record, in increasing order. */
  function ParsedPositions(load: Json -> Loaded, values: seq<Json>, from: nat): (r: seq<nat>)
    requires from <= |values|
    ensures forall k :: 0 <= k < |r| ==> from <= r[k] < |values| && load(values[r[k]]).Parsed?
    ensures forall k, l :: 0 <= k < l < |r| ==> r[k] < r[l]
    ensures forall i :: from <= i < |values| && load(values[i]).Parsed? ==> i in r
    decreases |values| - from
  {
    if from == |values| then []
    else if load(values[from]).Parsed? then [from] + ParsedPositions(load, values, from + 1)
    else ParsedPositions(load, values, from + 1)
  }

  /**
    The records collected are those of the parsed values, one per parsed
    value and in file order: the k-th record is the parse of the k-th value
    that parses.
  */
  lemma CollectKeepsOrder(load: Json -> Loaded, values: seq<Json>)
    ensures var r := Collect(load, values);
            var p := ParsedPositions(load, values, 0);
            r.Ok? ==> |r.value| == |p| && forall k :: 0 <= k < |p| ==> load(values[p[k]]) == Parsed(r.value[k])
  {
    assert values[0..] == values;
    CollectFrom(load, values, 0);
  }

  lemma {:induction false} CollectFrom(load: Json -> Loaded, values: seq<Json>, from: nat)
    requires from <= |values|
    ensures var r := Collect(load, values[from..]);
            var p := ParsedPositions(load, values, from);
            r.Ok? ==> |r.value| == |p| && forall k :: 0 <= k < |p| ==> load(values[p[k]]) == Parsed(r.value[k])
    decreases |values| - from
  {
    if from < |values| {
      CollectFrom(load, values, from + 1);
      assert values[from..][1..] == values[from + 1..];
      assert values[from..][0] == values[from];
    }
  }

  /** The effect of the save loop: the store after it and the error strings collected. */
  datatype Restored = Restored(store: Store, reports: seq<Report>)

  /** Lines 145-149: `create_or_update` on each record in order; a failure is recorded and the loop goes on. */
  function Restore(s: Store, data: seq<Scraped>): (r: Restored)
    ensures |r.reports| <= |data|
    decreases |data|
  {
    if data == [] then Restored(s, [])
    else
      var step := CreateOrUpdate(s, data[0]);
      var next := if step.Ok? then step.value else s;
      var rest := Restore(next, data[1..]);
      Restored(rest.store, Failed(step, data[0].url) + rest.reports)
  }

  /** The URLs of the records, in order. */
  function RecordUrls(data: seq<Scraped>): (r: seq<Url>)
    ensures |r| == |data| && forall i :: 0 <= i < |r| ==> r[i] == data[i].url
  {
    if data == [] then [] else [data[0].url] + RecordUrls(data[1..])
  }

  /**
    The save loop only adds and refreshes: the database stays valid, the
    animes it stores are the records' URLs, and every anime that no record
    names is left as it was.
  */
  lemma {:induction false} RestoreWrites(s: Store, data: seq<Scraped>)
    requires Valid(s)
    ensures var r := Restore(s, data);
            && Valid(r.store) && Extends(s, r.store)
            && (forall a :: a in r.store.animes ==> a in s.animes || a in RecordUrls(data))
            && (forall a :: a in s.animes && a !in RecordUrls(data) ==> r.store.animes[a] == s.animes[a])
    decreases |data|
  {
    if data != [] {
      var step := CreateOrUpdate(s, data[0]);
      CreateOrUpdateFacts(s, data[0]);
      var next := if step.Ok? then step.value else s;
      RestoreWrites(next, data[1..]);
      ExtendsTransitive(s, next, Restore(next, data[1..]).store);
      assert RecordUrls(data) == [data[0].url] + RecordUrls(data[1..]);
    }
  }

  /** The error lines name records in record order, at most one line per record. */
  lemma {:induction false} RestoreOrder(s: Store, data: seq<Scraped>)
    ensures Subsequence(Urls(Restore(s, data).reports), RecordUrls(data))
    decreases |data|
  {
    if data != [] {
      var step := CreateOrUpdate(s, data[0]);
      var next := if step.Ok? then step.value else s;
      var rest := Restore(next, data[1..]);
      var mine := Failed(step, data[0].url);
      var later := RecordUrls(data[1..]);
      RestoreOrder(next, data[1..]);
      assert Restore(s, data).reports == mine + rest.reports;
      assert RecordUrls(data) == [data[0].url] + later;
      UrlsAppend(mine, rest.reports);
      if step.Err? {
        assert Urls(mine) == [data[0].url];
        SubsequenceKeep(data[0].url, Urls(rest.reports), later);
      } else {
        assert Urls(mine) + Urls(rest.reports) == Urls(rest.reports);
        SubsequenceSkip(Urls(rest.reports), data[0].url, later);
      }
    }
  }

  /** No two records name the same anime. */
  predicate DistinctUrls(data: seq<Scraped>) {
    forall i, j :: 0 <= i < j < |data| ==> data[i].url != data[j].url
  }

  /**
    For records naming distinct animes, an error line names a record exactly
    when that record's anime is not stored afterwards: the failing records are
    reported, and every other record is persisted.
  */
  lemma {:induction false} RestoreReports(s: Store, data: seq<Scraped>)
    requires DistinctUrls(data)
    ensures var r := Restore(s, data);
            forall i :: 0 <= i < |data| ==> (data[i].url in Urls(r.reports) <==> data[i].url !in r.store.animes)
    decreases |data|
  {
    if data != [] {
      var step := CreateOrUpdate(s, data[0]);
      CreateOrUpdateKeys(s, data[0]);
      var next := if step.Ok? then step.value else s;
      var rest := Restore(next, data[1..]);
      DistinctHead(data);
      RestoreReports(next, data[1..]);
      RestoreKeys(next, data[1..]);
      RestoreOrder(next, data[1..]);
      SubsequenceBound(Urls(rest.reports), RecordUrls(data[1..]));
      var r := Restore(s, data);
      var mine := Failed(step, data[0].url);
      assert r.store == rest.store && r.reports == mine + rest.reports;
      UrlsAppend(mine, rest.reports);
      assert Urls(mine) == if step.Err? then [data[0].url] else [];
      forall i | 0 <= i < |data|
        ensures data[i].url in Urls(r.reports) <==> data[i].url !in r.store.animes
      {
        if i > 0 {
          assert data[i] == data[1..][i - 1];
        }
      }
    }
  }

  /** The save loop keeps every stored anime and adds only records' URLs. */
  lemma {:induction false} RestoreKeys(s: Store, data: seq<Scraped>)
    ensures var r := Restore(s, data);
            && s.animes.Keys <= r.store.animes.Keys
            && (forall a :: a in r.store.animes ==> a in s.animes || a in RecordUrls(data))
    decreases |data|
  {
    if data != [] {
      var step := CreateOrUpdate(s, data[0]);
      CreateOrUpdateKeys(s, data[0]);
      var next := if step.Ok? then step.value else s;
      RestoreKeys(next, data[1..]);
      assert RecordUrls(data) == [data[0].url] + RecordUrls(data[1..]);
    }
  }

  lemma DistinctHead(data: seq<Scraped>)
    requires data != [] && DistinctUrls(data)
    ensures DistinctUrls(data[1..]) && data[0].url !in RecordUrls(data[1..])
  {
    forall k | 0 <= k < |data[1..]|
      ensures RecordUrls(data[1..])[k] != data[0].url
    {
      assert data[1..][k] == data[k + 1];
    }
  }

  /** Only a record that had to be created can fail, and then on an integrity error. */
  lemma {:induction false} RestoreFailures(s: Store, data: seq<Scraped>)
    ensures var r := Restore(s, data);
            forall k :: 0 <= k < |r.reports| ==>
              r.reports[k].error == Integrity(r.reports[k].url) && r.reports[k].url !in s.animes
    decreases |data|
  {
    if data != [] {
      var step := CreateOrUpdate(s, data[0]);
      CreateOrUpdateKeys(s, data[0]);
      var next := if step.Ok? then step.value else s;
      var rest := Restore(next, data[1..]);
      RestoreFailures(next, data[1..]);
      assert var r := Restore(next, data[1..]);
             forall k :: 0 <= k < |r.reports| ==> r.reports[k].error == Integrity(r.reports[k].url) && r.reports[k].url !in next.animes;
      var r := Restore(s, data);
      var mine := Failed(step, data[0].url);
      assert r.reports == mine + rest.reports;
      assert s.animes.Keys <= next.animes.Keys;
      forall k | 0 <= k < |r.reports|
        ensures r.reports[k].error == Integrity(r.reports[k].url) && r.reports[k].url !in s.animes
      {
        if k >= |mine| {
          assert r.reports[k] == rest.reports[k - |mine|];
        } else {
          assert step.Err? && step.error == Integrity(data[0].url);
          assert r.reports[k] == Report(step.error, data[0].url);
        }
      }
    }
  }

  /** A failure does not stop the records after it: each record ends up stored or reported. */
  lemma {:induction false} RestoreCovers(s: Store, data: seq<Scraped>)
    ensures var r := Restore(s, data);
            forall i :: 0 <= i < |data| ==> data[i].url in r.store.animes || data[i].url in Urls(r.reports)
    decreases |data|
  {
    if data != [] {
      var step := CreateOrUpdate(s, data[0]);
      CreateOrUpdateKeys(s, data[0]);
      var next := if step.Ok? then step.value else s;
      var rest := Restore(next, data[1..]);
      RestoreCovers(next, data[1..]);
      RestoreKeys(next, data[1..]);
      var r := Restore(s, data);
      var mine := Failed(step, data[0].url);
      assert r.store == rest.store && r.reports == mine + rest.reports;
      UrlsAppend(mine, rest.reports);
      assert Urls(mine) == if step.Err? then [data[0].url] else [];
      forall i | 0 <= i < |data|
        ensures data[i].url in r.store.animes || data[i].url in Urls(r.reports)
      {
        if i > 0 {
          assert data[i] == data[1..][i - 1];
        }
      }
    }
  }

  /** Restoring records that are all stored already refreshes them and reports nothing. */
  lemma {:induction false} RestoreStored(s: Store, data: seq<Scraped>)
    requires Valid(s) && forall i :: 0 <= i < |data| ==> data[i].url in s.animes
    ensures Restore(s, data).reports == [] && Restore(s, data).store.animes.Keys == s.animes.Keys
    decreases |data|
  {
    if data != [] {
      CreateOrUpdateFacts(s, data[0]);
      var next := CreateOrUpdate(s, data[0]).value;
      RestoreStored(next, data[1..]);
    }
  }

  /**
    `load_directory(json_path)`, lines 133-154: a missing file does nothing;
    an exception while reading or collecting is printed and writes nothing;
    otherwise the save loop runs and its errors are printed after it.
  */
  function LoadDirectory(load: Json -> Loaded, file: DirectoryFile, s: Store): (r: Loading)
    ensures !file.Present? ==> r.store == s && |r.messages| <= 1
  {
    match file
    case Missing => Loading(s, [])
    case Malformed(d) => Loading(s, [Printed(d)])
    case Present(doc) =>
      match Collect(load, Entries(doc))
      case Err(d) => Loading(s, [Printed(d)])
      case Ok(data) =>
        var r := Restore(s, data);
        Loading(r.store, SaveErrors(r.reports))
  }

  function SaveErrors(reports: seq<Report>): (r: seq<Message>)
    ensures |r| == |reports| && forall i :: 0 <= i < |r| ==> r[i] == SaveError(reports[i])
  {
    if reports == [] then [] else [SaveError(reports[0])] + SaveErrors(reports[1..])
  }

  /** A file that is missing, or holds anything but a JSON object, leaves the store as it was and prints nothing. */
  lemma LoadNothing(load: Json -> Loaded, file: DirectoryFile, s: Store)
    requires file.Missing? || (file.Present? && !file.doc.Object?)
    ensures LoadDirectory(load, file, s) == Loading(s, [])
  {
  }

  /**
    Every load keeps the database valid and deletes or renumbers nothing.
    When an exception stops it, that exception is the only line printed and
    nothing was written; every other line printed is an integrity error
    naming the record that failed.
  */
  lemma LoadOutcome(load: Json -> Loaded, file: DirectoryFile, s: Store)
    requires Valid(s)
    ensures var r := LoadDirectory(load, file, s);
            && Valid(r.store) && Extends(s, r.store)
            && (forall m :: m in r.messages && m.Printed? ==> r.messages == [m] && r.store == s)
            && (forall m :: m in r.messages && m.SaveError? ==> m.report.error == Integrity(m.report.url))
  {
    if file.Present? {
      var c := Collect(load, Entries(file.doc));
      if c.Ok? {
        RestoreWrites(s, c.value);
        RestoreFailures(s, c.value);
      }
    }
  }

  /** Lines 139-142. */
  method CollectEntries(load: Json -> Loaded, values: seq<Json>) returns (r: Result<seq<Scraped>, string>)
    ensures r == Collect(load, values)
  {
    var data: seq<Scraped> := [];
    assert values[0..] == values;
    if Collect(load, values).Ok? {
      assert [] + Collect(load, values).value == Collect(load, values).value;
    }
    for i := 0 to |values|
      invariant Collect(load, values) == match Collect(load, values[i..])
                                         case Ok(rest) => Ok(data + rest)
                                         case Err(d) => Err(d)
    {
      assert values[i..][1..] == values[i + 1..];
      match load(values[i])
      case Raised(d) =>
        return Err(d);
      case Falsy =>
      case Parsed(rec) =>
        if Collect(load, values[i + 1..]).Ok? {
          SeqAssociate(data, [rec], Collect(load, values[i + 1..]).value);
        }
        data := data + [rec];
    }
    assert values[|values|..] == [];
    assert data + [] == data;
    return Ok(data);
  }

  /**
    When no entry raises, every entry of the file that parses reaches
    `create_or_update`: its anime is stored afterwards, or an integrity error
    naming it is printed.
  */
  lemma LoadReachesEvery(load: Json -> Loaded, file: DirectoryFile, s: Store)
    requires file.Present?
    requires forall i :: 0 <= i < |Entries(file.doc)| ==> !load(Entries(file.doc)[i]).Raised?
    ensures var r := LoadDirectory(load, file, s);
            var values := Entries(file.doc);
            forall i :: 0 <= i < |values| && load(values[i]).Parsed? ==>
              var url := load(values[i]).rec.url;
              url in r.store.animes || SaveError(Report(Integrity(url), url)) in r.messages
  {
    var values := Entries(file.doc);
    CollectFacts(load, values);
    var data := Collect(load, values).value;
    var restored := Restore(s, data);
    RestoreCovers(s, data);
    RestoreFailures(s, data);
    var r := LoadDirectory(load, file, s);
    assert r.store == restored.store && r.messages == SaveErrors(restored.reports);
    forall i | 0 <= i < |values| && load(values[i]).Parsed?
      ensures var url := load(values[i]).rec.url;
              url in r.store.animes || SaveError(Report(Integrity(url), url)) in r.messages
    {
      var url := load(values[i]).rec.url;
      var j :| 0 <= j < |data| && data[j] == load(values[i]).rec;
      if url !in r.store.animes {
        assert url in Urls(restored.reports);
        var k :| 0 <= k < |restored.reports| && Urls(restored.reports)[k] == url;
        assert r.messages[k] == SaveError(Report(Integrity(url), url));
      }
    }
  }

  /** Lines 143-149. */
  method RestoreEntries(db: Db, data: seq<Scraped>) returns (reports: seq<Report>)
    modifies db
    ensures var r := Restore(old(db.Value()), data);
            reports == r.reports && db.Value() == r.store
  {
    ghost var whole := Restore(db.Value(), data);
    reports := [];
    assert data[0..] == data;
    for i := 0 to |data|
      invariant var rest := Restore(db.Value(), data[i..]);
                whole == Restored(rest.store, reports + rest.reports)
    {
      assert data[i..][1..] == data[i + 1..];
      ghost var step := CreateOrUpdate(db.Value(), data[i]);
      var err := db.CreateOrUpdateAnime(data[i]);
      ghost var next := Restore(db.Value(), data[i + 1..]);
      var mine := if err.Some? then [Report(err.value, data[i].url)] else [];
      assert mine == Failed(step, data[i].url);
      SeqAssociate(reports, mine, next.reports);
      reports := reports + mine;
    }
    assert data[|data|..] == [];
    assert reports + [] == reports;
  }

  /** Lines 132-154. */
  method LoadDirectoryFile(db: Db, load: Json -> Loaded, file: DirectoryFile) returns (messages: seq<Message>)
    modifies db
    ensures var r := LoadDirectory(load, file, old(db.Value()));
            messages == r.messages && db.Value() == r.store
  {
    match file
    case Missing =>
      return [];
    case Malformed(d) =>
      return [Printed(d)];
    case Present(doc) =>
      var data := CollectEntries(load, Entries(doc));
      if data.Err? {
        return [Printed(data.error)];
      }
      var reports := RestoreEntries(db, data.value);
      messages := SaveErrorLines(reports);
  }

  /** Lines 151-152: one save-error line per failed record, in the order they failed. */
  method SaveErrorLines(reports: seq<Report>) returns (messages: seq<Message>)
    ensures messages == SaveErrors(reports)
  {
    messages := [];
    for k := 0 to |reports|
      invariant |messages| == k
      invariant forall i :: 0 <= i < k ==> messages[i] == SaveError(reports[i])
    {
      messages := messages + [SaveError(reports[k])];
    }
  }
}
