/**
 * What a successful run leaves in the store (Updater.java, performUpdate as
 * a whole and update around it): every article the server reported holds
 * the fields and the tags of its latest record, every other article keeps
 * its row and its joins, and the tag table gains every label the server
 * reported. In FULL mode the store then holds exactly the server's articles.
 */
module Mirror {
  import opened Entities
  import opened TagResolution
  import opened ArticleReconciliation
  import opened Sync

  /** The latest record of each article among `items`, a later one winning. */
  function Latest(items: seq<RemoteArticle>): (m: map<int, RemoteArticle>)
    ensures m.Keys == ArticleIds(items)
    ensures forall id :: id in m ==> m[id].id == id
  {
    if items == [] then map[]
    else
      ItemsSplit(items);
      Latest(items[..|items| - 1])[items[|items| - 1].id := items[|items| - 1]]
  }

  /**
   * `s` is `s0` with the articles of `items` brought up to date: each holds
   * the fields (all but the images flag, which depends on what was stored)
   * and exactly the tags of its latest record; every other article keeps its
   * row and its joins; the tag table gains the labels of every tag list.
   */
  ghost predicate Reflects(s0: Store, s: Store, items: seq<RemoteArticle>) {
    var latest := Latest(items);
    && (forall id :: id in latest ==>
          && id in s.articles
          && s.articles[id].(imagesDownloaded := false) == Upsert(None, latest[id])
          && TagsOf(s.joins, id) == TagIds(latest[id].tags))
    && (forall id :: id !in latest ==>
          && (id in s.articles <==> id in s0.articles)
          && (id in s0.articles ==> s.articles[id] == s0.articles[id])
          && TagsOf(s.joins, id) == TagsOf(s0.joins, id))
    && s.tags == s0.tags + LabelsOf(AllTags(items))
  }

  /** Every fetched page is free of repeated article ids. */
  predicate PagesDistinct(pages: seq<Fetch<Page>>) {
    forall k :: 0 <= k < |pages| && pages[k].Fetched? ==> DistinctArticleIds(pages[k].value.items)
  }

  /** In a list without repeated ids every record is its article's latest. */
  lemma {:induction false} LatestDistinct(items: seq<RemoteArticle>)
    requires DistinctArticleIds(items)
    ensures forall i :: 0 <= i < |items| ==> Latest(items)[items[i].id] == items[i]
  {
    if items != [] {
      var n := |items|;
      var init := items[..n - 1];
      ItemsSplit(items);
      LatestDistinct(init);
      forall i | 0 <= i < n ensures Latest(items)[items[i].id] == items[i] {
        if i < n - 1 {
          assert items[i] == init[i];
          assert items[i].id != items[n - 1].id by {
            assert init[i] in init;
          }
        }
      }
    }
  }

  /** The latest records of two runs of articles: the second run wins. */
  lemma {:induction false} LatestAppend(xs: seq<RemoteArticle>, ys: seq<RemoteArticle>)
    ensures Latest(xs + ys) == Latest(xs) + Latest(ys)
  {
    if ys == [] {
      assert xs + ys == xs;
    } else {
      var n := |ys|;
      var y := ys[n - 1];
      assert (xs + ys)[..|xs + ys| - 1] == xs + ys[..n - 1];
      assert (xs + ys)[|xs + ys| - 1] == y;
      LatestAppend(xs, ys[..n - 1]);
      UnionUpdate(Latest(xs), Latest(ys[..n - 1]), y.id, y);
    }
  }

  lemma {:induction false} AllTagsAppend(xs: seq<RemoteArticle>, ys: seq<RemoteArticle>)
    ensures AllTags(xs + ys) == AllTags(xs) + AllTags(ys)
  {
    if ys == [] {
      assert xs + ys == xs;
    } else {
      var n := |ys|;
      assert (xs + ys)[..|xs + ys| - 1] == xs + ys[..n - 1];
      assert (xs + ys)[|xs + ys| - 1] == ys[n - 1];
      AllTagsAppend(xs, ys[..n - 1]);
    }
  }

  /** Two runs without a shared article id, one after the other. */
  lemma DistinctSplit(xs: seq<RemoteArticle>, ys: seq<RemoteArticle>)
    requires DistinctArticleIds(xs + ys)
    ensures DistinctArticleIds(xs) && DistinctArticleIds(ys) && ArticleIds(xs) !! ArticleIds(ys)
  {
    var all := xs + ys;
    assert forall i :: 0 <= i < |xs| ==> all[i] == xs[i];
    assert forall j :: 0 <= j < |ys| ==> all[|xs| + j] == ys[j];
    forall a, b | a in xs && b in ys ensures a.id != b.id {
      var i :| 0 <= i < |xs| && xs[i] == a;
      var j :| 0 <= j < |ys| && ys[j] == b;
      assert all[i] == a && all[|xs| + j] == b;
    }
  }

  /** A page without repeated ids (lines 163-331) brings its articles up to date. */
  lemma PageReflects(s: Store, full: bool, items: seq<RemoteArticle>)
    requires StoreValid(s) && TagListsDistinct(items) && DistinctArticleIds(items)
    requires full ==> ArticleIds(items) !! s.articles.Keys
    ensures Reflects(s, Store(PageArticles(s, full, items), PageTags(s, full, items), PageJoins(s, full, items)), items)
  {
    var s1 := Store(PageArticles(s, full, items), PageTags(s, full, items), PageJoins(s, full, items));
    var latest := Latest(items);
    PageArticlesSpec(s, full, items);
    PageJoinsSpec(s, full, items);
    PageJoinsUntouched(s, full, items);
    PageTagsSpec(s, full, items);
    LatestDistinct(items);
    forall id | id in latest
      ensures && id in s1.articles
              && s1.articles[id].(imagesDownloaded := false) == Upsert(None, latest[id])
              && TagsOf(s1.joins, id) == TagIds(latest[id].tags)
    {
      var a :| a in items && a.id == id;
      var i :| 0 <= i < |items| && items[i] == a;
      UpsertOnlyFlagFromStored(Stored(s.articles, full, id), None, a);
    }
  }

  /** Bringing the store up to date with two runs of articles in a row is bringing it up to date with both. */
  lemma ReflectsChain(s0: Store, s1: Store, s2: Store, xs: seq<RemoteArticle>, ys: seq<RemoteArticle>)
    requires Reflects(s0, s1, xs) && Reflects(s1, s2, ys)
    ensures Reflects(s0, s2, xs + ys)
  {
    LatestAppend(xs, ys);
    var lx, ly := Latest(xs), Latest(ys);
    forall id | id in lx + ly
      ensures && id in s2.articles
              && s2.articles[id].(imagesDownloaded := false) == Upsert(None, (lx + ly)[id])
              && TagsOf(s2.joins, id) == TagIds((lx + ly)[id].tags)
    {
      if id !in ly {
        assert (lx + ly)[id] == lx[id];
      }
    }
    assert s2.tags == s0.tags + LabelsOf(AllTags(xs + ys)) by {
      AllTagsAppend(xs, ys);
      LabelsOfAppend(AllTags(xs), AllTags(ys));
      UnionAssoc(s0.tags, LabelsOf(AllTags(xs)), LabelsOf(AllTags(ys)));
    }
  }

  /** The articles of a store brought up to date: the old ones and the processed ones. */
  lemma ReflectsKeys(s0: Store, s: Store, items: seq<RemoteArticle>)
    requires Reflects(s0, s, items)
    ensures s.articles.Keys == s0.articles.Keys + ArticleIds(items)
  {
    forall id ensures id in s.articles <==> id in s0.articles || id in Latest(items) {
      if id in Latest(items) {
        assert id in s.articles;
      } else {
        assert id in s.articles <==> id in s0.articles;
      }
    }
  }

  lemma PagesTail(pages: seq<Fetch<Page>>)
    requires pages != [] && PagesWellFormed(pages) && PagesDistinct(pages)
    ensures PagesWellFormed(pages[1..]) && PagesDistinct(pages[1..])
    ensures pages[0].Fetched? ==>
              TagListsDistinct(pages[0].value.items) && DistinctArticleIds(pages[0].value.items)
              && AllItems(pages) == pages[0].value.items + AllItems(pages[1..])
  {
    forall k | 0 <= k < |pages| - 1 ensures pages[1..][k] == pages[k + 1] {
    }
  }

  /**
   * A successful page loop (lines 145-332) brings every article it processed
   * up to date with its latest record and leaves the others alone. In FULL
   * mode the articles must be new and distinct across the run, since
   * nothing is looked up.
   */
  lemma {:induction false} RunReflects(r: Run, full: bool, pages: seq<Fetch<Page>>)
    requires StoreValid(r.store) && PagesWellFormed(pages) && PagesDistinct(pages)
    requires full ==> DistinctArticleIds(AllItems(pages)) && ArticleIds(AllItems(pages)) !! r.store.articles.Keys
    ensures RunPages(r, full, pages).Some? ==> Reflects(r.store, RunPages(r, full, pages).value.store, AllItems(pages))
    decreases |pages|
  {
    if pages != [] && pages[0].Fetched? {
      var items, rest := pages[0].value.items, pages[1..];
      PagesTail(pages);
      if items == [] {
        assert AllItems(pages) == AllItems(rest);
        RunReflects(r, full, rest);
      } else {
        var next := PageRun(r, full, items);
        ArticleIdsAppend(items, AllItems(rest));
        if full {
          DistinctSplit(items, AllItems(rest));
        }
        PageReflects(r.store, full, items);
        PageRunValid(r.store, full, items);
        ReflectsKeys(r.store, next.store, items);
        RunReflects(next, full, rest);
        if RunPages(r, full, pages).Some? {
          ReflectsChain(r.store, next.store, RunPages(r, full, pages).value.store, items, AllItems(rest));
        }
      }
    }
  }

  /**
   * A successful FULL page loop over an empty article table (lines 145-332)
   * leaves exactly the processed articles, each with the row and the tags of
   * its record and no downloaded images.
   */
  lemma FullRunMirror(r: Run, pages: seq<Fetch<Page>>)
    requires StoreValid(r.store) && r.store.articles == map[]
    requires PagesWellFormed(pages) && PagesDistinct(pages) && DistinctArticleIds(AllItems(pages))
    ensures var items := AllItems(pages);
            var latest := Latest(items);
            var res := RunPages(r, true, pages);
            res.Some? ==>
              && res.value.store.articles.Keys == ArticleIds(items)
              && (forall id :: id in latest ==>
                    && res.value.store.articles[id] == Upsert(None, latest[id])
                    && TagsOf(res.value.store.joins, id) == TagIds(latest[id].tags))
              && res.value.store.tags == r.store.tags + LabelsOf(AllTags(items))
  {
    RunReflects(r, true, pages);
    FullRunNoImages(r, pages);
    if RunPages(r, true, pages).Some? {
      ReflectsKeys(r.store, RunPages(r, true, pages).value.store, AllItems(pages));
    }
  }

  /**
   * What a successful update leaves in the store (lines 46-87). FAST brings
   * every processed article up to date with its latest record and leaves the
   * rest of the mirror alone. FULL leaves exactly the server's articles, each
   * with the row and the tags of its record and no downloaded images, and
   * the tag table holding the server's tag list and every reported label.
   */
  lemma UpdateRunMirror(s: Store, settings: Settings, server: Server, updateType: UpdateType)
    requires StoreValid(s)
    requires var pages := server.articles(ArticlesQuery(updateType != Fast, settings.latestUpdatedItemTimestamp));
             && PagesWellFormed(pages) && PagesDistinct(pages)
             && (updateType != Fast ==> DistinctArticleIds(AllItems(pages)))
    ensures var clean := updateType != Fast;
            var items := AllItems(server.articles(ArticlesQuery(clean, settings.latestUpdatedItemTimestamp)));
            var latest := Latest(items);
            var res := UpdateRun(s, settings, server, updateType);
            res.Some? ==>
              && (!clean ==> Reflects(s, res.value.store, items))
              && (clean ==>
                    && server.tags.Fetched?
                    && res.value.store.articles.Keys == ArticleIds(items)
                    && (forall id :: id in latest ==>
                          && res.value.store.articles[id] == Upsert(None, latest[id])
                          && TagsOf(res.value.store.joins, id) == TagIds(latest[id].tags))
                    && res.value.store.tags == LabelsOf(server.tags.value) + LabelsOf(AllTags(items)))
  {
    var clean := updateType != Fast;
    var latestStamp := settings.latestUpdatedItemTimestamp;
    var pages := server.articles(ArticlesQuery(clean, latestStamp));
    var s0 := if clean then Store(map[], map[], {}) else s;
    match PreloadTags(s0, clean, server)
    case None =>
    case Some(s1) =>
      var r := Run(s1, ChangeEvent(clean, map[]), if clean then 0 else latestStamp);
      assert UpdateRun(s, settings, server, updateType) == RunPages(r, clean, pages);
      if clean {
        var ts := server.tags.value;
        assert s1 == Store(map[], LabelsOf(ts), {}) by {
          assert map[] + LabelsOf(ts) == LabelsOf(ts);
        }
        FullRunMirror(r, pages);
      } else {
        RunReflects(r, clean, pages);
      }
  }
}
