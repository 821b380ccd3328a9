/**
 * The updater itself (Updater.java): the local store it rewrites, the
 * writing of one page's batches, the page loop of performUpdate and the
 * transaction of update.
 *
 * The store is keyed by remote ids: an article row by its article id, a tag
 * by its tag id and a join by the pair of both. The server is a parameter:
 * its tag list and, per article query, the sequence of page fetches its
 * page iterator yields.
 */
module Sync {
  import opened Entities
  import opened TagResolution
  import opened ArticleReconciliation

  /** The article, tag and join tables. */
  datatype Store = Store(articles: map<int, Article>, tags: map<int, Text>, joins: set<(int, int)>)

  /** Every row sits under its own id, and every join links a stored article and a stored tag. */
  predicate StoreValid(s: Store) {
    && (forall id :: id in s.articles ==> s.articles[id].articleId == id)
    && (forall p :: p in s.joins ==> p.0 in s.articles && p.1 in s.tags)
  }

  /** The joins a removal map names. */
  function RemovedPairs(m: map<int, set<int>>): set<(int, int)> {
    set a, t | a in m && t in m[a] :: (a, t)
  }

  /** The joins an insertion map names. */
  function AddedPairs(m: map<int, seq<int>>): set<(int, int)> {
    set a, t | a in m && t in m[a] :: (a, t)
  }

  /**
   * Writing one page's batches (lines 266-331): the updated and the inserted
   * rows, the relabelled and the new tags, then the join deletions and the
   * join insertions.
   */
  function FlushPage(s: Store, ps: PageState): Store {
    Store(
      s.articles + RowMap(ps.toUpdate) + RowMap(ps.toInsert),
      s.tags + Restrict(ps.index.labels, ps.index.toUpdate + Elems(ps.index.toInsert)),
      (s.joins - RemovedPairs(ps.joinsToRemove)) + AddedPairs(ps.joinsToInsert))
  }

  /** The joins of one article once a flush has removed and inserted its joins. */
  lemma TagsOfApply(joins: set<(int, int)>, rm: map<int, set<int>>, add: map<int, seq<int>>, id: int)
    ensures TagsOf((joins - RemovedPairs(rm)) + AddedPairs(add), id)
            == (TagsOf(joins, id) - RemovalOf(rm, id)) + Elems(AdditionOf(add, id))
  {
    var lhs := TagsOf((joins - RemovedPairs(rm)) + AddedPairs(add), id);
    forall t | t in lhs ensures t in (TagsOf(joins, id) - RemovalOf(rm, id)) + Elems(AdditionOf(add, id)) {
      assert (id, t) in (joins - RemovedPairs(rm)) + AddedPairs(add);
    }
    forall t | t in (TagsOf(joins, id) - RemovalOf(rm, id)) + Elems(AdditionOf(add, id)) ensures t in lhs {
      if t in Elems(AdditionOf(add, id)) {
        assert (id, t) in AddedPairs(add);
      } else {
        assert (id, t) in joins;
        assert (id, t) !in RemovedPairs(rm);
      }
    }
  }

  /** The batches a page starts with (lines 156-161); the tag map carries over from the tag table. */
  function PageStart(tags: map<int, Text>, e: ChangeEvent, latest: int): PageState {
    PageState([], [], TagIndex(tags, {}, []), map[], map[], e, latest)
  }

  /** The store, the change event and the watermark between pages. */
  datatype Run = Run(store: Store, event: ChangeEvent, watermark: int)

  /** The article table after a page: the page's rows written over the stored ones. */
  function PageArticles(s: Store, full: bool, items: seq<RemoteArticle>): map<int, Article> {
    s.articles + PageRowMap(s.articles, full, items)
  }

  /** The tag table after a page: the relabelled and the new tags of its index written. */
  function PageTags(s: Store, full: bool, items: seq<RemoteArticle>): map<int, Text> {
    var idx := IndexAfter(s.articles, s.joins, full, TagIndex(s.tags, {}, []), items);
    s.tags + Restrict(idx.labels, idx.toUpdate + Elems(idx.toInsert))
  }

  /** The join table after a page: its removals, then its insertions. */
  function PageJoins(s: Store, full: bool, items: seq<RemoteArticle>): set<(int, int)> {
    (s.joins - RemovedPairs(RemovalsAfter(s.articles, s.joins, full, map[], items)))
    + AddedPairs(AdditionsAfter(s.articles, s.joins, full, map[], items))
  }

  /** One non-empty page: its articles reconciled against the store, then the batches written. */
  function PageRun(r: Run, full: bool, items: seq<RemoteArticle>): Run {
    Run(Store(PageArticles(r.store, full, items), PageTags(r.store, full, items), PageJoins(r.store, full, items)),
        EventAfter(r.store.articles, full, r.event, items),
        MaxUpdated(r.watermark, items))
  }

  /**
   * The page loop (lines 149-332): a failed fetch aborts the run, an empty
   * page is skipped, any other page is reconciled and written.
   */
  function RunPages(r: Run, full: bool, pages: seq<Fetch<Page>>): (res: Option<Run>)
    decreases |pages|
  {
    if pages == [] then Some(r)
    else match pages[0]
      case Failed => None
      case Fetched(p) => RunPages(if p.items == [] then r else PageRun(r, full, p.items), full, pages[1..])
  }

  /** Java's `long` division, which truncates toward zero. */
  function JavaDiv(a: int, b: int): int
    requires b > 0
  {
    if a >= 0 then a / b else -((-a) / b)
  }

  /** The article query (lines 121-135). */
  function ArticlesQuery(full: bool, latest: int): Query {
    if full then Query(Created, Ascending, None, 30)
    else Query(Updated, Ascending, Some(JavaDiv(latest, 1000)), 30)
  }

  /**
   * FULL asks for everything by creation date; FAST asks by update date for
   * what changed since the watermark, converted from milliseconds to whole
   * seconds toward zero; both ask for 30 articles a page.
   */
  lemma ArticlesQuerySpec(full: bool, latest: int)
    ensures var q := ArticlesQuery(full, latest);
            && q.order == Ascending && q.perPage == 30
            && (full ==> q.sort == Created && q.since == None)
            && (!full ==> q.sort == Updated && q.since.Some?
                          && (latest >= 0 ==> 0 <= latest - q.since.value * 1000 < 1000)
                          && (latest < 0 ==> 0 <= q.since.value * 1000 - latest < 1000))
  {
  }

  /** The tag preload of FULL mode (lines 99-111): the server's tags are written to the tag table. */
  function PreloadTags(s: Store, full: bool, server: Server): Option<Store> {
    if !full then Some(s)
    else match server.tags
      case Failed => None
      case Fetched(ts) => Some(s.(tags := s.tags + LabelsOf(ts)))
  }

  /** performUpdate (lines 89-335): the preload, then the page loop from the watermark it starts with. */
  function PerformRun(s: Store, full: bool, server: Server, e: ChangeEvent, latest: int): Option<Run> {
    match PreloadTags(s, full, server)
    case None => None
    case Some(s1) => RunPages(Run(s1, e, if full then 0 else latest), full, server.articles(ArticlesQuery(full, latest)))
  }

  /** update (lines 46-87): a clean run starts from an emptied store and an event that invalidates everything. */
  function UpdateRun(s: Store, settings: Settings, server: Server, updateType: UpdateType): Option<Run> {
    var clean := updateType != Fast;
    PerformRun(if clean then Store(map[], map[], {}) else s, clean, server, ChangeEvent(clean, map[]),
               settings.latestUpdatedItemTimestamp)
  }

  /** Every fetched page carries tag lists without repeated ids. */
  predicate PagesWellFormed(pages: seq<Fetch<Page>>) {
    forall k :: 0 <= k < |pages| && pages[k].Fetched? ==> TagListsDistinct(pages[k].value.items)
  }

  /** The articles of the fetched pages, in order, up to the first failed fetch. */
  function AllItems(pages: seq<Fetch<Page>>): seq<RemoteArticle>
    decreases |pages|
  {
    if pages == [] then []
    else match pages[0]
      case Failed => []
      case Fetched(p) => p.items + AllItems(pages[1..])
  }

  lemma RemovedPairsMember(m: map<int, set<int>>, p: (int, int))
    ensures p in RemovedPairs(m) <==> p.0 in m && p.1 in m[p.0]
  {
    if p.0 in m && p.1 in m[p.0] {
      var a, t := p.0, p.1;
      assert a in m && t in m[a] && p == (a, t);
    }
  }

  lemma AddedPairsMember(m: map<int, seq<int>>, p: (int, int))
    ensures p in AddedPairs(m) <==> p.0 in m && p.1 in m[p.0]
  {
    if p.0 in m && p.1 in m[p.0] {
      var a, t := p.0, p.1;
      assert a in m && t in m[a] && p == (a, t);
    }
  }

  /** The join deletions of a flush (lines 298-314): each article's stored joins to the tags it lost. */
  method JoinsToDelete(joins: set<(int, int)>, m: map<int, set<int>>) returns (del: set<(int, int)>)
    ensures del == joins * RemovedPairs(m)
  {
    del := {};
    var todo := m.Keys;
    while todo != {}
      invariant todo <= m.Keys
      invariant forall p :: p in del <==> p in joins && p.0 in m && p.0 !in todo && p.1 in m[p.0]
      decreases todo
    {
      var a := PickOne(todo);
      del := del + set p | p in joins && p.0 == a && p.1 in m[a];
      todo := todo - {a};
    }
    forall p ensures p in del <==> p in joins * RemovedPairs(m) {
      RemovedPairsMember(m, p);
    }
  }

  /** The join insertions of a flush (lines 316-330): a join per article and per tag it gained. */
  method JoinsToCreate(m: map<int, seq<int>>) returns (ins: set<(int, int)>)
    ensures ins == AddedPairs(m)
  {
    ins := {};
    var todo := m.Keys;
    while todo != {}
      invariant todo <= m.Keys
      invariant forall p :: p in ins <==> p.0 in m && p.0 !in todo && p.1 in m[p.0]
      decreases todo
    {
      var a := PickOne(todo);
      var tagIds := m[a];
      ghost var before := ins;
      for j := 0 to |tagIds|
        invariant forall p :: p in ins <==> p in before || (p.0 == a && p.1 in tagIds[..j])
      {
        assert tagIds[..j + 1] == tagIds[..j] + [tagIds[j]];
        ins := ins + {(a, tagIds[j])};
      }
      assert tagIds[..|tagIds|] == tagIds;
      todo := todo - {a};
    }
    forall p ensures p in ins <==> p in AddedPairs(m) {
      AddedPairsMember(m, p);
    }
  }

  lemma RestrictTwice(m: map<int, Text>, labels: map<int, Text>, a: set<int>, b: set<int>)
    ensures m + Restrict(labels, a) + Restrict(labels, b) == m + Restrict(labels, a + b)
  {
  }

  /** The page loop body (lines 163-331) computes one page's run: its batches, then their flush. */
  lemma PageRunFlush(r: Run, full: bool, items: seq<RemoteArticle>)
    ensures var ps := ItemsStep(r.store.articles, r.store.joins, full, PageStart(r.store.tags, r.event, r.watermark), items);
            PageRun(r, full, items) == Run(FlushPage(r.store, ps), ps.event, ps.latest)
  {
    var s := r.store;
    ItemsStepParts(s.articles, s.joins, full, PageStart(s.tags, r.event, r.watermark), items);
    BatchesRows(s.articles, full, items);
    UnionAssoc(s.articles, RowMap(UpdatesAfter(s.articles, full, [], items)), RowMap(InsertsAfter(s.articles, full, [], items)));
  }

  /**
   * After a page the tag table holds every label the page reported, a later
   * one winning, and agrees with the in-memory tag map.
   */
  lemma PageTagsSpec(s: Store, full: bool, items: seq<RemoteArticle>)
    requires StoreValid(s) && TagListsDistinct(items)
    ensures PageTags(s, full, items) == s.tags + LabelsOf(AllTags(items))
    ensures PageTags(s, full, items) == IndexAfter(s.articles, s.joins, full, TagIndex(s.tags, {}, []), items).labels
  {
    var idx0 := TagIndex(s.tags, {}, []);
    SyncedStart(s.tags);
    PageIndex(s.tags, s.articles, s.joins, full, idx0, items);
    SyncedFlush(s.tags, IndexAfter(s.articles, s.joins, full, idx0, items));
  }

  /** Writing a page keeps every row under its id and every join between stored rows. */
  lemma PageRunValid(s: Store, full: bool, items: seq<RemoteArticle>)
    requires StoreValid(s) && TagListsDistinct(items)
    ensures StoreValid(Store(PageArticles(s, full, items), PageTags(s, full, items), PageJoins(s, full, items)))
  {
    var add := AdditionsAfter(s.articles, s.joins, full, map[], items);
    var arts, tags := PageArticles(s, full, items), PageTags(s, full, items);
    assert tags.Keys == s.tags.Keys + TagIds(AllTags(items)) by {
      PageTagsSpec(s, full, items);
    }
    assert ArticleIds(items) <= arts.Keys by {
      PageRowKeys(s.articles, full, items);
    }
    PageAdditionsKnown(s.articles, s.joins, full, items);
    forall p | p in PageJoins(s, full, items) ensures p.0 in arts && p.1 in tags {
      AddedPairsMember(add, p);
    }
  }

  /** An article the store does not hold has no joins. */
  lemma NoJoinsOfAbsent(s: Store, id: int)
    requires StoreValid(s) && id !in s.articles
    ensures TagsOf(s.joins, id) == {}
  {
    assert forall p :: p in s.joins ==> p.0 != id;
  }

  /** The joins one article of a page ends up with: exactly the remote tags. */
  lemma JoinsOfOne(s: Store, full: bool, a: RemoteArticle, rm: map<int, set<int>>, add: map<int, seq<int>>)
    requires StoreValid(s) && DistinctTagIds(a.tags) && (full ==> a.id !in s.articles)
    requires RemovalOf(rm, a.id) == DroppedTags(s.articles, s.joins, full, a)
    requires AdditionOf(add, a.id) == AddedTags(s.articles, s.joins, full, a)
    ensures TagsOf((s.joins - RemovedPairs(rm)) + AddedPairs(add), a.id) == TagIds(a.tags)
  {
    TagsOfApply(s.joins, rm, add, a.id);
    AddedTagsSpec(s.articles, s.joins, full, a);
    if !Existing(s.articles, full, a.id) {
      NoJoinsOfAbsent(s, a.id);
    }
  }

  /**
   * A page without repeated ids (lines 194-248 then 298-330): every article
   * of the page ends up joined to exactly the tags the server reported for it.
   */
  lemma PageJoinsSpec(s: Store, full: bool, items: seq<RemoteArticle>)
    requires StoreValid(s) && TagListsDistinct(items) && DistinctArticleIds(items)
    requires full ==> ArticleIds(items) !! s.articles.Keys
    ensures forall i :: 0 <= i < |items| ==> TagsOf(PageJoins(s, full, items), items[i].id) == TagIds(items[i].tags)
  {
    var rm := RemovalsAfter(s.articles, s.joins, full, map[], items);
    var add := AdditionsAfter(s.articles, s.joins, full, map[], items);
    PageRemovals(s.articles, s.joins, full, items);
    PageAdditions(s.articles, s.joins, full, items);
    forall i | 0 <= i < |items| ensures TagsOf(PageJoins(s, full, items), items[i].id) == TagIds(items[i].tags) {
      assert items[i] in items;
      JoinsOfOne(s, full, items[i], rm, add);
    }
  }

  /**
   * A page without repeated ids (lines 163-192 then 266-280): every article
   * of the page ends up with the row its upsert produced; other rows stay.
   */
  lemma PageArticlesSpec(s: Store, full: bool, items: seq<RemoteArticle>)
    requires DistinctArticleIds(items)
    ensures var arts := PageArticles(s, full, items);
            && (forall i :: 0 <= i < |items| ==>
                  items[i].id in arts && arts[items[i].id] == Upsert(Stored(s.articles, full, items[i].id), items[i]))
            && (forall id :: id !in ArticleIds(items) ==>
                  (id in arts <==> id in s.articles) && (id in s.articles ==> arts[id] == s.articles[id]))
  {
    PageRows(s.articles, full, items);
    PageRowKeys(s.articles, full, items);
  }

  /** A page leaves the joins of every other article alone. */
  lemma PageJoinsUntouched(s: Store, full: bool, items: seq<RemoteArticle>)
    ensures forall id :: id !in ArticleIds(items) ==> TagsOf(PageJoins(s, full, items), id) == TagsOf(s.joins, id)
  {
    var rm := RemovalsAfter(s.articles, s.joins, full, map[], items);
    var add := AdditionsAfter(s.articles, s.joins, full, map[], items);
    RemovalsKeys(s.articles, s.joins, full, items);
    AdditionsKeys(s.articles, s.joins, full, items);
    forall id | id !in ArticleIds(items) ensures TagsOf(PageJoins(s, full, items), id) == TagsOf(s.joins, id) {
      TagsOfApply(s.joins, rm, add, id);
    }
  }

  /** Two join tables that give every article the same tags are equal. */
  lemma JoinsByArticle(j1: set<(int, int)>, j2: set<(int, int)>)
    requires forall id :: TagsOf(j1, id) == TagsOf(j2, id)
    ensures j1 == j2
  {
    forall p | p in j1 ensures p in j2 {
      assert p.1 in TagsOf(j1, p.0);
    }
    forall p | p in j2 ensures p in j1 {
      assert p.1 in TagsOf(j2, p.0);
    }
  }

  /** Starting again from the watermark a page gave, the page gives it back. */
  lemma MaxUpdatedIdempotent(w: int, items: seq<RemoteArticle>)
    ensures MaxUpdated(MaxUpdated(w, items), items) == MaxUpdated(w, items)
  {
    var m := MaxUpdated(w, items);
    MaxUpdatedSpec(w, items);
    MaxUpdatedSpec(m, items);
  }

  /**
   * Syncing a FAST page again when nothing changed remotely writes nothing
   * new: the second run leaves every row, tag and join as the first left
   * it, and, from the watermark the first gave, gives that watermark back.
   */
  lemma PageIdempotent(s: Store, items: seq<RemoteArticle>, e: ChangeEvent, w: int, e': ChangeEvent, w': int)
    requires StoreValid(s) && TagListsDistinct(items) && DistinctArticleIds(items)
    ensures var r1 := PageRun(Run(s, e, w), false, items);
            && PageRun(Run(r1.store, e', w'), false, items).store == r1.store
            && PageRun(Run(r1.store, e', r1.watermark), false, items).watermark == r1.watermark
  {
    var s1 := PageRun(Run(s, e, w), false, items).store;
    RerunArticles(s, items);
    RerunTags(s, items);
    RerunJoins(s, items);
    assert PageRun(Run(s1, e', w'), false, items).store
        == Store(PageArticles(s1, false, items), PageTags(s1, false, items), PageJoins(s1, false, items));
    MaxUpdatedIdempotent(w, items);
  }

  /** The article table a FAST page leaves is left alone by the same page. */
  lemma RerunArticles(s: Store, items: seq<RemoteArticle>)
    requires DistinctArticleIds(items)
    ensures var s1 := Store(PageArticles(s, false, items), PageTags(s, false, items), PageJoins(s, false, items));
            PageArticles(s1, false, items) == s1.articles
  {
    var rows := PageRowMap(s.articles, false, items);
    var a1 := s.articles + rows;
    RerunRows(s.articles, items);
    UnionAssoc(s.articles, rows, rows);
    assert rows + rows == rows;
  }

  /** A FAST page computes the same rows over the table it wrote. */
  lemma RerunRows(articles: map<int, Article>, items: seq<RemoteArticle>)
    requires DistinctArticleIds(items)
    ensures PageRowMap(articles + PageRowMap(articles, false, items), false, items) == PageRowMap(articles, false, items)
  {
    var rows := PageRowMap(articles, false, items);
    var a1 := articles + rows;
    var rows2 := PageRowMap(a1, false, items);
    PageRows(articles, false, items);
    PageRows(a1, false, items);
    PageRowKeys(articles, false, items);
    PageRowKeys(a1, false, items);
    forall id | id in rows ensures rows2[id] == rows[id] {
      var a :| a in items && a.id == id;
      var i :| 0 <= i < |items| && items[i] == a;
      UpsertIdempotent(Stored(articles, false, id), a);
    }
  }

  /** The tag table a FAST page leaves is left alone by the same page. */
  lemma RerunTags(s: Store, items: seq<RemoteArticle>)
    requires StoreValid(s) && TagListsDistinct(items)
    ensures var s1 := Store(PageArticles(s, false, items), PageTags(s, false, items), PageJoins(s, false, items));
            PageTags(s1, false, items) == s1.tags
  {
    var s1 := Store(PageArticles(s, false, items), PageTags(s, false, items), PageJoins(s, false, items));
    var labels := LabelsOf(AllTags(items));
    PageRunValid(s, false, items);
    PageTagsSpec(s, false, items);
    PageTagsSpec(s1, false, items);
    UnionTwice(s.tags, labels);
  }

  lemma UnionTwice<K, V>(a: map<K, V>, b: map<K, V>)
    ensures (a + b) + b == a + b
  {
  }

  /** The join table a FAST page leaves is left alone by the same page. */
  lemma RerunJoins(s: Store, items: seq<RemoteArticle>)
    requires StoreValid(s) && TagListsDistinct(items) && DistinctArticleIds(items)
    ensures var s1 := Store(PageArticles(s, false, items), PageTags(s, false, items), PageJoins(s, false, items));
            PageJoins(s1, false, items) == s1.joins
  {
    var s1 := Store(PageArticles(s, false, items), PageTags(s, false, items), PageJoins(s, false, items));
    var j2 := PageJoins(s1, false, items);
    PageRunValid(s, false, items);
    PageJoinsSpec(s, false, items);
    PageJoinsSpec(s1, false, items);
    PageJoinsUntouched(s1, false, items);
    forall id ensures TagsOf(j2, id) == TagsOf(s1.joins, id) {
      if id in ArticleIds(items) {
        var a :| a in items && a.id == id;
        var i :| 0 <= i < |items| && items[i] == a;
      }
    }
    JoinsByArticle(j2, s1.joins);
  }

  /**
   * A fetched page without articles changes nothing, wherever it comes in
   * the sequence of fetches (lines 151-154 skip it).
   */
  lemma {:induction false} EmptyPageAnywhere(r: Run, full: bool, pre: seq<Fetch<Page>>, p: Page,
                                             post: seq<Fetch<Page>>)
    requires p.items == []
    ensures RunPages(r, full, pre + [Fetched(p)] + post) == RunPages(r, full, pre + post)
    decreases |pre|
  {
    var all := pre + [Fetched(p)] + post;
    if pre == [] {
      assert all == [Fetched(p)] + post && pre + post == post;
      assert all[0] == Fetched(p) && all[1..] == post;
    } else {
      assert all[0] == pre[0] && (pre + post)[0] == pre[0];
      assert all[1..] == pre[1..] + [Fetched(p)] + post;
      assert (pre + post)[1..] == pre[1..] + post;
      match pre[0]
      case Failed =>
      case Fetched(q) =>
        EmptyPageAnywhere(if q.items == [] then r else PageRun(r, full, q.items), full, pre[1..], p, post);
    }
  }

  /** Skipping an empty page is the same as reconciling and writing it: it changes nothing. */
  lemma PageRunEmpty(r: Run, full: bool)
    ensures PageRun(r, full, []) == r
  {
    var s := r.store;
    assert PageArticles(s, full, []) == s.articles;
    assert PageTags(s, full, []) == s.tags;
    assert PageJoins(s, full, []) == s.joins;
  }

  /** One step of the page loop, at the `i`-th fetch. */
  lemma RunPagesStep(r: Run, full: bool, pages: seq<Fetch<Page>>, i: nat)
    requires i < |pages|
    ensures pages[i].Failed? ==> RunPages(r, full, pages[i..]) == None
    ensures pages[i].Fetched? ==>
              var items := pages[i].value.items;
              RunPages(r, full, pages[i..]) == RunPages(if items == [] then r else PageRun(r, full, items), full, pages[i + 1..])
  {
    assert pages[i..][0] == pages[i] && pages[i..][1..] == pages[i + 1..];
  }

  /** A run keeps the store consistent. */
  lemma {:induction false} RunValid(r: Run, full: bool, pages: seq<Fetch<Page>>)
    requires StoreValid(r.store) && PagesWellFormed(pages)
    ensures RunPages(r, full, pages).Some? ==> StoreValid(RunPages(r, full, pages).value.store)
    decreases |pages|
  {
    if pages != [] && pages[0].Fetched? {
      var items := pages[0].value.items;
      assert PagesWellFormed(pages[1..]) by {
        forall k | 0 <= k < |pages| - 1 && pages[1..][k].Fetched? ensures TagListsDistinct(pages[1..][k].value.items) {
          assert pages[1..][k] == pages[k + 1];
        }
      }
      if items != [] {
        assert TagListsDistinct(items) by {
          assert pages[0].Fetched?;
        }
        PageRunValid(r.store, full, items);
      }
      RunValid(if items == [] then r else PageRun(r, full, items), full, pages[1..]);
    }
  }

  /** A run succeeds exactly when every page fetch does. */
  lemma {:induction false} RunSucceeds(r: Run, full: bool, pages: seq<Fetch<Page>>)
    ensures RunPages(r, full, pages).Some? <==> forall k :: 0 <= k < |pages| ==> pages[k].Fetched?
    decreases |pages|
  {
    if pages != [] && pages[0].Fetched? {
      var items := pages[0].value.items;
      RunSucceeds(if items == [] then r else PageRun(r, full, items), full, pages[1..]);
      assert forall k :: 0 < k < |pages| ==> pages[k] == pages[1..][k - 1];
    }
  }

  /** The watermark of a run (lines 250-252, 334) is the running maximum over all its articles. */
  lemma {:induction false} RunWatermark(r: Run, full: bool, pages: seq<Fetch<Page>>)
    ensures RunPages(r, full, pages).Some? ==>
              RunPages(r, full, pages).value.watermark == MaxUpdated(r.watermark, AllItems(pages))
    decreases |pages|
  {
    if pages != [] && pages[0].Fetched? {
      var items := pages[0].value.items;
      var next := if items == [] then r else PageRun(r, full, items);
      RunWatermark(next, full, pages[1..]);
      if items == [] {
        assert AllItems(pages) == AllItems(pages[1..]);
      }
      MaxUpdatedAppend(r.watermark, items, AllItems(pages[1..]));
    }
  }

  lemma ArticleIdsAppend(xs: seq<RemoteArticle>, ys: seq<RemoteArticle>)
    ensures ArticleIds(xs + ys) == ArticleIds(xs) + ArticleIds(ys)
  {
    forall a | a in xs + ys ensures a in xs || a in ys {
    }
  }

  /**
   * The event of a run records every article it processed and invalidates
   * everything as soon as one was processed (lines 254-261).
   */
  lemma {:induction false} RunEvent(r: Run, full: bool, pages: seq<Fetch<Page>>)
    ensures var res := RunPages(r, full, pages);
            res.Some? ==>
              && res.value.event.invalidateAll == (r.event.invalidateAll || AllItems(pages) != [])
              && res.value.event.changed.Keys == r.event.changed.Keys + ArticleIds(AllItems(pages))
    decreases |pages|
  {
    if pages != [] && pages[0].Fetched? {
      var items := pages[0].value.items;
      var next := if items == [] then r else PageRun(r, full, items);
      RunEvent(next, full, pages[1..]);
      if items == [] {
        assert AllItems(pages) == AllItems(pages[1..]);
      } else {
        EventAfterKeys(r.store.articles, full, r.event, items);
      }
      ArticleIdsAppend(items, AllItems(pages[1..]));
    }
  }

  /** No row of the store has its images downloaded. */
  predicate NoImages(articles: map<int, Article>) {
    forall id :: id in articles ==> !articles[id].imagesDownloaded
  }

  /** A FULL run only ever writes new rows, so no row has its images-downloaded flag set (lines 181-184). */
  lemma {:induction false} FullRunNoImages(r: Run, pages: seq<Fetch<Page>>)
    requires NoImages(r.store.articles)
    ensures RunPages(r, true, pages).Some? ==> NoImages(RunPages(r, true, pages).value.store.articles)
    decreases |pages|
  {
    if pages != [] && pages[0].Fetched? {
      var items := pages[0].value.items;
      if items != [] {
        FullPageRows(r.store.articles, items);
      }
      FullRunNoImages(if items == [] then r else PageRun(r, true, items), pages[1..]);
    }
  }

  /**
   * update succeeds exactly when, in FULL mode, the tag list arrives and
   * every page fetch succeeds.
   */
  lemma UpdateRunSucceeds(s: Store, settings: Settings, server: Server, updateType: UpdateType)
    ensures var clean := updateType != Fast;
            var pages := server.articles(ArticlesQuery(clean, settings.latestUpdatedItemTimestamp));
            UpdateRun(s, settings, server, updateType).Some?
            <==> (clean ==> server.tags.Fetched?) && forall k :: 0 <= k < |pages| ==> pages[k].Fetched?
  {
    var clean := updateType != Fast;
    var s0 := if clean then Store(map[], map[], {}) else s;
    var latest := settings.latestUpdatedItemTimestamp;
    match PreloadTags(s0, clean, server)
    case None =>
    case Some(s1) =>
      RunSucceeds(Run(s1, ChangeEvent(clean, map[]), if clean then 0 else latest), clean,
                  server.articles(ArticlesQuery(clean, latest)));
  }

  /**
   * What a successful update produces (lines 46-87): the watermark is the
   * maximum `updatedAt` from 0 (FULL) or from the stored watermark (FAST);
   * the event lists every processed article and invalidates everything when
   * the run was clean or processed any article; a clean run leaves no row
   * with downloaded images; the store stays consistent.
   */
  lemma UpdateRunResult(s: Store, settings: Settings, server: Server, updateType: UpdateType)
    requires StoreValid(s)
    requires PagesWellFormed(server.articles(ArticlesQuery(updateType != Fast, settings.latestUpdatedItemTimestamp)))
    ensures var clean := updateType != Fast;
            var latest := settings.latestUpdatedItemTimestamp;
            var items := AllItems(server.articles(ArticlesQuery(clean, latest)));
            var res := UpdateRun(s, settings, server, updateType);
            res.Some? ==>
              && res.value.watermark == MaxUpdated(if clean then 0 else latest, items)
              && res.value.event.invalidateAll == (clean || items != [])
              && res.value.event.changed.Keys == ArticleIds(items)
              && (clean ==> NoImages(res.value.store.articles))
              && StoreValid(res.value.store)
  {
    var clean := updateType != Fast;
    var s0 := if clean then Store(map[], map[], {}) else s;
    var latest := settings.latestUpdatedItemTimestamp;
    var pages := server.articles(ArticlesQuery(clean, latest));
    match PreloadTags(s0, clean, server)
    case None =>
    case Some(s1) =>
      var r := Run(s1, ChangeEvent(clean, map[]), if clean then 0 else latest);
      RunWatermark(r, clean, pages);
      RunEvent(r, clean, pages);
      RunValid(r, clean, pages);
      if clean {
        FullRunNoImages(r, pages);
      }
  }

  /** The updater: the three tables it rewrites and the settings it records. */
  class Updater {
    var articles: map<int, Article>
    var tags: map<int, Text>
    var joins: set<(int, int)>
    var settings: Settings

    function State(): Store
      reads this
    {
      Store(articles, tags, joins)
    }

    predicate Valid()
      reads this
    {
      StoreValid(State())
    }

    constructor (s: Store, initial: Settings)
      requires StoreValid(s)
      ensures Valid() && State() == s && settings == initial
    {
      articles, tags, joins := s.articles, s.tags, s.joins;
      settings := initial;
    }

    /** Writes the batches of one page (lines 266-331). */
    method Flush(ps: PageState)
      modifies this
      ensures State() == FlushPage(old(State()), ps) && settings == old(settings)
    {
      articles := articles + RowMap(ps.toUpdate);
      articles := articles + RowMap(ps.toInsert);
      tags := tags + Restrict(ps.index.labels, ps.index.toUpdate);
      tags := tags + Restrict(ps.index.labels, Elems(ps.index.toInsert));
      RestrictTwice(old(tags), ps.index.labels, ps.index.toUpdate, Elems(ps.index.toInsert));
      var del := JoinsToDelete(joins, ps.joinsToRemove);
      joins := joins - del;
      assert joins == old(joins) - RemovedPairs(ps.joinsToRemove);
      var ins := JoinsToCreate(ps.joinsToInsert);
      joins := joins + ins;
    }

    /**
     * One non-empty page (lines 156-331): the batches are collected against
     * the tables, then written; the tag map stays equal to the tag table.
     */
    method ProcessPage(full: bool, labels: map<int, Text>, event: ChangeEvent, watermark: int,
                       items: seq<RemoteArticle>)
      returns (labels': map<int, Text>, event': ChangeEvent, watermark': int)
      modifies this
      requires Valid() && labels == tags && TagListsDistinct(items)
      ensures Valid() && labels' == tags && settings == old(settings)
      ensures Run(State(), event', watermark') == PageRun(Run(old(State()), event, watermark), full, items)
    {
      ghost var cur := Run(State(), event, watermark);
      var ps := ProcessItems(articles, joins, full, PageStart(labels, event, watermark), items);
      Flush(ps);
      PageRunFlush(cur, full, items);
      PageRunValid(cur.store, full, items);
      PageTagsSpec(cur.store, full, items);
      ItemsStepParts(cur.store.articles, cur.store.joins, full, PageStart(labels, event, watermark), items);
      labels', event', watermark' := ps.index.labels, ps.event, ps.latest;
    }

    /** The tag preload of FULL mode (lines 99-113): the server's tags are written to the tag table. */
    method Preload(server: Server, full: bool) returns (ok: bool)
      modifies this
      requires Valid()
      ensures Valid() && settings == old(settings)
      ensures ok == PreloadTags(old(State()), full, server).Some?
      ensures ok ==> State() == PreloadTags(old(State()), full, server).value
    {
      ok := true;
      if full {
        match server.tags {
          case Failed =>
            ok := false;
          case Fetched(ts) =>
            tags := tags + LabelsOf(ts);
        }
      }
    }

    /**
     * The page loop (lines 145-332): a failed fetch stops it, an empty page
     * is skipped, any other page is reconciled and written; the tag map is
     * carried from page to page.
     */
    method ProcessPages(full: bool, pages: seq<Fetch<Page>>, e: ChangeEvent, latest: int)
      returns (r: Option<(ChangeEvent, int)>)
      modifies this
      requires Valid() && PagesWellFormed(pages)
      ensures Valid() && settings == old(settings)
      ensures var spec := RunPages(Run(old(State()), e, latest), full, pages);
              && r.Some? == spec.Some?
              && (r.Some? ==> State() == spec.value.store && r.value == (spec.value.event, spec.value.watermark))
    {
      ghost var spec := RunPages(Run(State(), e, latest), full, pages);
      var labels := tags;
      var event, watermark := e, latest;
      var i := 0;
      while i < |pages|
        invariant 0 <= i <= |pages|
        invariant Valid() && labels == tags && settings == old(settings)
        invariant spec == RunPages(Run(State(), event, watermark), full, pages[i..])
      {
        ghost var cur := Run(State(), event, watermark);
        RunPagesStep(cur, full, pages, i);
        if pages[i].Failed? {
          return None;
        }
        var items := pages[i].value.items;
        assert TagListsDistinct(items);
        if items != [] {
          labels, event, watermark := ProcessPage(full, labels, event, watermark, items);
        }
        i := i + 1;
      }
      assert pages[i..] == [];
      return Some((event, watermark));
    }

    /**
     * performUpdate (lines 89-335): the tag preload, the article query and
     * the page loop, which starts from 0 in FULL mode; it yields the event
     * and the new watermark, or nothing when a request fails midway.
     */
    method PerformUpdate(server: Server, full: bool, e: ChangeEvent, latest: int)
      returns (r: Option<(ChangeEvent, int)>)
      modifies this
      requires Valid() && PagesWellFormed(server.articles(ArticlesQuery(full, latest)))
      ensures var spec := PerformRun(old(State()), full, server, e, latest);
              && r.Some? == spec.Some?
              && (r.Some? ==> State() == spec.value.store && r.value == (spec.value.event, spec.value.watermark))
              && settings == old(settings)
    {
      var ok := Preload(server, full);
      if !ok {
        return None;
      }
      var pages := server.articles(ArticlesQuery(full, latest));
      r := ProcessPages(full, pages, e, if full then 0 else latest);
    }

    /**
     * update (lines 46-87): inside one transaction, a clean run empties the
     * tables first; a failed run rolls the tables back and leaves the
     * settings alone, a successful one records the watermark, the run time
     * and that a first sync happened.
     */
    method Update(server: Server, updateType: UpdateType, now: int) returns (r: Option<ChangeEvent>)
      modifies this
      requires Valid()
      requires PagesWellFormed(server.articles(ArticlesQuery(updateType != Fast, settings.latestUpdatedItemTimestamp)))
      ensures Valid()
      ensures match UpdateRun(old(State()), old(settings), server, updateType)
              case None => r == None && State() == old(State()) && settings == old(settings)
              case Some(run) => r == Some(run.event) && State() == run.store
                                && settings == Settings(run.watermark, now, true)
    {
      var clean := updateType != Fast;
      var savedArticles, savedTags, savedJoins := articles, tags, joins;
      var event := ChangeEvent(false, map[]);
      if clean {
        articles, tags, joins := map[], map[], {};
        event := event.(invalidateAll := true);
      }
      var latest := settings.latestUpdatedItemTimestamp;
      UpdateRunResult(old(State()), old(settings), server, updateType);
      var res := PerformUpdate(server, clean, event, latest);
      match res {
        case None =>
          articles, tags, joins := savedArticles, savedTags, savedJoins;
          r := None;
        case Some(outcome) =>
          settings := Settings(outcome.1, now, true);
          r := Some(outcome.0);
      }
    }
  }
}
