/**
 * Reconciliation of the articles of one page (Updater.java, the body of the
 * page loop of performUpdate): the upsert of each article, its tag joins,
 * its routing into the update or insert batch, the change event and the
 * watermark.
 *
 * The store is read, never written, while a page is processed; it is passed
 * in as its article table (keyed by remote id) and its join table (pairs of
 * remote article id and remote tag id).
 */
module ArticleReconciliation {
  import opened Entities
  import opened TagResolution

  /** The tag ids the join table gives the article `a`. */
  function TagsOf(joins: set<(int, int)>, a: int): set<int> {
    set p | p in joins && p.0 == a :: p.1
  }

  /**
   * The article row written for a remote record (lines 173-192): every field
   * is taken from the record; the images flag is false for a new row, and an
   * existing row loses it only when it was set and the content changed.
   */
  function Upsert(stored: Option<Article>, a: RemoteArticle): (r: Article) {
    var images := match stored
      case None => false
      case Some(s) => if s.imagesDownloaded && s.content != a.content then false else s.imagesDownloaded;
    Article(a.id, a.title, a.content, a.url, a.updatedAt, a.archived, a.starred, images)
  }

  lemma UpsertSpec(stored: Option<Article>, a: RemoteArticle)
    ensures var r := Upsert(stored, a);
            && r.articleId == a.id && r.title == a.title && r.content == a.content && r.url == a.url
            && r.updateDate == a.updatedAt && r.archive == a.archived && r.favorite == a.starred
            && (stored.None? ==> !r.imagesDownloaded)
            && (stored.Some? ==> (r.imagesDownloaded <==> stored.value.imagesDownloaded && stored.value.content == a.content))
  {
  }

  /** Applying the same remote record to the row it produced changes nothing. */
  lemma UpsertIdempotent(stored: Option<Article>, a: RemoteArticle)
    ensures Upsert(Some(Upsert(stored, a)), a) == Upsert(stored, a)
  {
  }

  /** Any two stored rows, or none, lead to the same new row but for the images flag. */
  lemma UpsertOnlyFlagFromStored(s1: Option<Article>, s2: Option<Article>, a: RemoteArticle)
    ensures Upsert(s1, a).(imagesDownloaded := false) == Upsert(s2, a).(imagesDownloaded := false)
    ensures Upsert(s1, a).(imagesDownloaded := false) == Upsert(None, a)
  {
  }

  /**
   * What the page loop collects: the article batches, the tag index with its
   * tag batches, the joins to remove and to insert per article, the change
   * event and the watermark (the last two live across pages).
   */
  datatype PageState = PageState(
    toUpdate: seq<Article>, toInsert: seq<Article>,
    index: TagIndex,
    joinsToRemove: map<int, set<int>>, joinsToInsert: map<int, seq<int>>,
    event: ChangeEvent, latest: int)

  /** Whether the record updates a stored row: only outside FULL mode, and only when one exists (lines 166-177). */
  predicate Existing(articles: map<int, Article>, full: bool, id: int) {
    !full && id in articles
  }

  /** The stored row a record is merged into, if any. */
  function Stored(articles: map<int, Article>, full: bool, id: int): Option<Article> {
    if Existing(articles, full, id) then Some(articles[id]) else None
  }

  /** The local tags of the article the record is merged into; None for a new article. */
  function LocalTags(articles: map<int, Article>, joins: set<(int, int)>, full: bool, id: int): Option<set<int>> {
    if Existing(articles, full, id) then Some(TagsOf(joins, id)) else None
  }

  /** The local tags whose joins the article drops: those missing from the remote list. */
  function DroppedTags(articles: map<int, Article>, joins: set<(int, int)>, full: bool, a: RemoteArticle): set<int> {
    LocalOrNone(LocalTags(articles, joins, full, a.id)) - TagIds(a.tags)
  }

  /** The tags the article gains joins to: the remote entries no local tag consumed, in remote order. */
  function AddedTags(articles: map<int, Article>, joins: set<(int, int)>, full: bool, a: RemoteArticle): seq<int> {
    Ids(Unconsumed(a.tags, LocalOrNone(LocalTags(articles, joins, full, a.id))))
  }

  /** An article enters the removal map only with a non-empty list (lines 215-218). */
  function RemoveStep(articles: map<int, Article>, joins: set<(int, int)>, full: bool,
                      m: map<int, set<int>>, a: RemoteArticle): map<int, set<int>> {
    var d := DroppedTags(articles, joins, full, a);
    if d != {} then m[a.id := d] else m
  }

  /** An article enters the insertion map only with a non-empty list (lines 224, 245-247). */
  function AddStep(articles: map<int, Article>, joins: set<(int, int)>, full: bool,
                   m: map<int, seq<int>>, a: RemoteArticle): map<int, seq<int>> {
    var d := AddedTags(articles, joins, full, a);
    if d != [] then m[a.id := d] else m
  }

  /** An existing row joins the update batch (line 263). */
  function UpdateRows(articles: map<int, Article>, full: bool, rows: seq<Article>, a: RemoteArticle): seq<Article> {
    if Existing(articles, full, a.id) then rows + [Upsert(Stored(articles, full, a.id), a)] else rows
  }

  /** A new row joins the insert batch (line 263). */
  function InsertRows(articles: map<int, Article>, full: bool, rows: seq<Article>, a: RemoteArticle): seq<Article> {
    if Existing(articles, full, a.id) then rows else rows + [Upsert(Stored(articles, full, a.id), a)]
  }

  /** One article of a page (lines 163-263). */
  function ArticleStep(articles: map<int, Article>, joins: set<(int, int)>, full: bool,
                       ps: PageState, a: RemoteArticle): (r: PageState)
  {
    PageState(
      UpdateRows(articles, full, ps.toUpdate, a),
      InsertRows(articles, full, ps.toInsert, a),
      ReconcileTags(ps.index, LocalTags(articles, joins, full, a.id), a.tags).index,
      RemoveStep(articles, joins, full, ps.joinsToRemove, a),
      AddStep(articles, joins, full, ps.joinsToInsert, a),
      EventStep(articles, full, ps.event, a),
      if a.updatedAt > ps.latest then a.updatedAt else ps.latest)
  }

  /** The change kind recorded for an article (lines 254-261). */
  function Kind(articles: map<int, Article>, full: bool, id: int): ChangeType {
    if Existing(articles, full, id) then Unspecified else Added
  }

  /** The event after one more article: invalidate everything, and record the article's change kind. */
  function EventStep(articles: map<int, Article>, full: bool, e: ChangeEvent, a: RemoteArticle): ChangeEvent {
    ChangeEvent(true, e.changed[a.id := Kind(articles, full, a.id)])
  }

  /** The articles of a page, in order (lines 163-264). */
  function ItemsStep(articles: map<int, Article>, joins: set<(int, int)>, full: bool,
                     ps: PageState, items: seq<RemoteArticle>): PageState
  {
    if items == [] then ps
    else ArticleStep(articles, joins, full, ItemsStep(articles, joins, full, ps, items[..|items| - 1]), items[|items| - 1])
  }

  /** An element of a non-empty set, in whatever order the store yields them. */
  method PickOne(s: set<int>) returns (x: int)
    requires s != {}
    ensures x in s
  {
    assert (forall y :: y !in s) ==> s == {};
    x :| x in s;
  }

  /**
   * `article.getTags()` of a stored article: the tag ids the join table gives
   * it, each once, in an order the store chooses.
   */
  method LoadTags(joins: set<(int, int)>, a: int) returns (ids: seq<int>)
    ensures Elems(ids) == TagsOf(joins, a) && NoDup(ids)
  {
    ids := [];
    var todo := TagsOf(joins, a);
    while todo != {}
      invariant Elems(ids) + todo == TagsOf(joins, a) && Elems(ids) !! todo && NoDup(ids)
      decreases todo
    {
      var id := PickOne(todo);
      ElemsAppend(ids, id);
      ids := ids + [id];
      todo := todo - {id};
    }
  }

  /**
   * The tag part of one article (lines 194-248): an existing article walks
   * its stored tags against the remote list, then every remote tag left is
   * resolved and joined; a new article joins all remote tags.
   */
  method ReconcileArticleTags(joins: set<(int, int)>, id: int, existing: bool,
                              remote: seq<RemoteTag>, idx: TagIndex)
    returns (dropped: set<int>, added: seq<int>, index: TagIndex)
    requires DistinctTagIds(remote)
    requires existing ==> TagsOf(joins, id) <= idx.labels.Keys
    ensures TagOutcome(dropped, added, index) ==
            ReconcileTags(idx, if existing then Some(TagsOf(joins, id)) else None, remote)
  {
    index, dropped := idx, {};
    var remaining := remote;
    if existing {
      var local := LoadTags(joins, id);
      var droppedList;
      remaining, droppedList, index := ConsumeLocalTags(local, remote, idx);
      assert && remaining == Unconsumed(remote, TagsOf(joins, id))
             && Elems(droppedList) == TagsOf(joins, id) - TagIds(remote)
             && index == ConsumedIndex(idx, remote, TagsOf(joins, id)) by {
        ConsumeAllSpec(idx, remote, local);
      }
      dropped := Elems(droppedList);
    } else {
      ReconcileNewArticle(idx, remote);
    }
    added := [];
    if remaining != [] {
      added, index := InsertRemainingTags(remaining, index);
    }
    assert added == Ids(remaining);
  }

  /**
   * One article of a page (lines 163-263): look the row up unless in FULL
   * mode, upsert it, reconcile its tags, advance the watermark, record the
   * change and route the row into the update or the insert batch.
   */
  method ProcessArticle(articles: map<int, Article>, joins: set<(int, int)>, full: bool,
                        ps: PageState, a: RemoteArticle) returns (r: PageState)
    requires DistinctTagIds(a.tags)
    requires TagsOf(joins, a.id) <= ps.index.labels.Keys
    ensures r == ArticleStep(articles, joins, full, ps, a)
  {
    var stored: Option<Article> := None;
    if !full && a.id in articles {
      stored := Some(articles[a.id]);
    }
    var existing := stored.Some?;
    var row := Upsert(stored, a);

    var dropped, added, index := ReconcileArticleTags(joins, a.id, existing, a.tags, ps.index);
    var joinsToRemove, joinsToInsert := ps.joinsToRemove, ps.joinsToInsert;
    if dropped != {} {
      joinsToRemove := joinsToRemove[a.id := dropped];
    }
    if added != [] {
      joinsToInsert := joinsToInsert[a.id := added];
    }

    var latest := ps.latest;
    if a.updatedAt > latest {
      latest := a.updatedAt;
    }
    var event := ChangeEvent(true, ps.event.changed[a.id := if existing then Unspecified else Added]);
    assert event == EventStep(articles, full, ps.event, a);
    var toUpdate, toInsert := ps.toUpdate, ps.toInsert;
    if existing {
      toUpdate := toUpdate + [row];
    } else {
      toInsert := toInsert + [row];
    }
    r := PageState(toUpdate, toInsert, index, joinsToRemove, joinsToInsert, event, latest);
  }

  /** Every tag the join table mentions is in the index. */
  predicate TagsKnown(joins: set<(int, int)>, idx: TagIndex) {
    forall p :: p in joins ==> p.1 in idx.labels
  }

  /** Every remote tag list of the page is free of repeated ids. */
  predicate TagListsDistinct(items: seq<RemoteArticle>) {
    forall i :: 0 <= i < |items| ==> DistinctTagIds(items[i].tags)
  }

  /** The index only grows while a page is processed. */
  lemma ArticleStepKeys(articles: map<int, Article>, joins: set<(int, int)>, full: bool,
                        ps: PageState, a: RemoteArticle)
    requires DistinctTagIds(a.tags)
    ensures ArticleStep(articles, joins, full, ps, a).index.labels.Keys
            == ps.index.labels.Keys + TagIds(a.tags)
  {
    ReconcileTagsLabels(ps.index, LocalTags(articles, joins, full, a.id), a.tags);
  }

  /** The loop over the articles of a page (lines 163-264). */
  method ProcessItems(articles: map<int, Article>, joins: set<(int, int)>, full: bool,
                      ps: PageState, items: seq<RemoteArticle>) returns (r: PageState)
    requires TagListsDistinct(items)
    requires TagsKnown(joins, ps.index)
    ensures r == ItemsStep(articles, joins, full, ps, items)
  {
    r := ps;
    for i := 0 to |items|
      invariant r == ItemsStep(articles, joins, full, ps, items[..i])
      invariant TagsKnown(joins, r.index)
    {
      assert items[..i + 1][..i] == items[..i];
      ArticleStepKeys(articles, joins, full, r, items[i]);
      r := ProcessArticle(articles, joins, full, r, items[i]);
    }
    assert items[..|items|] == items;
  }

  /** The watermark after the given articles: a running maximum of `updatedAt` from `start`. */
  function MaxUpdated(start: int, items: seq<RemoteArticle>): int {
    if items == [] then start
    else
      var w := MaxUpdated(start, items[..|items| - 1]);
      if items[|items| - 1].updatedAt > w then items[|items| - 1].updatedAt else w
  }

  /**
   * The watermark (lines 250-252) is the maximum of the start and of every
   * article's `updatedAt`: never below either, and equal to one of them.
   */
  lemma {:induction false} MaxUpdatedSpec(start: int, items: seq<RemoteArticle>)
    ensures var w := MaxUpdated(start, items);
            && w >= start
            && (forall i :: 0 <= i < |items| ==> w >= items[i].updatedAt)
            && (w == start || exists i :: 0 <= i < |items| && w == items[i].updatedAt)
  {
    if items != [] {
      var n := |items|;
      var init := items[..n - 1];
      MaxUpdatedSpec(start, init);
      var w0 := MaxUpdated(start, init);
      var w := MaxUpdated(start, items);
      forall i | 0 <= i < n ensures w >= items[i].updatedAt {
        if i < n - 1 {
          assert items[i] == init[i];
        }
      }
      if w != start && w == w0 {
        var i :| 0 <= i < n - 1 && w0 == init[i].updatedAt;
        assert items[i] == init[i];
      }
    }
  }

  /** The running maximum over two consecutive runs of articles is the maximum over both. */
  lemma {:induction false} MaxUpdatedAppend(start: int, xs: seq<RemoteArticle>, ys: seq<RemoteArticle>)
    ensures MaxUpdated(start, xs + ys) == MaxUpdated(MaxUpdated(start, xs), ys)
  {
    if ys == [] {
      assert xs + ys == xs;
    } else {
      var n := |ys|;
      assert (xs + ys)[..|xs + ys| - 1] == xs + ys[..n - 1];
      assert (xs + ys)[|xs + ys| - 1] == ys[n - 1];
      MaxUpdatedAppend(start, xs, ys[..n - 1]);
    }
  }

  /** The event after the articles of a page. */
  function EventAfter(articles: map<int, Article>, full: bool, e: ChangeEvent, items: seq<RemoteArticle>): ChangeEvent {
    if items == [] then e
    else EventStep(articles, full, EventAfter(articles, full, e, items[..|items| - 1]), items[|items| - 1])
  }

  lemma ItemsSplit(items: seq<RemoteArticle>)
    requires items != []
    ensures ArticleIds(items) == ArticleIds(items[..|items| - 1]) + {items[|items| - 1].id}
    ensures DistinctArticleIds(items) ==>
              && DistinctArticleIds(items[..|items| - 1])
              && items[|items| - 1].id !in ArticleIds(items[..|items| - 1])
  {
    var n := |items|;
    assert items == items[..n - 1] + [items[n - 1]];
    if DistinctArticleIds(items) {
      forall x | x in items[..n - 1] ensures x.id != items[n - 1].id {
        var i :| 0 <= i < n - 1 && items[..n - 1][i] == x;
        assert items[i] == x;
      }
    }
  }

  /**
   * The change event after a page: it records every article of the page and
   * keeps the entries of others; `invalidateAll` is set as soon as one
   * article was processed.
   */
  lemma {:induction false} EventAfterKeys(articles: map<int, Article>, full: bool, e: ChangeEvent, items: seq<RemoteArticle>)
    ensures var r := EventAfter(articles, full, e, items);
            && r.invalidateAll == (e.invalidateAll || items != [])
            && r.changed.Keys == e.changed.Keys + ArticleIds(items)
            && (forall k :: k in e.changed && k !in ArticleIds(items) ==> r.changed[k] == e.changed[k])
  {
    if items != [] {
      ItemsSplit(items);
      EventAfterKeys(articles, full, e, items[..|items| - 1]);
    }
  }

  /**
   * Each article of a page with distinct ids is recorded as UNSPECIFIED when
   * it updated a stored row and as ADDED otherwise.
   */
  lemma {:induction false} EventAfterKinds(articles: map<int, Article>, full: bool, e: ChangeEvent, items: seq<RemoteArticle>)
    ensures var r := EventAfter(articles, full, e, items);
            forall i :: 0 <= i < |items| ==>
              items[i].id in r.changed && r.changed[items[i].id] == Kind(articles, full, items[i].id)
  {
    if items != [] {
      var n := |items|;
      var init := items[..n - 1];
      ItemsSplit(items);
      EventAfterKinds(articles, full, e, init);
      var r0 := EventAfter(articles, full, e, init);
      var r := EventAfter(articles, full, e, items);
      assert r.changed == r0.changed[items[n - 1].id := Kind(articles, full, items[n - 1].id)];
      forall i | 0 <= i < n
        ensures items[i].id in r.changed && r.changed[items[i].id] == Kind(articles, full, items[i].id)
      {
        if i < n - 1 {
          assert items[i] == init[i];
        }
      }
    }
  }

  /** The update batch after the articles of a page. */
  function UpdatesAfter(articles: map<int, Article>, full: bool, rows: seq<Article>, items: seq<RemoteArticle>): seq<Article> {
    if items == [] then rows
    else UpdateRows(articles, full, UpdatesAfter(articles, full, rows, items[..|items| - 1]), items[|items| - 1])
  }

  /** The insert batch after the articles of a page. */
  function InsertsAfter(articles: map<int, Article>, full: bool, rows: seq<Article>, items: seq<RemoteArticle>): seq<Article> {
    if items == [] then rows
    else InsertRows(articles, full, InsertsAfter(articles, full, rows, items[..|items| - 1]), items[|items| - 1])
  }

  /** The join removals after the articles of a page. */
  function RemovalsAfter(articles: map<int, Article>, joins: set<(int, int)>, full: bool,
                         m: map<int, set<int>>, items: seq<RemoteArticle>): map<int, set<int>> {
    if items == [] then m
    else RemoveStep(articles, joins, full, RemovalsAfter(articles, joins, full, m, items[..|items| - 1]), items[|items| - 1])
  }

  /** The join insertions after the articles of a page. */
  function AdditionsAfter(articles: map<int, Article>, joins: set<(int, int)>, full: bool,
                          m: map<int, seq<int>>, items: seq<RemoteArticle>): map<int, seq<int>> {
    if items == [] then m
    else AddStep(articles, joins, full, AdditionsAfter(articles, joins, full, m, items[..|items| - 1]), items[|items| - 1])
  }

  /** The tag index after the articles of a page. */
  function IndexAfter(articles: map<int, Article>, joins: set<(int, int)>, full: bool,
                      idx: TagIndex, items: seq<RemoteArticle>): TagIndex {
    if items == [] then idx
    else
      var a := items[|items| - 1];
      ReconcileTags(IndexAfter(articles, joins, full, idx, items[..|items| - 1]), LocalTags(articles, joins, full, a.id), a.tags).index
  }

  /** Each part of the page state evolves on its own. */
  lemma {:induction false} ItemsStepParts(articles: map<int, Article>, joins: set<(int, int)>, full: bool,
                                          ps: PageState, items: seq<RemoteArticle>)
    ensures ItemsStep(articles, joins, full, ps, items) == PageState(
              UpdatesAfter(articles, full, ps.toUpdate, items),
              InsertsAfter(articles, full, ps.toInsert, items),
              IndexAfter(articles, joins, full, ps.index, items),
              RemovalsAfter(articles, joins, full, ps.joinsToRemove, items),
              AdditionsAfter(articles, joins, full, ps.joinsToInsert, items),
              EventAfter(articles, full, ps.event, items),
              MaxUpdated(ps.latest, items))
  {
    if items != [] {
      ItemsStepParts(articles, joins, full, ps, items[..|items| - 1]);
    }
  }

  /** The rows of a batch by article id, a later row winning. */
  function RowMap(rows: seq<Article>): (m: map<int, Article>)
    ensures forall id :: id in m ==> m[id].articleId == id
  {
    if rows == [] then map[]
    else
      var last := rows[|rows| - 1];
      RowMap(rows[..|rows| - 1])[last.articleId := last]
  }

  lemma RowMapAppend(rows: seq<Article>, r: Article)
    ensures RowMap(rows + [r]) == RowMap(rows)[r.articleId := r]
  {
    assert (rows + [r])[..|rows|] == rows;
  }

  /** The ids of the articles of a page that update a stored row. */
  function ExistingIds(articles: map<int, Article>, full: bool, items: seq<RemoteArticle>): set<int> {
    set a | a in items && Existing(articles, full, a.id) :: a.id
  }

  /** The ids of the articles of a page that become new rows. */
  function FreshIds(articles: map<int, Article>, full: bool, items: seq<RemoteArticle>): set<int> {
    set a | a in items && !Existing(articles, full, a.id) :: a.id
  }

  lemma IdsSplit(articles: map<int, Article>, full: bool, items: seq<RemoteArticle>)
    requires items != []
    ensures var init, a := items[..|items| - 1], items[|items| - 1];
            && ExistingIds(articles, full, items)
               == ExistingIds(articles, full, init) + (if Existing(articles, full, a.id) then {a.id} else {})
            && FreshIds(articles, full, items)
               == FreshIds(articles, full, init) + (if Existing(articles, full, a.id) then {} else {a.id})
  {
    assert items == items[..|items| - 1] + [items[|items| - 1]];
  }

  /** The update batch of a page holds a row for exactly the articles found in the store (line 263). */
  lemma {:induction false} UpdatesKeys(articles: map<int, Article>, full: bool, items: seq<RemoteArticle>)
    ensures RowMap(UpdatesAfter(articles, full, [], items)).Keys == ExistingIds(articles, full, items)
  {
    if items != [] {
      var init, a := items[..|items| - 1], items[|items| - 1];
      UpdatesKeys(articles, full, init);
      IdsSplit(articles, full, items);
      RowMapAppend(UpdatesAfter(articles, full, [], init), Upsert(Stored(articles, full, a.id), a));
    }
  }

  /** The insert batch of a page holds a row for exactly the articles not found in the store (line 263). */
  lemma {:induction false} InsertsKeys(articles: map<int, Article>, full: bool, items: seq<RemoteArticle>)
    ensures RowMap(InsertsAfter(articles, full, [], items)).Keys == FreshIds(articles, full, items)
  {
    if items != [] {
      var init, a := items[..|items| - 1], items[|items| - 1];
      InsertsKeys(articles, full, init);
      IdsSplit(articles, full, items);
      RowMapAppend(InsertsAfter(articles, full, [], init), Upsert(Stored(articles, full, a.id), a));
    }
  }

  /** Every row of the update batch is of a stored article, every row of the insert batch of a new one. */
  lemma {:induction false} PageRouting(articles: map<int, Article>, full: bool, items: seq<RemoteArticle>)
    ensures forall r :: r in UpdatesAfter(articles, full, [], items) ==> Existing(articles, full, r.articleId)
    ensures forall r :: r in InsertsAfter(articles, full, [], items) ==> !Existing(articles, full, r.articleId)
  {
    if items != [] {
      PageRouting(articles, full, items[..|items| - 1]);
    }
  }

  lemma UnionPut(u0: map<int, Article>, i0: map<int, Article>, u: map<int, Article>, i: map<int, Article>,
                 k: int, v: Article)
    requires (u == u0[k := v] && i == i0 && k !in i0) || (u == u0 && i == i0[k := v] && k !in u0)
    ensures u + i == (u0 + i0)[k := v]
  {
  }

  /** The row a page writes for its last article. */
  lemma PageRowStep(articles: map<int, Article>, full: bool, items: seq<RemoteArticle>)
    requires items != []
    ensures var init, a := items[..|items| - 1], items[|items| - 1];
            RowMap(UpdatesAfter(articles, full, [], items)) + RowMap(InsertsAfter(articles, full, [], items))
            == (RowMap(UpdatesAfter(articles, full, [], init)) + RowMap(InsertsAfter(articles, full, [], init)))
               [a.id := Upsert(Stored(articles, full, a.id), a)]
  {
    var init, a := items[..|items| - 1], items[|items| - 1];
    var row := Upsert(Stored(articles, full, a.id), a);
    var ups, ins := UpdatesAfter(articles, full, [], init), InsertsAfter(articles, full, [], init);
    UpdatesKeys(articles, full, init);
    InsertsKeys(articles, full, init);
    if Existing(articles, full, a.id) {
      assert UpdatesAfter(articles, full, [], items) == ups + [row];
      assert InsertsAfter(articles, full, [], items) == ins;
      RowMapAppend(ups, row);
      assert a.id !in RowMap(ins) by {
        assert a.id !in FreshIds(articles, full, init);
      }
      UnionPut(RowMap(ups), RowMap(ins), RowMap(ups + [row]), RowMap(ins), a.id, row);
    } else {
      assert UpdatesAfter(articles, full, [], items) == ups;
      assert InsertsAfter(articles, full, [], items) == ins + [row];
      RowMapAppend(ins, row);
      assert a.id !in RowMap(ups) by {
        assert a.id !in ExistingIds(articles, full, init);
      }
      UnionPut(RowMap(ups), RowMap(ins), RowMap(ups), RowMap(ins + [row]), a.id, row);
    }
  }

  /** Writing the last article's row keeps the rows of the earlier, distinct ids. */
  lemma PutLast(items: seq<RemoteArticle>, rows0: map<int, Article>, rows: map<int, Article>,
                f: RemoteArticle -> Article)
    requires items != [] && items[|items| - 1].id !in ArticleIds(items[..|items| - 1])
    requires rows == rows0[items[|items| - 1].id := f(items[|items| - 1])]
    requires forall i :: 0 <= i < |items| - 1 ==> items[i].id in rows0 && rows0[items[i].id] == f(items[i])
    ensures forall i :: 0 <= i < |items| ==> items[i].id in rows && rows[items[i].id] == f(items[i])
  {
    var n := |items|;
    forall i | 0 <= i < n - 1 ensures items[i].id != items[n - 1].id {
      assert items[..n - 1][i] in items[..n - 1];
    }
  }

  /** The rows a page writes, by article id: each article's upsert, a later one winning. */
  function PageRowMap(articles: map<int, Article>, full: bool, items: seq<RemoteArticle>): (m: map<int, Article>)
    ensures forall id :: id in m ==> m[id].articleId == id
  {
    if items == [] then map[]
    else
      var a := items[|items| - 1];
      PageRowMap(articles, full, items[..|items| - 1])[a.id := Upsert(Stored(articles, full, a.id), a)]
  }

  /** The update and the insert batch together are the rows the page writes. */
  lemma {:induction false} BatchesRows(articles: map<int, Article>, full: bool, items: seq<RemoteArticle>)
    ensures RowMap(UpdatesAfter(articles, full, [], items)) + RowMap(InsertsAfter(articles, full, [], items))
            == PageRowMap(articles, full, items)
  {
    if items != [] {
      PageRowStep(articles, full, items);
      BatchesRows(articles, full, items[..|items| - 1]);
    }
  }

  /** The rows a page writes are those of its articles. */
  lemma {:induction false} PageRowKeys(articles: map<int, Article>, full: bool, items: seq<RemoteArticle>)
    ensures PageRowMap(articles, full, items).Keys == ArticleIds(items)
  {
    if items != [] {
      ItemsSplit(items);
      PageRowKeys(articles, full, items[..|items| - 1]);
    }
  }

  /**
   * In a page without repeated ids, every article of the page gets the row
   * its upsert produced (lines 173-192).
   */
  lemma {:induction false} PageRows(articles: map<int, Article>, full: bool, items: seq<RemoteArticle>)
    requires DistinctArticleIds(items)
    ensures var rows := PageRowMap(articles, full, items);
            forall i :: 0 <= i < |items| ==>
              items[i].id in rows && rows[items[i].id] == Upsert(Stored(articles, full, items[i].id), items[i])
  {
    if items != [] {
      var init := items[..|items| - 1];
      ItemsSplit(items);
      PageRows(articles, full, init);
      var f := (a: RemoteArticle) => Upsert(Stored(articles, full, a.id), a);
      PutLast(items, PageRowMap(articles, full, init), PageRowMap(articles, full, items), f);
    }
  }

  /** The tags of one article's joins to remove, none when it has no entry. */
  function RemovalOf(m: map<int, set<int>>, id: int): set<int> {
    if id in m then m[id] else {}
  }

  /** The tags of one article's joins to insert, none when it has no entry. */
  function AdditionOf(m: map<int, seq<int>>, id: int): seq<int> {
    if id in m then m[id] else []
  }

  /** The removal map names only articles of the page, repeated ids or not. */
  lemma {:induction false} RemovalsKeys(articles: map<int, Article>, joins: set<(int, int)>, full: bool,
                                        items: seq<RemoteArticle>)
    ensures RemovalsAfter(articles, joins, full, map[], items).Keys <= ArticleIds(items)
  {
    if items != [] {
      ItemsSplit(items);
      RemovalsKeys(articles, joins, full, items[..|items| - 1]);
    }
  }

  /** The insertion map names only articles of the page, repeated ids or not. */
  lemma {:induction false} AdditionsKeys(articles: map<int, Article>, joins: set<(int, int)>, full: bool,
                                         items: seq<RemoteArticle>)
    ensures AdditionsAfter(articles, joins, full, map[], items).Keys <= ArticleIds(items)
  {
    if items != [] {
      ItemsSplit(items);
      AdditionsKeys(articles, joins, full, items[..|items| - 1]);
    }
  }

  /**
   * The join removals of a page without repeated ids: an entry per article
   * that lost tags, holding exactly the tags it lost, and no empty entry.
   */
  lemma {:induction false} PageRemovals(articles: map<int, Article>, joins: set<(int, int)>, full: bool,
                                        items: seq<RemoteArticle>)
    requires DistinctArticleIds(items)
    ensures var r := RemovalsAfter(articles, joins, full, map[], items);
            && r.Keys <= ArticleIds(items)
            && (forall id :: id in r ==> r[id] != {})
            && forall i :: 0 <= i < |items| ==> RemovalOf(r, items[i].id) == DroppedTags(articles, joins, full, items[i])
  {
    if items != [] {
      var n := |items|;
      var init, a := items[..n - 1], items[n - 1];
      ItemsSplit(items);
      PageRemovals(articles, joins, full, init);
      var r := RemovalsAfter(articles, joins, full, map[], items);
      forall i | 0 <= i < n
        ensures RemovalOf(r, items[i].id) == DroppedTags(articles, joins, full, items[i])
      {
        if i < n - 1 {
          assert items[i] == init[i];
          assert items[i].id != a.id by {
            assert init[i] in init;
          }
        }
      }
    }
  }

  /** One article's step on the insertion map touches its own entry only. */
  lemma AdditionStep(articles: map<int, Article>, joins: set<(int, int)>, full: bool,
                     m: map<int, seq<int>>, a: RemoteArticle)
    ensures var m' := AddStep(articles, joins, full, m, a);
            && m'.Keys <= m.Keys + {a.id}
            && (forall id :: id in m' && id !in m ==> m'[id] != [])
            && (forall id :: id in m' && id in m && m'[id] != m[id] ==> m'[id] != [])
            && (a.id !in m ==> AdditionOf(m', a.id) == AddedTags(articles, joins, full, a))
            && forall id :: id != a.id ==> AdditionOf(m', id) == AdditionOf(m, id)
  {
  }

  /**
   * The join insertions of a page without repeated ids: an entry per article
   * that gained tags, holding exactly the tags it gained, and no empty entry.
   */
  lemma {:induction false} PageAdditions(articles: map<int, Article>, joins: set<(int, int)>, full: bool,
                                         items: seq<RemoteArticle>)
    requires DistinctArticleIds(items)
    ensures var r := AdditionsAfter(articles, joins, full, map[], items);
            && r.Keys <= ArticleIds(items)
            && (forall id :: id in r ==> r[id] != [])
            && forall i :: 0 <= i < |items| ==> AdditionOf(r, items[i].id) == AddedTags(articles, joins, full, items[i])
  {
    if items != [] {
      var n := |items|;
      var init, a := items[..n - 1], items[n - 1];
      ItemsSplit(items);
      PageAdditions(articles, joins, full, init);
      var prev := AdditionsAfter(articles, joins, full, map[], init);
      var r := AdditionsAfter(articles, joins, full, map[], items);
      assert r == AddStep(articles, joins, full, prev, a);
      AdditionStep(articles, joins, full, prev, a);
      forall i | 0 <= i < n
        ensures AdditionOf(r, items[i].id) == AddedTags(articles, joins, full, items[i])
      {
        if i < n - 1 {
          assert items[i] == init[i];
          assert items[i].id != a.id by {
            assert init[i] in init;
          }
        }
      }
    }
  }

  /** The remote tag lists of a page, one after the other. */
  function AllTags(items: seq<RemoteArticle>): seq<RemoteTag> {
    if items == [] then [] else AllTags(items[..|items| - 1]) + items[|items| - 1].tags
  }

  lemma TagListsInit(items: seq<RemoteArticle>)
    requires items != [] && TagListsDistinct(items)
    ensures TagListsDistinct(items[..|items| - 1]) && DistinctTagIds(items[|items| - 1].tags)
  {
    var init := items[..|items| - 1];
    forall i | 0 <= i < |init| ensures DistinctTagIds(init[i].tags) {
      assert init[i] == items[i];
    }
  }

  /** One article keeps the index in step with the tag table. */
  lemma IndexStep(stored: map<int, Text>, articles: map<int, Article>, joins: set<(int, int)>, full: bool,
                  idx: TagIndex, a: RemoteArticle)
    requires DistinctTagIds(a.tags) && TagsKnown(joins, idx)
    requires Synced(stored, idx) && WellQueued(idx)
    ensures var r := ReconcileTags(idx, LocalTags(articles, joins, full, a.id), a.tags).index;
            && r.labels == idx.labels + LabelsOf(a.tags)
            && Synced(stored, r) && WellQueued(r) && TagsKnown(joins, r)
  {
    var l := LocalTags(articles, joins, full, a.id);
    assert LocalOrNone(l) <= idx.labels.Keys;
    ReconcileTagsLabels(idx, l, a.tags);
    ReconcileTagsSynced(stored, idx, l, a.tags);
    ReconcileTagsWellQueued(idx, l, a.tags);
  }

  /**
   * The tag index (`tagMap` with the tag batches) after a page: every label
   * a remote list reports, a later one winning (lines 203-211 and 229-239),
   * queued consistently with the tag table.
   */
  lemma {:induction false} PageIndex(stored: map<int, Text>, articles: map<int, Article>, joins: set<(int, int)>,
                                     full: bool, idx: TagIndex, items: seq<RemoteArticle>)
    requires TagListsDistinct(items) && TagsKnown(joins, idx)
    requires Synced(stored, idx) && WellQueued(idx)
    ensures var r := IndexAfter(articles, joins, full, idx, items);
            && r.labels == idx.labels + LabelsOf(AllTags(items))
            && Synced(stored, r) && WellQueued(r) && TagsKnown(joins, r)
  {
    if items != [] {
      var init, a := items[..|items| - 1], items[|items| - 1];
      TagListsInit(items);
      PageIndex(stored, articles, joins, full, idx, init);
      IndexStep(stored, articles, joins, full, IndexAfter(articles, joins, full, idx, init), a);
      LabelsOfAppend(AllTags(init), a.tags);
      UnionAssoc(idx.labels, LabelsOf(AllTags(init)), LabelsOf(a.tags));
    }
  }

  /**
   * The joins one article gains are to the remote tags it had no join to
   * (lines 224-247), each once.
   */
  lemma AddedTagsSpec(articles: map<int, Article>, joins: set<(int, int)>, full: bool, a: RemoteArticle)
    requires DistinctTagIds(a.tags)
    ensures var l := LocalOrNone(LocalTags(articles, joins, full, a.id));
            && Elems(AddedTags(articles, joins, full, a)) == TagIds(a.tags) - l
            && NoDup(AddedTags(articles, joins, full, a))
  {
    var l := LocalOrNone(LocalTags(articles, joins, full, a.id));
    UnconsumedSpec(a.tags, l);
    IdsSpec(Unconsumed(a.tags, l));
  }

  lemma TagIdsAppend(xs: seq<RemoteTag>, ys: seq<RemoteTag>)
    ensures TagIds(xs + ys) == TagIds(xs) + TagIds(ys)
  {
    forall t | t in xs + ys ensures t in xs || t in ys {
    }
  }

  /** Every join a page inserts is of one of its articles and of one of its remote tags. */
  lemma {:induction false} PageAdditionsKnown(articles: map<int, Article>, joins: set<(int, int)>, full: bool,
                                              items: seq<RemoteArticle>)
    requires TagListsDistinct(items)
    ensures var m := AdditionsAfter(articles, joins, full, map[], items);
            forall id :: id in m ==> id in ArticleIds(items) && Elems(m[id]) <= TagIds(AllTags(items))
  {
    if items != [] {
      var init, a := items[..|items| - 1], items[|items| - 1];
      TagListsInit(items);
      ItemsSplit(items);
      PageAdditionsKnown(articles, joins, full, init);
      TagIdsAppend(AllTags(init), a.tags);
      AddedTagsSpec(articles, joins, full, a);
    }
  }

  /** The index after a page knows the tags it knew and every remote tag of the page. */
  lemma {:induction false} PageIndexKeys(articles: map<int, Article>, joins: set<(int, int)>, full: bool,
                                         idx: TagIndex, items: seq<RemoteArticle>)
    requires TagListsDistinct(items)
    ensures IndexAfter(articles, joins, full, idx, items).labels.Keys == idx.labels.Keys + TagIds(AllTags(items))
  {
    if items != [] {
      var init, a := items[..|items| - 1], items[|items| - 1];
      TagListsInit(items);
      PageIndexKeys(articles, joins, full, idx, init);
      TagIdsAppend(AllTags(init), a.tags);
      ReconcileTagsLabels(IndexAfter(articles, joins, full, idx, init), LocalTags(articles, joins, full, a.id), a.tags);
    }
  }

  /**
   * In FULL mode no stored row is looked up (lines 168-171): the update
   * batch stays empty and every row a page writes starts without downloaded
   * images.
   */
  lemma {:induction false} FullPageRows(articles: map<int, Article>, items: seq<RemoteArticle>)
    ensures UpdatesAfter(articles, true, [], items) == []
    ensures forall id :: id in PageRowMap(articles, true, items) ==> !PageRowMap(articles, true, items)[id].imagesDownloaded
  {
    if items != [] {
      FullPageRows(articles, items[..|items| - 1]);
    }
  }
}
