/**
 * Values exchanged between the wallabag server, the updater and the local
 * store: remote tags, remote articles and pages of them, local article rows,
 * the change event handed to observers, and the persisted settings.
 */
module Entities {

  datatype Option<T> = None | Some(value: T)

  /** A Java string that may be null; `==` on it behaves as `TextUtils.equals`. */
  type Text = Option<string>

  /** A tag as the server reports it. */
  datatype RemoteTag = RemoteTag(id: int, tagLabel: Text)

  /** An article as the server reports it; `updatedAt` is in milliseconds. */
  datatype RemoteArticle = RemoteArticle(
    id: int, title: Text, content: Text, url: Text,
    updatedAt: int, archived: bool, starred: bool,
    tags: seq<RemoteTag>)

  /** One page of a paginated article query. */
  datatype Page = Page(page: int, pages: int, total: int, items: seq<RemoteArticle>)

  /** The outcome of one request to the server: a value, or an exception. */
  datatype Fetch<T> = Fetched(value: T) | Failed

  /** A row of the local article table, identified by its remote id. */
  datatype Article = Article(
    articleId: int, title: Text, content: Text, url: Text,
    updateDate: int, archive: bool, favorite: bool,
    imagesDownloaded: bool)

  datatype ChangeType = Added | Unspecified

  /** What a run reports to observers: invalidate everything, and per-article change kinds. */
  datatype ChangeEvent = ChangeEvent(invalidateAll: bool, changed: map<int, ChangeType>)

  /** The persisted settings the updater reads and writes. */
  datatype Settings = Settings(
    latestUpdatedItemTimestamp: int,
    latestUpdateRunTimestamp: int,
    firstSyncDone: bool)

  datatype UpdateType = Full | Fast

  datatype SortCriterion = Created | Updated

  datatype SortOrder = Ascending | Descending

  /** The article query sent to the server. */
  datatype Query = Query(sort: SortCriterion, order: SortOrder, since: Option<int>, perPage: int)

  /** The server as the updater sees it: the tag list and, per query, the pages it yields. */
  datatype Server = Server(tags: Fetch<seq<RemoteTag>>, articles: Query -> seq<Fetch<Page>>)

  function Elems(s: seq<int>): set<int> {
    set x | x in s
  }

  predicate NoDup(s: seq<int>) {
    forall i, j :: 0 <= i < j < |s| ==> s[i] != s[j]
  }

  function TagIds(ts: seq<RemoteTag>): set<int> {
    set t | t in ts :: t.id
  }

  predicate DistinctTagIds(ts: seq<RemoteTag>) {
    forall i, j :: 0 <= i < j < |ts| ==> ts[i].id != ts[j].id
  }

  /** The labels a tag list assigns, a later entry winning over an earlier one. */
  function LabelsOf(ts: seq<RemoteTag>): (m: map<int, Text>)
    ensures m.Keys == TagIds(ts)
  {
    if ts == [] then map[]
    else
      var last := ts[|ts| - 1];
      assert ts == ts[..|ts| - 1] + [last];
      LabelsOf(ts[..|ts| - 1])[last.id := last.tagLabel]
  }

  /** In a list without repeated ids, every tag's own label is the one the list assigns. */
  lemma {:induction false} LabelsOfMember(ts: seq<RemoteTag>, t: RemoteTag)
    requires DistinctTagIds(ts)
    requires t in ts
    ensures t.id in LabelsOf(ts) && LabelsOf(ts)[t.id] == t.tagLabel
  {
    var last := ts[|ts| - 1];
    if t != last {
      var init := ts[..|ts| - 1];
      assert ts == init + [last];
      assert t in init;
      var k :| 0 <= k < |init| && init[k] == t;
      assert ts[k] == t && t.id != last.id;
      LabelsOfMember(init, t);
    }
  }

  /** Labels of a sub-collection (by elements) of a list agree with the labels of the list. */
  lemma LabelsOfSub(sub: seq<RemoteTag>, sup: seq<RemoteTag>)
    requires DistinctTagIds(sub) && DistinctTagIds(sup)
    requires forall t :: t in sub ==> t in sup
    ensures forall k :: k in LabelsOf(sub) ==> k in LabelsOf(sup) && LabelsOf(sub)[k] == LabelsOf(sup)[k]
  {
    forall k | k in LabelsOf(sub)
      ensures k in LabelsOf(sup) && LabelsOf(sub)[k] == LabelsOf(sup)[k]
    {
      var t :| t in sub && t.id == k;
      LabelsOfMember(sub, t);
      LabelsOfMember(sup, t);
    }
  }

  /** The labels of two lists in a row: the second list wins. */
  lemma {:induction false} LabelsOfAppend(xs: seq<RemoteTag>, ys: seq<RemoteTag>)
    ensures LabelsOf(xs + ys) == LabelsOf(xs) + LabelsOf(ys)
  {
    if ys == [] {
      assert xs + ys == xs;
    } else {
      var last := ys[|ys| - 1];
      assert (xs + ys)[..|xs + ys| - 1] == xs + ys[..|ys| - 1];
      assert (xs + ys)[|xs + ys| - 1] == last;
      LabelsOfAppend(xs, ys[..|ys| - 1]);
    }
  }

  function Restrict<K, V>(m: map<K, V>, keys: set<K>): (r: map<K, V>)
    ensures r.Keys == m.Keys * keys
  {
    map k | k in m && k in keys :: m[k]
  }

  /** The keys whose value in `updated` exists in `before` and differs from it. */
  function Relabelled(before: map<int, Text>, updated: map<int, Text>): set<int> {
    set k | k in updated && k in before && before[k] != updated[k]
  }

  function ArticleIds(items: seq<RemoteArticle>): set<int> {
    set a | a in items :: a.id
  }

  predicate DistinctArticleIds(items: seq<RemoteArticle>) {
    forall i, j :: 0 <= i < j < |items| ==> items[i].id != items[j].id
  }
}
