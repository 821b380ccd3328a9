# wallabag Android app: the article updater, modelled in Dafny

This project models `Updater`, the synchronisation engine of the wallabag
Android client. `Updater` mirrors the articles of a wallabag server into the
local database. The database has three tables: articles, tags, and
article–tag joins. `update` runs in one of two modes:

- FULL wipes the mirror, loads the server's whole tag list and inserts every article as new.
- FAST keeps the mirror and merges the articles changed since the stored watermark.

Inside one database transaction, `performUpdate` does the following:

- It builds an in-memory tag index (`tagMap`) that lives for the whole run.
- It walks the server's article pages.
- For each article it upserts the row and clears the "images downloaded" flag when the content changed.
- It diffs the article's local tags against its remote tags.
- It collects the page's inserts and updates into batches and writes them once the page is done.
- It keeps a running maximum of `updatedAt`, which becomes the new watermark.

The model is split into five modules:

- `Entities` (entities.dfy): the values that move between the server, the updater and the store.
- `TagResolution` (tags.dfy): the tag index, tag resolution, `findApiTagByID` and the join diff of one article.
- `ArticleReconciliation` (reconcile.dfy): the work on one article and on one page, and the batches it collects.
- `Sync` (sync.dfy): the store, the flush of a page, the page loop, the article query, and the `Updater` class with `Flush`, `ProcessPage`, `Preload`, `ProcessPages`, `PerformUpdate` and `Update`.
- `Mirror` (mirror.dfy): what a whole successful run leaves in the store, stated against the latest record the server gave for each article.

The loops of the source are methods. Each method is proved equal to a fold
function (`ConsumeAll`, `ResolveAll`, `ItemsStep`, `RunPages`, …), and the
lemmas state what those functions promise. The store is keyed by remote ids:

- an article row by its article id;
- a tag by its tag id, holding its label;
- a join by the pair (article id, tag id).

A nullable Java `String` is `Option<string>`, so `==` on it behaves like
`TextUtils.equals`. The server is a parameter of the run (`Server`). It
gives the tag list and, for each article query, the pages the page iterator
yields. Each page fetch either yields a page or fails (`Fetch`).

## Model

| member | source | states |
|---|---|---|
| `TagResolution.Relabel` | app/src/main/java/fr/gaulupeau/apps/Poche/network/Updater.java:235-239 | a known tag takes the remote label; it is queued for update (a set, so once) exactly when the label differed; the insert queue is untouched |
| `TagResolution.Resolve` | app/src/main/java/fr/gaulupeau/apps/Poche/network/Updater.java:228-239 | the index afterwards maps the id to the remote label; an unknown id is appended to the insert queue with the update queue unchanged; a known id goes through the label check and queues nothing for insertion |
| `TagResolution.ResolveShared` | app/src/main/java/fr/gaulupeau/apps/Poche/network/Updater.java:227-241 | two remote tags with one id resolve to one local Tag carrying the second label: the insert queue gains that id exactly once when the index did not know it and stays as it was otherwise; at most that id is queued for update |
| `TagResolution.ResolveWellQueued` | app/src/main/java/fr/gaulupeau/apps/Poche/network/Updater.java:230-234 | the tag batches only name tags of the index, and no tag is queued for insertion twice |
| `TagResolution.FirstWithIdSpec` | app/src/main/java/fr/gaulupeau/apps/Poche/network/Updater.java:337-344 | the search finds nothing exactly when no tag carries the id; otherwise it finds the first tag that does |
| `TagResolution.FindApiTagById` | app/src/main/java/fr/gaulupeau/apps/Poche/network/Updater.java:337-344 | the linear search returns the first tag with the id, or nothing |
| `TagResolution.UnconsumedSpec` | app/src/main/java/fr/gaulupeau/apps/Poche/network/Updater.java:199-203 | the remote tags left after consumption are exactly those whose id no local tag has, each id once |
| `TagResolution.RemoveUnconsumed` | app/src/main/java/fr/gaulupeau/apps/Poche/network/Updater.java:202 | removing a matched entry from the remaining remote list is the same as marking its id consumed |
| `TagResolution.ConsumeAllSpec` | app/src/main/java/fr/gaulupeau/apps/Poche/network/Updater.java:199-218 | after the local-tag loop, the remaining list is the remote list minus the local tags' entries; the dropped tags are exactly the local ones missing remotely, each once; the index holds the remote labels of the local tags, and exactly the relabelled ones are queued for update |
| `TagResolution.ConsumeLocalTags` | app/src/main/java/fr/gaulupeau/apps/Poche/network/Updater.java:199-213 | the loop over an existing article's local tags computes the fold `ConsumeAll` |
| `TagResolution.InsertRemainingTags` | app/src/main/java/fr/gaulupeau/apps/Poche/network/Updater.java:224-243 | each remaining remote tag becomes one join insertion, in order, and the index is the fold `ResolveAll` over them |
| `TagResolution.ResolveAllLabels` | app/src/main/java/fr/gaulupeau/apps/Poche/network/Updater.java:227-239 | after resolution the index maps every remote id to its remote label |
| `TagResolution.ResolveAllUpdates` | app/src/main/java/fr/gaulupeau/apps/Poche/network/Updater.java:235-239 | exactly the known tags whose label differed are queued for update |
| `TagResolution.ResolveAllInserts` | app/src/main/java/fr/gaulupeau/apps/Poche/network/Updater.java:230-234 | exactly the unknown ids are queued for insertion, in remote order |
| `TagResolution.NewIdsSpec` | app/src/main/java/fr/gaulupeau/apps/Poche/network/Updater.java:230-234 | the created tags are the remote ids the index lacked, each once |
| `TagResolution.ReconcileTagsJoins` | app/src/main/java/fr/gaulupeau/apps/Poche/network/Updater.java:194-247 | the dropped joins are exactly the local tags absent remotely; the added joins are exactly the remote tags absent locally, each once; the two are disjoint; the article's tag set afterwards equals the remote tag set |
| `TagResolution.ReconcileTagsSteady` | app/src/main/java/fr/gaulupeau/apps/Poche/network/Updater.java:199-247 | an existing article whose tags already are the remote ones gets no join removed and none added |
| `TagResolution.ReconcileNewArticle` | app/src/main/java/fr/gaulupeau/apps/Poche/network/Updater.java:219-247 | a new article starts with no tags, drops nothing and gains one join per remote tag, in remote order |
| `TagResolution.ReconcileTagsLabels` | app/src/main/java/fr/gaulupeau/apps/Poche/network/Updater.java:199-243 | after one article the index holds every remote label of its tags |
| `TagResolution.ReconcileTagsUpdates` | app/src/main/java/fr/gaulupeau/apps/Poche/network/Updater.java:208-239 | after one article exactly the known tags whose remote label differs are queued for update |
| `TagResolution.ReconcileTagsInserts` | app/src/main/java/fr/gaulupeau/apps/Poche/network/Updater.java:227-234 | after one article exactly the remote ids the index lacked are created, each once, and queued for insertion |
| `TagResolution.ReconcileTagsWellQueued` | app/src/main/java/fr/gaulupeau/apps/Poche/network/Updater.java:199-243 | one article's tag work keeps the tag batches well formed |
| `TagResolution.ReconcileTagsSynced` | app/src/main/java/fr/gaulupeau/apps/Poche/network/Updater.java:227-239 | one article's tag work keeps the index in step with the tag table: index = stored tags plus queued insertions, and a changed stored label is queued for update |
| `TagResolution.SyncedFlush` | app/src/main/java/fr/gaulupeau/apps/Poche/network/Updater.java:282-296 | writing the tag batches makes the tag table equal to the index |
| `ArticleReconciliation.UpsertSpec` | app/src/main/java/fr/gaulupeau/apps/Poche/network/Updater.java:173-192 | every field comes from the remote record; the images flag is false for a new row; for an existing row it stays set exactly when it was set and the content is unchanged |
| `ArticleReconciliation.UpsertIdempotent` | app/src/main/java/fr/gaulupeau/apps/Poche/network/Updater.java:173-192 | applying the same remote record twice gives the same row |
| `ArticleReconciliation.UpsertOnlyFlagFromStored` | app/src/main/java/fr/gaulupeau/apps/Poche/network/Updater.java:179-192 | the stored row influences only the images flag |
| `ArticleReconciliation.LoadTags` | app/src/main/java/fr/gaulupeau/apps/Poche/network/Updater.java:196 | an existing article's tag list holds each tag id its joins give it, once |
| `ArticleReconciliation.ReconcileArticleTags` | app/src/main/java/fr/gaulupeau/apps/Poche/network/Updater.java:194-248 | the tag part of one article computes `ReconcileTags`: dropped joins, added joins and the index afterwards |
| `ArticleReconciliation.ProcessArticle` | app/src/main/java/fr/gaulupeau/apps/Poche/network/Updater.java:163-263 | one article's work (lookup unless FULL, upsert, tags, watermark, event, routing) computes `ArticleStep` |
| `ArticleReconciliation.ProcessItems` | app/src/main/java/fr/gaulupeau/apps/Poche/network/Updater.java:163-264 | the loop over a page's articles computes the fold `ItemsStep` |
| `ArticleReconciliation.MaxUpdatedSpec` | app/src/main/java/fr/gaulupeau/apps/Poche/network/Updater.java:250-252 | the watermark is at least the start and every article's `updatedAt`, and equals one of them |
| `ArticleReconciliation.MaxUpdatedAppend` | app/src/main/java/fr/gaulupeau/apps/Poche/network/Updater.java:250-252 | the running maximum over two runs of articles is the maximum over both |
| `ArticleReconciliation.EventAfterKeys` | app/src/main/java/fr/gaulupeau/apps/Poche/network/Updater.java:254-261 | the event records every article of the page and keeps other entries; `invalidateAll` is set once any article was processed |
| `ArticleReconciliation.EventAfterKinds` | app/src/main/java/fr/gaulupeau/apps/Poche/network/Updater.java:254-261 | each article is recorded as UNSPECIFIED when it updated a stored row and as ADDED otherwise |
| `ArticleReconciliation.ItemsStepParts` | app/src/main/java/fr/gaulupeau/apps/Poche/network/Updater.java:163-264 | each part of the page state (batches, index, join maps, event, watermark) evolves independently of the others |
| `ArticleReconciliation.UpdatesKeys` | app/src/main/java/fr/gaulupeau/apps/Poche/network/Updater.java:263 | the update batch holds a row for exactly the articles found in the store |
| `ArticleReconciliation.InsertsKeys` | app/src/main/java/fr/gaulupeau/apps/Poche/network/Updater.java:263 | the insert batch holds a row for exactly the articles not found in the store |
| `ArticleReconciliation.PageRouting` | app/src/main/java/fr/gaulupeau/apps/Poche/network/Updater.java:263 | every updated row is of a stored article, every inserted row of a new one |
| `ArticleReconciliation.BatchesRows` | app/src/main/java/fr/gaulupeau/apps/Poche/network/Updater.java:266-280 | the update and insert batches together are the rows the page writes |
| `ArticleReconciliation.PageRowKeys` | app/src/main/java/fr/gaulupeau/apps/Poche/network/Updater.java:163-192 | a page writes a row for exactly its articles |
| `ArticleReconciliation.PageRows` | app/src/main/java/fr/gaulupeau/apps/Poche/network/Updater.java:173-192 | in a page without repeated ids every article gets the row its upsert produced |
| `ArticleReconciliation.PageRemovals` | app/src/main/java/fr/gaulupeau/apps/Poche/network/Updater.java:215-218 | the removal map has an entry only for articles that lost tags, never an empty one, holding exactly the lost tags |
| `ArticleReconciliation.PageAdditions` | app/src/main/java/fr/gaulupeau/apps/Poche/network/Updater.java:245-247 | the insertion map has an entry only for articles that gained tags, never an empty one, holding exactly the gained tags |
| `ArticleReconciliation.AddedTagsSpec` | app/src/main/java/fr/gaulupeau/apps/Poche/network/Updater.java:224-247 | an article gains joins to exactly the remote tags it had no join to, each once |
| `ArticleReconciliation.PageIndex` | app/src/main/java/fr/gaulupeau/apps/Poche/network/Updater.java:227-239 | after a page the index holds every label the page reported, a later one winning, and stays in step with the tag table |
| `ArticleReconciliation.PageIndexKeys` | app/src/main/java/fr/gaulupeau/apps/Poche/network/Updater.java:228-234 | after a page the index knows the tags it knew plus every remote tag of the page |
| `ArticleReconciliation.PageAdditionsKnown` | app/src/main/java/fr/gaulupeau/apps/Poche/network/Updater.java:241-247 | every join a page inserts links one of its articles to one of its remote tags |
| `ArticleReconciliation.FullPageRows` | app/src/main/java/fr/gaulupeau/apps/Poche/network/Updater.java:166-184 | in FULL mode no row is looked up: the update batch stays empty and no written row has downloaded images |
| `Sync.TagsOfApply` | app/src/main/java/fr/gaulupeau/apps/Poche/network/Updater.java:298-331 | after a flush an article's tags are its old tags minus its removals plus its insertions |
| `Sync.JoinsToDelete` | app/src/main/java/fr/gaulupeau/apps/Poche/network/Updater.java:298-314 | the joins deleted are exactly the stored joins that the removal map names |
| `Sync.JoinsToCreate` | app/src/main/java/fr/gaulupeau/apps/Poche/network/Updater.java:317-331 | the joins created are exactly the pairs the insertion map names |
| `Sync.ArticlesQuerySpec` | app/src/main/java/fr/gaulupeau/apps/Poche/network/Updater.java:121-135 | FULL sorts by creation with no cutoff; FAST sorts by update with cutoff `watermark / 1000`, truncated toward zero; both ascending, 30 per page |
| `Sync.PageRunFlush` | app/src/main/java/fr/gaulupeau/apps/Poche/network/Updater.java:156-331 | a page's effect is its collected batches, then their flush |
| `Sync.PageTagsSpec` | app/src/main/java/fr/gaulupeau/apps/Poche/network/Updater.java:282-296 | after a page the tag table holds every label the page reported and equals the in-memory index; no tag is deleted |
| `Sync.PageRunValid` | app/src/main/java/fr/gaulupeau/apps/Poche/network/Updater.java:266-331 | writing a page keeps every row under its own id and every join between stored rows |
| `Sync.JoinsOfOne` | app/src/main/java/fr/gaulupeau/apps/Poche/network/Updater.java:194-247 | after the flush one article's joins are exactly its remote tags |
| `Sync.PageJoinsSpec` | app/src/main/java/fr/gaulupeau/apps/Poche/network/Updater.java:194-331 | after a page every article of the page is joined to exactly the tags the server reported for it |
| `Sync.PageJoinsUntouched` | app/src/main/java/fr/gaulupeau/apps/Poche/network/Updater.java:298-331 | a page leaves the joins of every other article alone |
| `Sync.PageArticlesSpec` | app/src/main/java/fr/gaulupeau/apps/Poche/network/Updater.java:266-280 | after a page every article of the page holds its upserted row; every other row is unchanged |
| `Sync.MaxUpdatedIdempotent` | app/src/main/java/fr/gaulupeau/apps/Poche/network/Updater.java:250-252 | starting again from the watermark a page gave, the same page gives that watermark back |
| `Sync.RerunArticles` | app/src/main/java/fr/gaulupeau/apps/Poche/network/Updater.java:163-192 | a FAST page processed again over the article table it wrote leaves that table unchanged |
| `Sync.RerunTags` | app/src/main/java/fr/gaulupeau/apps/Poche/network/Updater.java:227-239 | a FAST page processed again over the tag table it wrote leaves that table unchanged |
| `Sync.RerunJoins` | app/src/main/java/fr/gaulupeau/apps/Poche/network/Updater.java:194-331 | a FAST page processed again over the join table it wrote leaves that table unchanged |
| `Sync.PageIdempotent` | app/src/main/java/fr/gaulupeau/apps/Poche/network/Updater.java:163-331 | syncing a FAST page again with no remote change mutates no row, tag or join, and from the watermark the first pass gave it gives that watermark back |
| `Sync.EmptyPageAnywhere` | app/src/main/java/fr/gaulupeau/apps/Poche/network/Updater.java:151-154 | a page without articles, wherever it sits in the run, changes nothing: the run gives the same outcome with that page removed |
| `Sync.PageRunEmpty` | app/src/main/java/fr/gaulupeau/apps/Poche/network/Updater.java:151-154 | processing no articles leaves the store, the event and the watermark as they were |
| `Sync.RunValid` | app/src/main/java/fr/gaulupeau/apps/Poche/network/Updater.java:145-332 | the page loop keeps the store consistent |
| `Sync.RunSucceeds` | app/src/main/java/fr/gaulupeau/apps/Poche/network/Updater.java:145-146 | the page loop succeeds exactly when every page fetch does |
| `Sync.RunWatermark` | app/src/main/java/fr/gaulupeau/apps/Poche/network/Updater.java:145-334 | the returned watermark is the running maximum of `updatedAt` over every processed article, from the start value; empty pages do not count |
| `Sync.RunEvent` | app/src/main/java/fr/gaulupeau/apps/Poche/network/Updater.java:254-261 | the run's event records every processed article, and invalidates everything once one was processed |
| `Sync.FullRunNoImages` | app/src/main/java/fr/gaulupeau/apps/Poche/network/Updater.java:168-184 | a FULL run writes only new rows, so no row has downloaded images |
| `Sync.UpdateRunSucceeds` | app/src/main/java/fr/gaulupeau/apps/Poche/network/Updater.java:56-78 | an update succeeds exactly when, in FULL mode, the tag list arrives, and every page fetch succeeds |
| `Sync.UpdateRunResult` | app/src/main/java/fr/gaulupeau/apps/Poche/network/Updater.java:46-87 | a successful update's watermark is the maximum `updatedAt` from 0 (FULL) or the stored watermark (FAST); its event lists every processed article and invalidates all when clean or when anything was processed; a clean run leaves no downloaded images; the store stays consistent |
| `Mirror.LatestDistinct` | app/src/main/java/fr/gaulupeau/apps/Poche/network/Updater.java:163-264 | in a list without repeated ids every record is its article's latest |
| `Mirror.LatestAppend` | app/src/main/java/fr/gaulupeau/apps/Poche/network/Updater.java:145-264 | over two runs of articles, a record of the second run is the latest for its article |
| `Mirror.PageReflects` | app/src/main/java/fr/gaulupeau/apps/Poche/network/Updater.java:163-331 | after a page without repeated ids each of its articles holds its record's fields and exactly its record's tags; every other article keeps its row and joins; the tag table gains every label the page reported |
| `Mirror.ReflectsChain` | app/src/main/java/fr/gaulupeau/apps/Poche/network/Updater.java:145-332 | two pages processed in a row bring the store up to date with both, a later record winning |
| `Mirror.ReflectsKeys` | app/src/main/java/fr/gaulupeau/apps/Poche/network/Updater.java:163-280 | after a run the article table holds the old articles plus the processed ones |
| `Mirror.RunReflects` | app/src/main/java/fr/gaulupeau/apps/Poche/network/Updater.java:145-332 | a successful page loop leaves each processed article with the fields and exactly the tags of its latest record, every other article with its row and joins, and the tag table with the start table plus every reported label |
| `Mirror.FullRunMirror` | app/src/main/java/fr/gaulupeau/apps/Poche/network/Updater.java:145-332 | a successful FULL page loop over an empty article table leaves exactly the processed articles, each with the row and the tags of its latest record and no downloaded images |
| `Mirror.UpdateRunMirror` | app/src/main/java/fr/gaulupeau/apps/Poche/network/Updater.java:46-87 | a successful FAST update brings every processed article up to date and leaves the rest alone; a successful FULL update leaves exactly the server's articles with their rows and tags, and a tag table made of the server's tag list plus every reported label |
| `Sync.Updater.constructor` | app/src/main/java/fr/gaulupeau/apps/Poche/network/Updater.java:39-44 | the updater starts on a consistent store with the given settings |
| `Sync.Updater.Flush` | app/src/main/java/fr/gaulupeau/apps/Poche/network/Updater.java:266-331 | the tables become the flush of the page's batches; settings unchanged |
| `Sync.Updater.ProcessPage` | app/src/main/java/fr/gaulupeau/apps/Poche/network/Updater.java:156-331 | one non-empty page's effect is `PageRun`; the tag map stays equal to the tag table; the store stays consistent |
| `Sync.Updater.Preload` | app/src/main/java/fr/gaulupeau/apps/Poche/network/Updater.java:99-113 | in FULL mode the server's tag list is written to the tag table, and a failed fetch ends the run; FAST does nothing; settings unchanged |
| `Sync.Updater.ProcessPages` | app/src/main/java/fr/gaulupeau/apps/Poche/network/Updater.java:145-332 | the page loop computes `RunPages`: on success the tables, event and watermark it gives, and nothing once a fetch fails; settings unchanged |
| `Sync.Updater.PerformUpdate` | app/src/main/java/fr/gaulupeau/apps/Poche/network/Updater.java:89-335 | the tag preload and the page loop compute `PerformRun`: on success the tables, event and watermark it gives, on failure nothing; settings unchanged |
| `Sync.Updater.Update` | app/src/main/java/fr/gaulupeau/apps/Poche/network/Updater.java:46-87 | a failed run rolls the tables back and leaves the settings alone; a successful run commits the tables and then writes the watermark, the run time and `firstSyncDone = true` |

## Left out

- The wallabag network client (`getTags`, `getArticlesBuilder`, `pageIterator`) is a parameter: a tag-list fetch and, per query, a sequence of page fetches. `UnsuccessfulResponseException` and `IOException` become one failure outcome that is not told apart.
- greenDAO details are left out: query builders, `insertInTx`, `updateInTx`, `deleteInTx` and the transaction calls. The tables are maps and sets keyed by remote ids, and the store-assigned local ids are abstracted away. The two-step join-deletion lookup deletes the stored pairs the removal map names. Commit keeps the new tables; rollback restores the saved ones.
- The Tag objects that `article.getTags()` returns are taken to be the ones the tag index holds, as greenDAO's identity scope gives them. Their labels are therefore read from the index.
- The page's `page`, `pages` and `total` fields are only logged by the source; they are carried but unused.
- Android `Log`, `SparseArray` and `TextUtils` are left out. `SparseArray` is a map, and `TextUtils.equals` is equality on `Option<string>`.
- `System.currentTimeMillis()` is the `now` parameter of `Update`.
- `Date.getTime` is an integer of milliseconds. Java `long` overflow is not modelled, because integers are unbounded here.
- The class `ArticlesChangedEvent` is not among the source files. The event is therefore represented by `invalidateAll` plus a map from article id to change type, a later entry winning. The `event != null` guard is always true when called from `update`, so it is dropped.
- `List.remove(null)` at line 202 is taken to be a no-op: remote tag lists hold no null entries.
- A tag created on a page and relabelled by a later article of the same page is queued both for insertion and for update. That Tag has no key yet (line 231), and it reaches `tagDao.updateInTx` (line 284) before `tagDao.insertInTx` (line 292). What greenDAO does with an update of a key-less row is not modelled: the model gives the tag its final label and the page succeeds, whatever the store would do.
- A repeated article id is handled as follows. In FAST mode an article the store already holds is looked up for each occurrence, and every occurrence goes to the update batch, so it gets no duplicate row. Across FAST pages a repeat is looked up again and updated, which the model follows.
- A stored article repeated within one FAST page is where the source and the model differ. With greenDAO's identity scope, the lookup at lines 169-170 returns the same `Article` object for every occurrence. So in the source each occurrence starts from the row and the cached tag list (lines 196, 216, 241) as the previous occurrence left them, and lines 217 and 246 file every occurrence under that one object. The model instead starts every occurrence from the row and the joins the store held when the page began (`Existing`, `LocalTags`, `ArticleStep`). Its removal and insertion maps keep, per article id, the last occurrence that removed or added something (`RemoveStep`, `AddStep`).
  - The images flag: in the source an occurrence compares its content with the previous occurrence's; in the model, with the stored row's. Stored content c0 with the flag set, then occurrences with c1 and c0, ends with the flag cleared in the source and still set in the model.
  - The joins: in the source each occurrence diffs against the tags the previous occurrence gave the article; in the model, against the stored joins. Stored tags {10}, then occurrences with tags [20] and [10], ends with the article joined to 10 in the source (with that join row inserted a second time) and to {20} in the model, since the second occurrence changes nothing relative to the stored joins.
  - The page-level lemmas about rows and joins, and `Mirror.RunReflects`, therefore assume each page has distinct ids.
- A new article repeated within one page, and any article repeated in a FULL run, gives duplicate rows in the source database. The store here is a map keyed by article id, so the last row wins. `Mirror.FullRunMirror` and `Mirror.UpdateRunMirror` therefore assume, in FULL mode, ids distinct across the whole run.
- A tag id repeated in the server's tag list (FULL mode) gives two tag rows in the source, one per entry (lines 106-110), while lines 115-116 keep the last one in `tagMap`. The tag table here is a map from tag id to label, so `PreloadTags` and `LabelsOf` keep one label per id, the last one, matching `tagMap` but not the duplicate rows. `Mirror.UpdateRunMirror`'s statement about the tag table relies on that.
- Store failures are not modelled: every batch write and every lookup succeeds, and a failed fetch is the only way a run fails.
- Mirror.RunReflects: states the images flag of a processed article only up to the flag, since it depends on the stored row and on earlier occurrences; for FULL runs `Mirror.FullRunMirror` states the whole row.
- ArticleReconciliation.ProcessItems: requires every remote tag list to be free of repeated ids, which the source does not demand; with repeats the source queues duplicate join inserts.
- ArticleReconciliation.ProcessArticle: requires distinct tag ids in the remote tag list, and that every tag of the article's stored joins is in the index (true whenever the store is consistent).
- ArticleReconciliation.ReconcileArticleTags: requires distinct tag ids in the remote tag list, and that the article's stored tags are in the index.
- Sync.Updater.ProcessPage: requires distinct tag ids in every remote tag list of the page.
- Sync.Updater.ProcessPages: requires distinct tag ids in every remote tag list of every fetched page.
- Sync.Updater.PerformUpdate: requires distinct tag ids in every remote tag list of every fetched page.
- Sync.Updater.Update: requires distinct tag ids in every remote tag list of every fetched page.
