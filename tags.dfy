/**
 * Tag resolution and the join diff of one article (Updater.java, the tag
 * parts of performUpdate and findApiTagByID).
 *
 * The run-wide tag index (`tagMap`) maps a remote tag id to its one local
 * Tag; a Tag's only mutable field updated here is its label, so the index is
 * kept as a map from remote id to label. The Tag objects that an existing
 * article lists are the ones the index holds, so their labels are read from it.
 */
module TagResolution {
  import opened Entities

  /** The tag index together with the page's two tag batches. */
  datatype TagIndex = TagIndex(labels: map<int, Text>, toUpdate: set<int>, toInsert: seq<int>)

  /** The batches only name tags the index holds, and no tag is queued for insertion twice. */
  predicate WellQueued(idx: TagIndex) {
    && idx.toUpdate <= idx.labels.Keys
    && Elems(idx.toInsert) <= idx.labels.Keys
    && NoDup(idx.toInsert)
  }

  /**
   * The label check of a tag the index already holds (lines 208-211 and
   * 235-239): a different remote label replaces the stored one and queues the
   * tag for update (a set, so at most once); an equal label changes nothing.
   */
  function Relabel(idx: TagIndex, id: int, newLabel: Text): (r: TagIndex)
    requires id in idx.labels
    ensures r.labels == idx.labels[id := newLabel]
    ensures r.toUpdate == if idx.labels[id] != newLabel then idx.toUpdate + {id} else idx.toUpdate
    ensures r.toInsert == idx.toInsert
  {
    if idx.labels[id] != newLabel then
      idx.(labels := idx.labels[id := newLabel], toUpdate := idx.toUpdate + {id})
    else
      assert idx.labels[id := newLabel] == idx.labels;
      idx
  }

  /**
   * Resolution of one remote tag against the index (lines 228-239): an unknown
   * id creates a Tag and queues it for insertion; a known id goes through the
   * label check.
   */
  function Resolve(idx: TagIndex, t: RemoteTag): (r: TagIndex)
    ensures r.labels == idx.labels[t.id := t.tagLabel]
    ensures t.id !in idx.labels ==> r.toInsert == idx.toInsert + [t.id] && r.toUpdate == idx.toUpdate
    ensures t.id in idx.labels ==>
              && r.toInsert == idx.toInsert
              && r.toUpdate == (if idx.labels[t.id] != t.tagLabel then idx.toUpdate + {t.id} else idx.toUpdate)
  {
    if t.id !in idx.labels then
      TagIndex(idx.labels[t.id := t.tagLabel], idx.toUpdate, idx.toInsert + [t.id])
    else
      Relabel(idx, t.id, t.tagLabel)
  }

  /** Resolution keeps the batches well formed. */
  lemma ResolveWellQueued(idx: TagIndex, t: RemoteTag)
    requires WellQueued(idx)
    ensures WellQueued(Resolve(idx, t))
  {
    if t.id !in idx.labels {
      ElemsAppend(idx.toInsert, t.id);
    }
  }

  /**
   * Two remote tags with the same id resolve to one local Tag: it is queued
   * for insertion exactly once when the index did not know it and not at all
   * otherwise, and the index holds the label seen last.
   */
  lemma ResolveShared(idx: TagIndex, t1: RemoteTag, t2: RemoteTag)
    requires t1.id == t2.id
    ensures var r := Resolve(Resolve(idx, t1), t2);
            && r.labels == idx.labels[t2.id := t2.tagLabel]
            && r.toInsert == idx.toInsert + (if t1.id in idx.labels then [] else [t1.id])
            && r.toUpdate <= idx.toUpdate + {t1.id}
  {
  }

  /** The first tag of the list with the given id, or None when no tag has it. */
  function FirstWithId(id: int, tags: seq<RemoteTag>): (r: Option<RemoteTag>) {
    if tags == [] then None
    else if tags[0].id == id then Some(tags[0])
    else FirstWithId(id, tags[1..])
  }

  /** `FirstWithId` finds a tag exactly when one carries the id, and then the first such tag. */
  lemma {:induction false} FirstWithIdSpec(id: int, tags: seq<RemoteTag>)
    ensures FirstWithId(id, tags).None? <==> id !in TagIds(tags)
    ensures FirstWithId(id, tags).Some? ==>
              exists k :: 0 <= k < |tags| && tags[k] == FirstWithId(id, tags).value && tags[k].id == id &&
                          forall j :: 0 <= j < k ==> tags[j].id != id
  {
    if tags != [] {
      FirstWithIdSpec(id, tags[1..]);
      assert forall u :: u in tags <==> u == tags[0] || u in tags[1..];
      if tags[0].id != id && FirstWithId(id, tags).Some? {
        var k :| 0 <= k < |tags[1..]| && tags[1..][k] == FirstWithId(id, tags).value && tags[1..][k].id == id &&
                  forall j :: 0 <= j < k ==> tags[1..][j].id != id;
        assert tags[k + 1] == tags[1..][k];
        assert forall j :: 0 < j < k + 1 ==> tags[j] == tags[1..][j - 1];
      }
    }
  }

  /** `findApiTagByID` (lines 337-344): a linear search for the first tag with the id. */
  method FindApiTagById(id: int, tags: seq<RemoteTag>) returns (r: Option<RemoteTag>)
    ensures r == FirstWithId(id, tags)
  {
    var i := 0;
    while i < |tags|
      invariant 0 <= i <= |tags|
      invariant FirstWithId(id, tags) == FirstWithId(id, tags[i..])
    {
      assert tags[i..][1..] == tags[i + 1..];
      if id == tags[i].id {
        return Some(tags[i]);
      }
      i := i + 1;
    }
    return None;
  }

  /** `List.remove(Object)`: the list without the first element equal to `x`. */
  function RemoveFirst(s: seq<RemoteTag>, x: RemoteTag): seq<RemoteTag> {
    if s == [] then []
    else if s[0] == x then s[1..]
    else [s[0]] + RemoveFirst(s[1..], x)
  }

  /** The entries of `ts` whose id is not in `done`, in order. */
  function Unconsumed(ts: seq<RemoteTag>, done: set<int>): (r: seq<RemoteTag>) {
    if ts == [] then []
    else (if ts[0].id in done then [] else [ts[0]]) + Unconsumed(ts[1..], done)
  }

  lemma DistinctCons(x: RemoteTag, s: seq<RemoteTag>)
    requires DistinctTagIds(s) && x.id !in TagIds(s)
    ensures DistinctTagIds([x] + s)
  {
    forall i, j | 0 <= i < j < |[x] + s| ensures ([x] + s)[i].id != ([x] + s)[j].id {
      assert ([x] + s)[j] == s[j - 1];
      if i > 0 {
        assert ([x] + s)[i] == s[i - 1];
      } else {
        assert s[j - 1] in s;
      }
    }
  }

  lemma TagIdsCons(ts: seq<RemoteTag>)
    requires ts != []
    ensures TagIds(ts) == {ts[0].id} + TagIds(ts[1..])
    ensures forall u :: u in ts <==> u == ts[0] || u in ts[1..]
  {
    assert ts == [ts[0]] + ts[1..];
  }

  /** `Unconsumed` keeps the entries with an id outside `done`, and no id twice. */
  lemma {:induction false} UnconsumedSpec(ts: seq<RemoteTag>, done: set<int>)
    requires DistinctTagIds(ts)
    ensures forall u :: u in Unconsumed(ts, done) <==> u in ts && u.id !in done
    ensures TagIds(Unconsumed(ts, done)) == TagIds(ts) - done
    ensures DistinctTagIds(Unconsumed(ts, done))
  {
    if ts != [] {
      TagIdsCons(ts);
      UnconsumedSpec(ts[1..], done);
      var rest := Unconsumed(ts[1..], done);
      if ts[0].id in done {
        assert Unconsumed(ts, done) == rest;
      } else {
        assert Unconsumed(ts, done) == [ts[0]] + rest;
        TagIdsCons([ts[0]] + rest);
        assert ([ts[0]] + rest)[1..] == rest;
        assert ts[0].id !in TagIds(ts[1..]) by {
          forall u | u in ts[1..] ensures u.id != ts[0].id {
            var k :| 0 <= k < |ts[1..]| && ts[1..][k] == u;
            assert ts[k + 1] == u;
          }
        }
        DistinctCons(ts[0], rest);
      }
    }
  }

  lemma {:induction false} UnconsumedNone(ts: seq<RemoteTag>)
    ensures Unconsumed(ts, {}) == ts
  {
    if ts != [] {
      UnconsumedNone(ts[1..]);
      assert ts == [ts[0]] + ts[1..];
    }
  }

  /** An id that no entry carries does not change `Unconsumed`. */
  lemma {:induction false} UnconsumedIgnores(ts: seq<RemoteTag>, done: set<int>, x: int)
    requires x !in TagIds(ts)
    ensures Unconsumed(ts, done + {x}) == Unconsumed(ts, done)
  {
    if ts != [] {
      TagIdsCons(ts);
      UnconsumedIgnores(ts[1..], done, x);
    }
  }

  /** Removing a consumed entry from the unconsumed list is consuming its id. */
  lemma {:induction false} RemoveUnconsumed(ts: seq<RemoteTag>, done: set<int>, t: RemoteTag)
    requires DistinctTagIds(ts) && t in ts && t.id !in done
    ensures RemoveFirst(Unconsumed(ts, done), t) == Unconsumed(ts, done + {t.id})
  {
    TagIdsCons(ts);
    var rest := Unconsumed(ts[1..], done);
    assert DistinctTagIds(ts[1..]) by {
      forall i, j | 0 <= i < j < |ts[1..]| ensures ts[1..][i].id != ts[1..][j].id {
        assert ts[1..][i] == ts[i + 1] && ts[1..][j] == ts[j + 1];
      }
    }
    if ts[0] == t {
      assert t.id !in TagIds(ts[1..]) by {
        forall u | u in ts[1..] ensures u.id != t.id {
          var k :| 0 <= k < |ts[1..]| && ts[1..][k] == u;
          assert ts[k + 1] == u;
        }
      }
      assert Unconsumed(ts, done) == [t] + rest;
      assert ([t] + rest)[1..] == rest;
      UnconsumedIgnores(ts[1..], done, t.id);
    } else {
      assert ts[0].id != t.id by {
        var k :| 0 <= k < |ts[1..]| && ts[1..][k] == t;
        assert ts[k + 1] == t;
      }
      RemoveUnconsumed(ts[1..], done, t);
      if ts[0].id !in done {
        assert Unconsumed(ts, done) == [ts[0]] + rest;
        assert ([ts[0]] + rest)[0] == ts[0] && ([ts[0]] + rest)[1..] == rest;
      } else {
        assert Unconsumed(ts, done) == rest;
      }
    }
  }

  lemma ElemsAppend(s: seq<int>, x: int)
    ensures Elems(s + [x]) == Elems(s) + {x}
    ensures NoDup(s) && x !in Elems(s) ==> NoDup(s + [x])
  {
    assert forall y :: y in s + [x] <==> y in s || y == x;
  }

  lemma ElemsEmpty(s: seq<int>)
    ensures Elems(s) == {} ==> s == []
  {
    if s != [] {
      assert s[0] in Elems(s);
    }
  }

  lemma RestrictAdd(m: map<int, Text>, keys: set<int>, k: int)
    ensures k in m ==> Restrict(m, keys + {k}) == Restrict(m, keys)[k := m[k]]
    ensures k !in m ==> Restrict(m, keys + {k}) == Restrict(m, keys)
  {
  }

  lemma RelabelledAdd(before: map<int, Text>, updated: map<int, Text>, k: int, v: Text)
    requires k !in updated
    ensures Relabelled(before, updated[k := v]) ==
            Relabelled(before, updated) + (if k in before && before[k] != v then {k} else {})
  {
  }

  /** What the loop over local tags has done after visiting the local tags in `done`. */
  ghost predicate Consumed(idx: TagIndex, remote: seq<RemoteTag>, done: set<int>,
                           remaining: seq<RemoteTag>, dropped: seq<int>, r: TagIndex)
  {
    && remaining == Unconsumed(remote, done)
    && Elems(dropped) == done - TagIds(remote) && NoDup(dropped)
    && r == ConsumedIndex(idx, remote, done)
  }

  /** The index once the local tags `done` of an existing article have taken their remote labels. */
  function ConsumedIndex(idx: TagIndex, remote: seq<RemoteTag>, done: set<int>): TagIndex {
    TagIndex(idx.labels + Restrict(LabelsOf(remote), done),
             idx.toUpdate + Relabelled(idx.labels, Restrict(LabelsOf(remote), done)),
             idx.toInsert)
  }

  lemma ConsumeLabels(idx: TagIndex, remote: seq<RemoteTag>, done: set<int>, r: TagIndex, t: RemoteTag)
    requires DistinctTagIds(remote) && t in remote && t.id in r.labels
    requires r.labels == idx.labels + Restrict(LabelsOf(remote), done)
    ensures Relabel(r, t.id, t.tagLabel).labels == idx.labels + Restrict(LabelsOf(remote), done + {t.id})
  {
    LabelsOfMember(remote, t);
    RestrictAdd(LabelsOf(remote), done, t.id);
    UnionUpdate(idx.labels, Restrict(LabelsOf(remote), done), t.id, t.tagLabel);
  }

  /** Updating a union at one key is updating its right operand there. */
  lemma UnionUpdate<K, V>(a: map<K, V>, b: map<K, V>, k: K, v: V)
    ensures (a + b)[k := v] == a + b[k := v]
  {
  }

  lemma ConsumeUpdates(idx: TagIndex, remote: seq<RemoteTag>, done: set<int>, r: TagIndex, t: RemoteTag)
    requires DistinctTagIds(remote) && t in remote && t.id !in done
    requires t.id in r.labels && t.id in idx.labels && r.labels[t.id] == idx.labels[t.id]
    requires r.toUpdate == idx.toUpdate + Relabelled(idx.labels, Restrict(LabelsOf(remote), done))
    ensures Relabel(r, t.id, t.tagLabel).toUpdate
            == idx.toUpdate + Relabelled(idx.labels, Restrict(LabelsOf(remote), done + {t.id}))
  {
    LabelsOfMember(remote, t);
    RestrictAdd(LabelsOf(remote), done, t.id);
    RelabelledAdd(idx.labels, Restrict(LabelsOf(remote), done), t.id, t.tagLabel);
  }

  /** A local tag whose id an unconsumed remote entry carries keeps the loop's equations when consumed. */
  lemma KeepStep(idx: TagIndex, remote: seq<RemoteTag>, done: set<int>,
                 remaining: seq<RemoteTag>, dropped: seq<int>, r: TagIndex, t: RemoteTag)
    requires DistinctTagIds(remote)
    requires Consumed(idx, remote, done, remaining, dropped, r)
    requires t in remaining && t.id in idx.labels
    ensures t.id in r.labels
    ensures Consumed(idx, remote, done + {t.id}, RemoveFirst(remaining, t), dropped, Relabel(r, t.id, t.tagLabel))
  {
    assert t in remote && t.id !in done by {
      UnconsumedSpec(remote, done);
    }
    assert t.id in r.labels && r.labels[t.id] == idx.labels[t.id];
    var r' := Relabel(r, t.id, t.tagLabel);
    assert RemoveFirst(remaining, t) == Unconsumed(remote, done + {t.id}) by {
      RemoveUnconsumed(remote, done, t);
    }
    assert r'.labels == idx.labels + Restrict(LabelsOf(remote), done + {t.id}) by {
      ConsumeLabels(idx, remote, done, r, t);
    }
    assert r'.toUpdate == idx.toUpdate + Relabelled(idx.labels, Restrict(LabelsOf(remote), done + {t.id})) by {
      ConsumeUpdates(idx, remote, done, r, t);
    }
    assert (done + {t.id}) - TagIds(remote) == done - TagIds(remote) by {
      assert t in remote;
      MinusKnown(done, TagIds(remote), t.id);
    }
  }

  lemma MinusKnown(d: set<int>, s: set<int>, x: int)
    requires x in s
    ensures (d + {x}) - s == d - s
  {
  }

  /** A local tag with no unconsumed remote entry does not occur in the remote list, and is dropped. */
  lemma DropStep(idx: TagIndex, remote: seq<RemoteTag>, done: set<int>,
                 remaining: seq<RemoteTag>, dropped: seq<int>, r: TagIndex, id: int)
    requires Consumed(idx, remote, done, remaining, dropped, r)
    requires id !in done && id !in TagIds(remaining)
    requires DistinctTagIds(remote)
    ensures id !in TagIds(remote)
    ensures Consumed(idx, remote, done + {id}, remaining, dropped + [id], r)
  {
    UnconsumedSpec(remote, done);
    assert id !in TagIds(remote);
    UnconsumedIgnores(remote, done, id);
    RestrictAdd(LabelsOf(remote), done, id);
    ElemsAppend(dropped, id);
  }

  /** The state of the loop over an existing article's local tags. */
  datatype Consuming = Consuming(remaining: seq<RemoteTag>, dropped: seq<int>, index: TagIndex)

  /**
   * One local tag (lines 200-212): its first remote entry, if any, is removed
   * from the remote list and its label brought up to date; a local tag
   * without a remote entry is dropped.
   */
  function ConsumeStep(st: Consuming, id: int): (r: Consuming)
    requires id in st.index.labels
    ensures r.index.labels.Keys == st.index.labels.Keys
  {
    match FirstWithId(id, st.remaining)
    case None => st.(dropped := st.dropped + [id])
    case Some(t) => Consuming(RemoveFirst(st.remaining, t), st.dropped, Relabel(st.index, id, t.tagLabel))
  }

  /** The loop over the local tags `ids`, in order. */
  function ConsumeAll(st: Consuming, ids: seq<int>): (r: Consuming)
    requires Elems(ids) <= st.index.labels.Keys
    ensures r.index.labels.Keys == st.index.labels.Keys
  {
    if ids == [] then st
    else
      var init := ids[..|ids| - 1];
      assert Elems(init) <= Elems(ids);
      ConsumeStep(ConsumeAll(st, init), ids[|ids| - 1])
  }

  lemma LastStep(ids: seq<int>)
    requires ids != []
    ensures Elems(ids) == Elems(ids[..|ids| - 1]) + {ids[|ids| - 1]}
    ensures NoDup(ids) ==> NoDup(ids[..|ids| - 1]) && ids[|ids| - 1] !in Elems(ids[..|ids| - 1])
  {
    assert ids == ids[..|ids| - 1] + [ids[|ids| - 1]];
  }

  /**
   * After the local-tag loop: `remaining` is the remote list without the
   * entries of local tags, `dropped` the local tags absent from it, and the
   * index carries the remote labels of the local tags.
   */
  lemma {:induction false} ConsumeAllSpec(idx: TagIndex, remote: seq<RemoteTag>, ids: seq<int>)
    requires DistinctTagIds(remote) && NoDup(ids) && Elems(ids) <= idx.labels.Keys
    ensures var st := ConsumeAll(Consuming(remote, [], idx), ids);
            Consumed(idx, remote, Elems(ids), st.remaining, st.dropped, st.index)
  {
    if ids == [] {
      assert Elems(ids) == {};
      ConsumedStart(idx, remote);
    } else {
      var init, id := ids[..|ids| - 1], ids[|ids| - 1];
      LastStep(ids);
      ConsumeAllSpec(idx, remote, init);
      ConsumeStepSpec(idx, remote, Elems(init), ConsumeAll(Consuming(remote, [], idx), init), id);
    }
  }

  /** Before the loop nothing is consumed or dropped and the index is unchanged. */
  lemma ConsumedStart(idx: TagIndex, remote: seq<RemoteTag>)
    ensures Consumed(idx, remote, {}, remote, [], idx)
  {
    assert Restrict(LabelsOf(remote), {}) == map[];
    assert idx.labels + map[] == idx.labels;
    assert Relabelled(idx.labels, map[]) == {};
    UnconsumedNone(remote);
  }

  /** One more local tag, found or not, keeps the loop's equations. */
  lemma ConsumeStepSpec(idx: TagIndex, remote: seq<RemoteTag>, done: set<int>, st: Consuming, id: int)
    requires DistinctTagIds(remote)
    requires Consumed(idx, remote, done, st.remaining, st.dropped, st.index)
    requires id !in done && id in idx.labels && id in st.index.labels
    ensures var r := ConsumeStep(st, id);
            Consumed(idx, remote, done + {id}, r.remaining, r.dropped, r.index)
  {
    FirstWithIdSpec(id, st.remaining);
    match FirstWithId(id, st.remaining)
    case None =>
      DropStep(idx, remote, done, st.remaining, st.dropped, st.index, id);
    case Some(t) =>
      assert t in st.remaining && t.id == id;
      KeepStep(idx, remote, done, st.remaining, st.dropped, st.index, t);
  }

  /** The loop over an existing article's local tags (lines 199-213). */
  method ConsumeLocalTags(local: seq<int>, remote: seq<RemoteTag>, idx: TagIndex)
    returns (remaining: seq<RemoteTag>, dropped: seq<int>, r: TagIndex)
    requires Elems(local) <= idx.labels.Keys
    ensures Consuming(remaining, dropped, r) == ConsumeAll(Consuming(remote, [], idx), local)
  {
    remaining, dropped, r := remote, [], idx;
    for i := 0 to |local|
      invariant Elems(local[..i]) <= idx.labels.Keys
      invariant Consuming(remaining, dropped, r) == ConsumeAll(Consuming(remote, [], idx), local[..i])
    {
      var id := local[i];
      assert local[..i + 1][..i] == local[..i];
      var apiTag := FindApiTagById(id, remaining);
      match apiTag {
        case None =>
          dropped := dropped + [id];
        case Some(t) =>
          remaining := RemoveFirst(remaining, t);
          r := Relabel(r, id, t.tagLabel);
      }
    }
    assert local[..|local|] == local;
  }

  /** One more element of a list without repeated ids extends its labels and ids by a fresh id. */
  lemma PrefixStep(ts: seq<RemoteTag>, i: nat)
    requires DistinctTagIds(ts) && i < |ts|
    ensures ts[..i + 1] == ts[..i] + [ts[i]]
    ensures LabelsOf(ts[..i + 1]) == LabelsOf(ts[..i])[ts[i].id := ts[i].tagLabel]
    ensures TagIds(ts[..i + 1]) == TagIds(ts[..i]) + {ts[i].id}
    ensures ts[i].id !in TagIds(ts[..i])
  {
    assert ts[..i + 1][..i] == ts[..i];
    forall u | u in ts[..i] ensures u.id != ts[i].id {
      var k :| 0 <= k < i && ts[k] == u;
    }
  }

  lemma InsertLabels(idx: TagIndex, pre: seq<RemoteTag>, r: TagIndex, t: RemoteTag)
    requires r.labels == idx.labels + LabelsOf(pre)
    ensures Resolve(r, t).labels == idx.labels + LabelsOf(pre + [t])
  {
    assert (pre + [t])[..|pre|] == pre;
  }

  lemma InsertUpdates(idx: TagIndex, pre: seq<RemoteTag>, r: TagIndex, t: RemoteTag)
    requires r.labels == idx.labels + LabelsOf(pre)
    requires r.toUpdate == idx.toUpdate + Relabelled(idx.labels, LabelsOf(pre))
    requires t.id !in TagIds(pre)
    ensures Resolve(r, t).toUpdate == idx.toUpdate + Relabelled(idx.labels, LabelsOf(pre + [t]))
  {
    assert (pre + [t])[..|pre|] == pre;
    RelabelledAdd(idx.labels, LabelsOf(pre), t.id, t.tagLabel);
  }

  /** The loop over the remote tags left unconsumed, resolving each in order (lines 226-240). */
  function ResolveAll(idx: TagIndex, ts: seq<RemoteTag>): TagIndex {
    if ts == [] then idx else Resolve(ResolveAll(idx, ts[..|ts| - 1]), ts[|ts| - 1])
  }

  /** The ids of `ts` not in `known`, in order: the Tags a resolution creates. */
  function NewIds(known: set<int>, ts: seq<RemoteTag>): seq<int> {
    if ts == [] then []
    else
      var last := ts[|ts| - 1];
      NewIds(known, ts[..|ts| - 1]) + (if last.id in known then [] else [last.id])
  }

  lemma {:induction false} NewIdsSpec(known: set<int>, ts: seq<RemoteTag>)
    requires DistinctTagIds(ts)
    ensures Elems(NewIds(known, ts)) == TagIds(ts) - known
    ensures NoDup(NewIds(known, ts))
  {
    if ts != [] {
      var n := |ts|;
      var t := ts[n - 1];
      PrefixStep(ts, n - 1);
      assert ts[..n - 1 + 1] == ts;
      NewIdsSpec(known, ts[..n - 1]);
      var pre := NewIds(known, ts[..n - 1]);
      assert TagIds(ts) == TagIds(ts[..n - 1]) + {t.id};
      if t.id in known {
        assert NewIds(known, ts) == pre + [] == pre;
      } else {
        assert NewIds(known, ts) == pre + [t.id];
        ElemsAppend(pre, t.id);
      }
    }
  }

  /** After resolution the index holds the remote labels, the last entry per id winning. */
  lemma {:induction false} ResolveAllLabels(idx: TagIndex, ts: seq<RemoteTag>)
    ensures ResolveAll(idx, ts).labels == idx.labels + LabelsOf(ts)
  {
    if ts == [] {
      assert idx.labels + map[] == idx.labels;
    } else {
      var n := |ts|;
      assert ts == ts[..n - 1] + [ts[n - 1]];
      ResolveAllLabels(idx, ts[..n - 1]);
      InsertLabels(idx, ts[..n - 1], ResolveAll(idx, ts[..n - 1]), ts[n - 1]);
    }
  }

  /** Exactly the Tags the index held under a different label are queued for update. */
  lemma {:induction false} ResolveAllUpdates(idx: TagIndex, ts: seq<RemoteTag>)
    requires DistinctTagIds(ts)
    ensures ResolveAll(idx, ts).toUpdate == idx.toUpdate + Relabelled(idx.labels, LabelsOf(ts))
  {
    if ts == [] {
      assert Relabelled(idx.labels, map[]) == {};
    } else {
      var n := |ts|;
      PrefixStep(ts, n - 1);
      assert ts[..n - 1 + 1] == ts;
      ResolveAllLabels(idx, ts[..n - 1]);
      ResolveAllUpdates(idx, ts[..n - 1]);
      InsertUpdates(idx, ts[..n - 1], ResolveAll(idx, ts[..n - 1]), ts[n - 1]);
    }
  }

  lemma InsertCreated(idx: TagIndex, pre: seq<RemoteTag>, r: TagIndex, t: RemoteTag)
    requires r.labels == idx.labels + LabelsOf(pre)
    requires r.toInsert == idx.toInsert + NewIds(idx.labels.Keys, pre)
    requires t.id !in TagIds(pre)
    ensures Resolve(r, t).toInsert == idx.toInsert + NewIds(idx.labels.Keys, pre + [t])
  {
    assert (pre + [t])[..|pre|] == pre;
    assert t.id in r.labels <==> t.id in idx.labels;
  }

  /** Exactly the Tags the index did not hold are created and queued for insertion, in order. */
  lemma {:induction false} ResolveAllInserts(idx: TagIndex, ts: seq<RemoteTag>)
    requires DistinctTagIds(ts)
    ensures ResolveAll(idx, ts).toInsert == idx.toInsert + NewIds(idx.labels.Keys, ts)
  {
    if ts != [] {
      var n := |ts|;
      PrefixStep(ts, n - 1);
      assert ts == ts[..n - 1] + [ts[n - 1]];
      ResolveAllLabels(idx, ts[..n - 1]);
      ResolveAllInserts(idx, ts[..n - 1]);
      InsertCreated(idx, ts[..n - 1], ResolveAll(idx, ts[..n - 1]), ts[n - 1]);
    }
  }

  /** Resolving keeps the batches well formed. */
  lemma {:induction false} ResolveAllWellQueued(idx: TagIndex, ts: seq<RemoteTag>)
    requires WellQueued(idx)
    ensures WellQueued(ResolveAll(idx, ts))
  {
    if ts != [] {
      ResolveAllWellQueued(idx, ts[..|ts| - 1]);
      ResolveWellQueued(ResolveAll(idx, ts[..|ts| - 1]), ts[|ts| - 1]);
    }
  }

  /**
   * The loop over the remote tags left unconsumed (lines 224-243): each is
   * resolved against the index and becomes a new join of the article, in order.
   */
  method InsertRemainingTags(remaining: seq<RemoteTag>, idx: TagIndex)
    returns (added: seq<int>, r: TagIndex)
    ensures |added| == |remaining| && forall k :: 0 <= k < |remaining| ==> added[k] == remaining[k].id
    ensures r == ResolveAll(idx, remaining)
  {
    added, r := [], idx;
    for i := 0 to |remaining|
      invariant |added| == i && forall k :: 0 <= k < i ==> added[k] == remaining[k].id
      invariant r == ResolveAll(idx, remaining[..i])
    {
      var t := remaining[i];
      assert remaining[..i + 1][..i] == remaining[..i];
      r := Resolve(r, t);
      added := added + [t.id];
    }
    assert remaining[..|remaining|] == remaining;
  }

  /** The ids of a tag list, in order. */
  function Ids(ts: seq<RemoteTag>): seq<int> {
    seq(|ts|, k requires 0 <= k < |ts| => ts[k].id)
  }

  lemma IdsSpec(ts: seq<RemoteTag>)
    requires DistinctTagIds(ts)
    ensures Elems(Ids(ts)) == TagIds(ts) && NoDup(Ids(ts))
  {
    forall x | x in TagIds(ts) ensures x in Elems(Ids(ts)) {
      var t :| t in ts && t.id == x;
      var k :| 0 <= k < |ts| && ts[k] == t;
      assert Ids(ts)[k] == x;
    }
  }

  /**
   * The tag part of one article's reconciliation (lines 194-248): the local
   * tags whose joins are dropped, the tags whose joins are added, in the
   * order of the remote list, and the index afterwards. `local` is the set of
   * tag ids an existing article has, and None for a new article.
   */
  datatype TagOutcome = TagOutcome(dropped: set<int>, added: seq<int>, index: TagIndex)

  function LocalOrNone(local: Option<set<int>>): set<int> {
    if local.Some? then local.value else {}
  }

  function ReconcileTags(idx: TagIndex, local: Option<set<int>>, remote: seq<RemoteTag>): (r: TagOutcome) {
    var l := LocalOrNone(local);
    var rest := Unconsumed(remote, l);
    TagOutcome(l - TagIds(remote), Ids(rest), ResolveAll(ConsumedIndex(idx, remote, l), rest))
  }

  /**
   * After reconciliation the article's tag ids are exactly the remote ones:
   * the dropped joins are the local tags missing remotely, the added joins the
   * remote tags missing locally, and the two never share an id.
   */
  lemma ReconcileTagsJoins(idx: TagIndex, local: Option<set<int>>, remote: seq<RemoteTag>)
    requires DistinctTagIds(remote)
    ensures var o, l := ReconcileTags(idx, local, remote), LocalOrNone(local);
            && o.dropped == l - TagIds(remote)
            && Elems(o.added) == TagIds(remote) - l && NoDup(o.added)
            && o.dropped !! Elems(o.added)
            && (l - o.dropped) + Elems(o.added) == TagIds(remote)
  {
    var l := LocalOrNone(local);
    UnconsumedSpec(remote, l);
    IdsSpec(Unconsumed(remote, l));
  }

  /**
   * Reconciling an existing article whose tags already are the remote ones
   * drops no join and adds none, whatever order the remote list has.
   */
  lemma ReconcileTagsSteady(idx: TagIndex, remote: seq<RemoteTag>)
    requires DistinctTagIds(remote)
    ensures var o := ReconcileTags(idx, Some(TagIds(remote)), remote);
            o.dropped == {} && o.added == []
  {
    ReconcileTagsJoins(idx, Some(TagIds(remote)), remote);
    ElemsEmpty(ReconcileTags(idx, Some(TagIds(remote)), remote).added);
  }

  /** A new article gets no dropped join and one added join per remote tag, in order. */
  lemma ReconcileNewArticle(idx: TagIndex, remote: seq<RemoteTag>)
    ensures ReconcileTags(idx, None, remote) == TagOutcome({}, Ids(remote), ResolveAll(idx, remote))
  {
    UnconsumedNone(remote);
    assert Restrict(LabelsOf(remote), {}) == map[];
    assert idx.labels + map[] == idx.labels;
    assert Relabelled(idx.labels, map[]) == {};
    assert ConsumedIndex(idx, remote, {}) == idx;
  }

  /** The remote labels split into those of the local tags and those of the unconsumed entries. */
  lemma LabelsSplit(remote: seq<RemoteTag>, l: set<int>)
    requires DistinctTagIds(remote)
    ensures LabelsOf(remote) == Restrict(LabelsOf(remote), l) + LabelsOf(Unconsumed(remote, l))
    ensures LabelsOf(Unconsumed(remote, l)).Keys == TagIds(remote) - l
  {
    UnconsumedSpec(remote, l);
    LabelsOfSub(Unconsumed(remote, l), remote);
  }

  lemma RelabelledUnion(before: map<int, Text>, a: map<int, Text>, b: map<int, Text>)
    requires a.Keys !! b.Keys
    ensures Relabelled(before, a + b) == Relabelled(before, a) + Relabelled(before, b)
  {
  }

  lemma RelabelledAgree(x: map<int, Text>, y: map<int, Text>, b: map<int, Text>)
    requires forall k :: k in b ==> (k in x <==> k in y) && (k in x ==> x[k] == y[k])
    ensures Relabelled(x, b) == Relabelled(y, b)
  {
    forall k ensures k in Relabelled(x, b) <==> k in Relabelled(y, b) {
      if k in b && k in x {
        assert x[k] == y[k];
      }
    }
  }

  /** The index after one article holds the remote labels of its tags. */
  lemma ReconcileTagsLabels(idx: TagIndex, local: Option<set<int>>, remote: seq<RemoteTag>)
    requires DistinctTagIds(remote)
    ensures ReconcileTags(idx, local, remote).index.labels == idx.labels + LabelsOf(remote)
  {
    var l := LocalOrNone(local);
    var rest := Unconsumed(remote, l);
    var c := ConsumedIndex(idx, remote, l);
    assert ResolveAll(c, rest).labels == c.labels + LabelsOf(rest) by {
      ResolveAllLabels(c, rest);
    }
    assert c.labels + LabelsOf(rest) == idx.labels + (Restrict(LabelsOf(remote), l) + LabelsOf(rest)) by {
      UnionAssoc(idx.labels, Restrict(LabelsOf(remote), l), LabelsOf(rest));
    }
    assert Restrict(LabelsOf(remote), l) + LabelsOf(rest) == LabelsOf(remote) by {
      LabelsSplit(remote, l);
    }
  }

  lemma UnionAssoc<K, V>(a: map<K, V>, b: map<K, V>, c: map<K, V>)
    ensures (a + b) + c == a + (b + c)
  {
  }

  /** Exactly the known tags whose remote label differs are queued for update. */
  lemma ReconcileTagsUpdates(idx: TagIndex, local: Option<set<int>>, remote: seq<RemoteTag>)
    requires DistinctTagIds(remote)
    requires LocalOrNone(local) <= idx.labels.Keys
    ensures ReconcileTags(idx, local, remote).index.toUpdate == idx.toUpdate + Relabelled(idx.labels, LabelsOf(remote))
  {
    var l := LocalOrNone(local);
    var rest := Unconsumed(remote, l);
    var c := ConsumedIndex(idx, remote, l);
    var m := Restrict(LabelsOf(remote), l);
    assert ResolveAll(c, rest).toUpdate == c.toUpdate + Relabelled(c.labels, LabelsOf(rest)) by {
      UnconsumedSpec(remote, l);
      ResolveAllUpdates(c, rest);
    }
    assert LabelsOf(rest).Keys == TagIds(remote) - l && m + LabelsOf(rest) == LabelsOf(remote) by {
      LabelsSplit(remote, l);
    }
    assert Relabelled(c.labels, LabelsOf(rest)) == Relabelled(idx.labels, LabelsOf(rest)) by {
      RelabelledAgree(c.labels, idx.labels, LabelsOf(rest));
    }
    assert Relabelled(idx.labels, m + LabelsOf(rest)) == Relabelled(idx.labels, m) + Relabelled(idx.labels, LabelsOf(rest)) by {
      RelabelledUnion(idx.labels, m, LabelsOf(rest));
    }
    UnionChain(ResolveAll(c, rest).toUpdate, idx.toUpdate, Relabelled(idx.labels, m),
               Relabelled(c.labels, LabelsOf(rest)), Relabelled(idx.labels, LabelsOf(rest)),
               Relabelled(idx.labels, LabelsOf(remote)));
  }

  lemma UnionChain(t: set<int>, u: set<int>, a: set<int>, b: set<int>, b': set<int>, all: set<int>)
    requires t == (u + a) + b && b == b' && all == a + b'
    ensures t == u + all
  {
  }

  /** Exactly the remote ids the index lacked are created, each once, and queued for insertion. */
  lemma ReconcileTagsInserts(idx: TagIndex, local: Option<set<int>>, remote: seq<RemoteTag>)
    requires DistinctTagIds(remote)
    requires LocalOrNone(local) <= idx.labels.Keys
    ensures var created := NewIds(idx.labels.Keys, Unconsumed(remote, LocalOrNone(local)));
            && ReconcileTags(idx, local, remote).index.toInsert == idx.toInsert + created
            && Elems(created) == TagIds(remote) - idx.labels.Keys
            && NoDup(created)
  {
    var l := LocalOrNone(local);
    var rest := Unconsumed(remote, l);
    var c := ConsumedIndex(idx, remote, l);
    UnconsumedSpec(remote, l);
    assert c.labels.Keys == idx.labels.Keys;
    ResolveAllInserts(c, rest);
    NewIdsSpec(idx.labels.Keys, rest);
  }

  /** The batches stay well formed. */
  lemma ReconcileTagsWellQueued(idx: TagIndex, local: Option<set<int>>, remote: seq<RemoteTag>)
    requires WellQueued(idx) && LocalOrNone(local) <= idx.labels.Keys
    ensures WellQueued(ReconcileTags(idx, local, remote).index)
  {
    var l := LocalOrNone(local);
    assert WellQueued(ConsumedIndex(idx, remote, l));
    ResolveAllWellQueued(ConsumedIndex(idx, remote, l), Unconsumed(remote, l));
  }

  /**
   * The store's tag table and the index agree up to the page's batches: the
   * index holds the stored tags plus those queued for insertion (which are not
   * stored), and a stored tag whose label the index changed is queued for update.
   */
  ghost predicate Synced(stored: map<int, Text>, idx: TagIndex) {
    && idx.labels.Keys == stored.Keys + Elems(idx.toInsert)
    && stored.Keys !! Elems(idx.toInsert)
    && forall k :: k in stored && stored[k] != idx.labels[k] ==> k in idx.toUpdate
  }

  /** Writing the batches back makes the store's tag table equal the index. */
  lemma SyncedFlush(stored: map<int, Text>, idx: TagIndex)
    requires Synced(stored, idx)
    ensures stored + Restrict(idx.labels, idx.toUpdate + Elems(idx.toInsert)) == idx.labels
  {
    var m := stored + Restrict(idx.labels, idx.toUpdate + Elems(idx.toInsert));
    assert m.Keys == idx.labels.Keys;
    forall k | k in m ensures m[k] == idx.labels[k] {
      if k !in idx.toUpdate + Elems(idx.toInsert) {
        assert k in stored;
      }
    }
  }

  /** A fresh page starts in sync with the store. */
  lemma SyncedStart(stored: map<int, Text>)
    ensures Synced(stored, TagIndex(stored, {}, []))
  {
  }

  lemma ResolveSynced(stored: map<int, Text>, idx: TagIndex, t: RemoteTag)
    requires Synced(stored, idx)
    ensures Synced(stored, Resolve(idx, t))
  {
    if t.id !in idx.labels {
      ElemsAppend(idx.toInsert, t.id);
    }
  }

  lemma {:induction false} ResolveAllSynced(stored: map<int, Text>, idx: TagIndex, ts: seq<RemoteTag>)
    requires Synced(stored, idx)
    ensures Synced(stored, ResolveAll(idx, ts))
  {
    if ts != [] {
      ResolveAllSynced(stored, idx, ts[..|ts| - 1]);
      ResolveSynced(stored, ResolveAll(idx, ts[..|ts| - 1]), ts[|ts| - 1]);
    }
  }

  lemma ConsumedSynced(stored: map<int, Text>, idx: TagIndex, remote: seq<RemoteTag>, l: set<int>)
    requires Synced(stored, idx) && l <= idx.labels.Keys
    ensures Synced(stored, ConsumedIndex(idx, remote, l))
  {
    var c := ConsumedIndex(idx, remote, l);
    var m := Restrict(LabelsOf(remote), l);
    forall k | k in stored && stored[k] != c.labels[k] ensures k in c.toUpdate {
      if k in m && idx.labels[k] != m[k] {
        assert k in Relabelled(idx.labels, m);
      }
    }
  }

  /** One article's reconciliation keeps the index in sync with the store. */
  lemma ReconcileTagsSynced(stored: map<int, Text>, idx: TagIndex, local: Option<set<int>>, remote: seq<RemoteTag>)
    requires Synced(stored, idx) && LocalOrNone(local) <= idx.labels.Keys
    ensures Synced(stored, ReconcileTags(idx, local, remote).index)
  {
    var l := LocalOrNone(local);
    ConsumedSynced(stored, idx, remote, l);
    ResolveAllSynced(stored, ConsumedIndex(idx, remote, l), Unconsumed(remote, l));
  }
}
