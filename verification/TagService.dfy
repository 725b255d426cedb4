/** The service calls over the tables, statement by statement, proved against the functions of Tags. */
module TagService {
  import opened Common
  import opened Tags

  // usage_count + delta for one tag; no row, no change.
  function Incremented(tags: map<nat, Tag>, id: nat, delta: int): map<nat, Tag> {
    if id in tags then tags[id := tags[id].(usage := tags[id].usage + delta)] else tags
  }

  class Tables {
    var tags: map<nat, Tag>
    var nextTag: nat
    var rows: set<(Owner, nat)>
    var items: map<Owner, Item>
    var reactions: set<(Reaction, Owner, nat)>

    constructor ()
      ensures View() == EMPTY
    {
      tags, nextTag, rows, items, reactions := map[], 1, {}, map[], {};
    }

    function View(): Store
      reads this
    {
      Store(tags, nextTag, rows, items, reactions)
    }

    // None: the call fails and its transaction creates nothing.
    method ResolveTagSet(ids: seq<nat>, names: seq<string>) returns (found: Option<seq<nat>>)
      requires Catalogue(tags, nextTag)
      modifies `tags, `nextTag
      ensures found.None? <==> Resolve(old(View()), ids, names).None?
      ensures found.None? ==> View() == old(View())
      ensures found.Some? ==> Resolution(tags, nextTag, found.value) == Resolve(old(View()), ids, names).value
    {
      found := CheckIds(ids);
      if found.None? {
        return;
      }
      ResolveIdsGood(tags, ids);
      var out := AddNames(found.value, names);
      found := Some(out);
    }

    // The first loop of ResolveTagSet.
    method CheckIds(ids: seq<nat>) returns (found: Option<seq<nat>>)
      ensures found == ResolveIds(tags, ids)
    {
      var seen: set<nat> := {};
      var out: seq<nat> := [];
      for i := 0 to |ids|
        invariant ResolveIds(tags, ids[..i]) == Some(out) && seen == Elements(out)
      {
        assert ids[..i + 1][..i] == ids[..i];
        if ids[i] !in tags || !tags[ids[i]].enabled {
          FailureStays(tags, ids, i + 1);
          return None;
        }
        if ids[i] !in seen {
          seen := seen + {ids[i]};
          out := out + [ids[i]];
        }
      }
      assert ids[..|ids|] == ids;
      found := Some(out);
    }

    // The second loop.
    method AddNames(before: seq<nat>, names: seq<string>) returns (out: seq<nat>)
      requires Catalogue(tags, nextTag) && GoodOut(tags, before)
      modifies `tags, `nextTag
      ensures Resolution(tags, nextTag, out) == ResolveNames(Resolution(old(tags), old(nextTag), before), names)
    {
      out := before;
      var seen := Elements(out);
      ghost var r := Resolution(tags, nextTag, out);
      for i := 0 to |names|
        invariant Resolution(tags, nextTag, out) == ResolveNames(r, names[..i]) && seen == Elements(out)
      {
        assert names[..i + 1][..i] == names[..i];
        ResolveNamesGood(r, names[..i]);
        assert nextTag !in out;
        if names[i] == "" {
          continue;
        }
        var id := Named(tags, nextTag, names[i]);
        if id.None? {
          id := Some(nextTag);
          tags := tags[nextTag := Tag(names[i], true, 0)];
          nextTag := nextTag + 1;
        }
        if !tags[id.value].enabled {
          continue;
        }
        if id.value !in seen {
          seen := seen + {id.value};
          out := out + [id.value];
        }
      }
      assert names[..|names|] == names;
    }

    method IncrUsage(id: nat, delta: int)
      modifies `tags
      ensures tags == Incremented(old(tags), id, delta)
    {
      if id in tags {
        tags := tags[id := tags[id].(usage := tags[id].usage + delta)];
      }
    }

    // The rows of one owner, in some order.
    method FindTags(o: Owner) returns (ids: seq<nat>)
      ensures Distinct(ids) && Elements(ids) == TagsOf(rows, o)
    {
      ids := [];
      var left := TagsOf(rows, o);
      while left != {}
        invariant Distinct(ids) && Elements(ids) + left == TagsOf(rows, o) && Elements(ids) !! left
        decreases |left|
      {
        var id :| id in left;
        assert id !in Elements(ids);
        ids := ids + [id];
        left := left - {id};
      }
    }

    /** Deletes and re-creates the tag rows. ok is false exactly when the unique index on owner and tag is violated. */
    method SetItemTags(o: Owner, ids: seq<nat>) returns (ok: bool)
      modifies `rows
      ensures ok <==> Distinct(ids)
      ensures ok ==> rows == SetTags(old(rows), o, Elements(ids))
    {
      rows := set r | r in rows && r.0 != o;
      ghost var others := rows;
      for i := 0 to |ids|
        invariant rows == others + RowsOf(o, Elements(ids[..i])) && Distinct(ids[..i])
      {
        if (o, ids[i]) in rows {
          assert ids[i] in ids[..i];
          return false;
        }
        assert ids[i] !in ids[..i];
        assert ids[..i + 1] == ids[..i] + [ids[i]];
        rows := rows + {(o, ids[i])};
      }
      assert ids[..|ids|] == ids;
      ok := true;
    }

    // IncrUsage for every one of these tags that is not in the other list.
    method MoveUsage(ids: seq<nat>, except: seq<nat>, delta: int)
      requires Distinct(ids)
      modifies `tags
      ensures tags == AddUsage(old(tags), Elements(ids) - Elements(except), delta)
    {
      var skip := Elements(except);
      for i := 0 to |ids|
        invariant tags == AddUsage(old(tags), Elements(ids[..i]) - skip, delta)
      {
        if ids[i] !in skip {
          assert Elements(ids[..i + 1]) - skip == Elements(ids[..i]) - skip + {ids[i]};
          IncrUsage(ids[i], delta);
        } else {
          assert Elements(ids[..i + 1]) - skip == Elements(ids[..i]) - skip;
        }
      }
      assert ids[..|ids|] == ids;
    }

    method Create(o: Owner, author: nat, status: Status, ids: seq<nat>, names: seq<string>) returns (ok: bool)
      requires TagsOk(View()) && o !in items
      modifies this
      ensures View() == Created(old(View()), o, author, status, ids, names)
      ensures ok <==> Resolve(old(View()), ids, names).Some?
    {
      ResolvedSet(View(), ids, names);
      var before := items;
      items := items[o := Item(author, status, false, 0, 0)];
      var found := ResolveTagSet(ids, names);
      if found.None? {
        items := before;
        return false;
      }
      FirstTags(o, found.value);
      ok := true;
    }

    // The tag rows and counters of a new item.
    method FirstTags(o: Owner, ids: seq<nat>)
      requires Distinct(ids) && forall r :: r in rows ==> r.0 != o
      modifies `rows, `tags
      ensures rows == SetTags(old(rows), o, Elements(ids)) && tags == AddUsage(old(tags), Elements(ids), 1)
    {
      if |ids| > 0 {
        var unique := SetItemTags(o, ids);
        MoveUsage(ids, [], 1);
        assert Elements(ids) - Elements([]) == Elements(ids);
      } else {
        assert AddUsage(tags, {}, 1) == tags;
      }
    }

    method Update(o: Owner, user: nat, status: Status, ids: seq<nat>, names: seq<string>) returns (ok: bool)
      requires TagsOk(View())
      modifies this
      ensures View() == Updated(old(View()), o, user, status, ids, names)
      ensures ok <==> Editable(old(View()), o, user) && Resolve(old(View()), ids, names).Some?
    {
      if o !in items || items[o].deleted || items[o].author != user {
        return false;
      }
      if o.kind != ArticleKind && items[o].status == PendingReview {
        return false;
      }
      ok := Save(o, status, ids, names);
    }

    // The transaction of Update.
    method Save(o: Owner, status: Status, ids: seq<nat>, names: seq<string>) returns (ok: bool)
      requires TagsOk(View()) && o in items
      modifies this
      ensures View() == Rewritten(old(View()), o, status, ids, names)
      ensures ok <==> Resolve(old(View()), ids, names).Some?
    {
      ResolvedSet(View(), ids, names);
      var oldTags := FindTags(o);
      var before := items;
      if o.kind == ArticleKind {
        items := items[o := items[o].(status := status)];
      }
      var found := ResolveTagSet(ids, names);
      if found.None? {
        items := before;
        return false;
      }
      ReplaceTags(o, oldTags, found.value);
      assert items == before[o := items[o]];
      ok := true;
    }

    // The two counter loops over the difference, then the rows.
    method ReplaceTags(o: Owner, oldTags: seq<nat>, newTags: seq<nat>)
      requires Distinct(oldTags) && Distinct(newTags)
      modifies `rows, `tags
      ensures rows == SetTags(old(rows), o, Elements(newTags))
      ensures tags == AddUsage(AddUsage(old(tags), Elements(oldTags) - Elements(newTags), -1),
                               Elements(newTags) - Elements(oldTags), 1)
    {
      MoveUsage(oldTags, newTags, -1);
      MoveUsage(newTags, oldTags, 1);
      var unique := SetItemTags(o, newTags);
    }

    method Delete(o: Owner, user: nat) returns (ok: bool)
      modifies this
      ensures View() == Deleted(old(View()), o, user)
      ensures ok <==> Found(old(View()), o) && old(View()).items[o].author == user
    {
      if o !in items || items[o].deleted || items[o].author != user {
        return false;
      }
      var ids := FindTags(o);
      items := items[o := items[o].(deleted := true)];
      MoveUsage(ids, [], -1);
      assert Elements(ids) - Elements([]) == Elements(ids);
      var unique := SetItemTags(o, []);
      ok := true;
    }

    // The rows of the three tables that reference a tag.
    method CountTagUsage(tag: nat) returns (count: nat)
      ensures count == |Uses(rows, tag)|
    {
      var articles := set r | r in Uses(rows, tag) && r.0.kind == ArticleKind;
      var skills := set r | r in Uses(rows, tag) && r.0.kind == SkillKind;
      var servers := set r | r in Uses(rows, tag) && r.0.kind == McpServerKind;
      count := |articles| + |skills| + |servers|;
      KindsApart(Uses(rows, tag), articles, skills, servers);
    }

    method AdminDelete(tag: nat) returns (ok: bool)
      modifies this
      ensures View() == TagDeleted(old(View()), tag)
      ensures ok <==> forall r :: r in old(rows) ==> r.1 != tag
      ensures ok ==> tag !in tags
    {
      var count := CountTagUsage(tag);
      assert forall r :: r in rows && r.1 == tag ==> r in Uses(rows, tag);
      if count > 0 {
        assert exists r :: r in Uses(rows, tag);
        return false;
      }
      tags := tags - {tag};
      ok := true;
    }

    /** Likes and favorites. None: no published item. Otherwise whether the row is there now, and the new count. */
    method Toggle(k: Reaction, o: Owner, user: nat) returns (r: Option<(bool, int)>)
      modifies this
      ensures View() == Toggled(old(View()), k, o, user)
      ensures r.None? <==> !Found(old(View()), o) || old(View()).items[o].status != Published
      ensures r.Some? ==>
                && (r.value.0 <==> (k, o, user) in reactions)
                && (r.value.0 <==> (k, o, user) !in old(reactions))
                && r.value.1 == if k == Like then items[o].likes else items[o].favorites
    {
      if o !in items || items[o].deleted || items[o].status != Published {
        return None;
      }
      var item := items[o];
      var on := (k, o, user) !in reactions;
      if on {
        reactions := reactions + {(k, o, user)};
      } else {
        reactions := reactions - {(k, o, user)};
      }
      var delta := if on then 1 else -1;
      items := items[o := Bumped(items[o], k, delta)];
      r := Some((on, (if k == Like then item.likes else item.favorites) + delta));
    }
  }

  lemma {:induction false} FailureStays(tags: map<nat, Tag>, ids: seq<nat>, n: nat)
    requires n <= |ids| && ResolveIds(tags, ids[..n]).None?
    ensures ResolveIds(tags, ids).None?
    decreases |ids|
  {
    if n == |ids| {
      assert ids[..n] == ids;
    } else {
      assert ids[..|ids| - 1][..n] == ids[..n];
      FailureStays(tags, ids[..|ids| - 1], n);
    }
  }

  lemma KindsApart(all: set<(Owner, nat)>, articles: set<(Owner, nat)>, skills: set<(Owner, nat)>,
                   servers: set<(Owner, nat)>)
    requires forall r :: r in articles <==> r in all && r.0.kind == ArticleKind
    requires forall r :: r in skills <==> r in all && r.0.kind == SkillKind
    requires forall r :: r in servers <==> r in all && r.0.kind == McpServerKind
    ensures |articles| + |skills| + |servers| == |all|
  {
    assert all - articles - skills == servers;
    assert articles <= all && skills <= all - articles;
  }
}
