/** Tags of articles, skills and MCP servers, and the counters kept beside the rows they count. The three services do
    the same steps on their own tables; here a table row names the kind of its owner. Every service call is atomic. */
module Tags {
  import opened Common

  datatype Kind = ArticleKind | SkillKind | McpServerKind

  datatype Owner = Owner(kind: Kind, id: nat)

  datatype Tag = Tag(name: string, enabled: bool, usage: int)

  datatype Status = Draft | PendingReview | Published | Rejected | Archived

  datatype Item = Item(author: nat, status: Status, deleted: bool, likes: int, favorites: int)

  datatype Reaction = Like | Favorite

  datatype Store = Store(tags: map<nat, Tag>, nextTag: nat, rows: set<(Owner, nat)>, items: map<Owner, Item>,
                         reactions: set<(Reaction, Owner, nat)>)

  const EMPTY := Store(map[], 1, {}, map[], {})

  // ---- resolving the tags of a request ----

  function Named(tags: map<nat, Tag>, below: nat, name: string): (id: Option<nat>)
    ensures id.Some? ==> id.value in tags && id.value < below && tags[id.value].name == name
    ensures id.None? <==> forall t :: t in tags && t < below ==> tags[t].name != name
  {
    if below == 0 then None
    else if below - 1 in tags && tags[below - 1].name == name then Some(below - 1)
    else Named(tags, below - 1, name)
  }

  // out None: some id names no enabled tag.
  function ResolveIds(tags: map<nat, Tag>, ids: seq<nat>): Option<seq<nat>> {
    if ids == [] then Some([])
    else
      var id := ids[|ids| - 1];
      match ResolveIds(tags, ids[..|ids| - 1])
      case None => None
      case Some(out) =>
        if id !in tags || !tags[id].enabled then None else if id in out then Some(out) else Some(out + [id])
  }

  datatype Resolution = Resolution(tags: map<nat, Tag>, nextTag: nat, out: seq<nat>)

  // Missing tags are created, disabled ones skipped.
  function ResolveName(r: Resolution, name: string): Resolution {
    if name == "" then r
    else
      match Named(r.tags, r.nextTag, name)
      case None => Resolution(r.tags[r.nextTag := Tag(name, true, 0)], r.nextTag + 1, r.out + [r.nextTag])
      case Some(id) => if !r.tags[id].enabled || id in r.out then r else r.(out := r.out + [id])
  }

  function ResolveNames(r: Resolution, names: seq<string>): Resolution {
    if names == [] then r else ResolveName(ResolveNames(r, names[..|names| - 1]), names[|names| - 1])
  }

  function Resolve(s: Store, ids: seq<nat>, names: seq<string>): Option<Resolution> {
    match ResolveIds(s.tags, ids)
    case None => None
    case Some(out) => Some(ResolveNames(Resolution(s.tags, s.nextTag, out), names))
  }

  predicate Distinct(xs: seq<nat>) {
    forall i, j :: 0 <= i < j < |xs| ==> xs[i] != xs[j]
  }

  // Tag numbers are below the next one, and names are unique.
  ghost predicate Catalogue(tags: map<nat, Tag>, nextTag: nat) {
    && (forall t :: t in tags ==> t < nextTag)
    && (forall t, u :: t in tags && u in tags && tags[t].name == tags[u].name ==> t == u)
  }

  // The old tags as they were; new ones are enabled and unused.
  ghost predicate Extends(a: map<nat, Tag>, b: map<nat, Tag>) {
    && (forall t :: t in a ==> t in b && b[t] == a[t])
    && (forall t :: t in b && t !in a ==> b[t].enabled && b[t].usage == 0)
  }

  ghost predicate GoodOut(tags: map<nat, Tag>, out: seq<nat>) {
    Distinct(out) && forall i :: 0 <= i < |out| ==> out[i] in tags && tags[out[i]].enabled
  }

  lemma {:induction false} ResolveIdsGood(tags: map<nat, Tag>, ids: seq<nat>)
    ensures ResolveIds(tags, ids).None? <==> exists i :: 0 <= i < |ids| && (ids[i] !in tags || !tags[ids[i]].enabled)
    ensures ResolveIds(tags, ids).Some? ==>
              GoodOut(tags, ResolveIds(tags, ids).value) && forall x :: x in ResolveIds(tags, ids).value <==> x in ids
  {
    if ids != [] {
      var init := ids[..|ids| - 1];
      ResolveIdsGood(tags, init);
      assert ids == init + [ids[|ids| - 1]];
    }
  }

  lemma ResolveNameGood(r: Resolution, name: string)
    requires Catalogue(r.tags, r.nextTag) && GoodOut(r.tags, r.out)
    ensures var q := ResolveName(r, name);
            && Catalogue(q.tags, q.nextTag) && GoodOut(q.tags, q.out) && Extends(r.tags, q.tags) && r.out <= q.out
            && (name != "" ==> exists t :: t in q.tags && q.tags[t].name == name && (q.tags[t].enabled ==> t in q.out))
            && (forall t :: t in q.out && t !in r.out ==> name != "" && q.tags[t].name == name)
  {
    var q := ResolveName(r, name);
    if name != "" {
      var id := if Named(r.tags, r.nextTag, name).None? then r.nextTag else Named(r.tags, r.nextTag, name).value;
      assert id in q.tags && q.tags[id].name == name;
      if Named(r.tags, r.nextTag, name).None? {
        assert q.out[|r.out|] == id;
      }
    }
  }

  lemma {:induction false} ResolveNamesGood(r: Resolution, names: seq<string>)
    requires Catalogue(r.tags, r.nextTag) && GoodOut(r.tags, r.out)
    ensures var q := ResolveNames(r, names);
            Catalogue(q.tags, q.nextTag) && GoodOut(q.tags, q.out) && Extends(r.tags, q.tags) && r.out <= q.out
  {
    if names != [] {
      var q := ResolveNames(r, names[..|names| - 1]);
      ResolveNamesGood(r, names[..|names| - 1]);
      ResolveNameGood(q, names[|names| - 1]);
    }
  }

  // out is base with the enabled tags of these names; every name has a tag, and new tags are enabled and unused.
  ghost predicate Exactly(a: map<nat, Tag>, b: map<nat, Tag>, base: seq<nat>, out: seq<nat>, names: set<string>) {
    && (forall t :: t in out <==> t in base || (t in b && b[t].enabled && b[t].name in names))
    && (forall n :: n in names ==> exists t :: t in b && b[t].name == n)
    && (forall t :: t in b && t !in a ==> b[t].name in names)
  }

  function NamesIn(names: seq<string>): set<string> {
    set n | n in names && n != ""
  }

  // The tag a name ends up with.
  lemma NameResolves(r: Resolution, name: string) returns (id: nat)
    requires Catalogue(r.tags, r.nextTag) && name != ""
    ensures var q := ResolveName(r, name);
            && id in q.tags && q.tags[id].name == name
            && (forall t :: t in r.tags ==> t in q.tags && q.tags[t] == r.tags[t])
            && (forall t :: t in q.tags ==> t in r.tags || t == id)
            && (forall t :: t in q.out <==> t in r.out || (t == id && q.tags[id].enabled))
  {
    id := if Named(r.tags, r.nextTag, name).None? then r.nextTag else Named(r.tags, r.nextTag, name).value;
  }

  lemma ResolveNameExact(a: map<nat, Tag>, base: seq<nat>, r: Resolution, done: set<string>, name: string)
    requires Catalogue(r.tags, r.nextTag) && Extends(a, r.tags) && Exactly(a, r.tags, base, r.out, done) && name != ""
    requires forall t :: t in base ==> t in a
    ensures var q := ResolveName(r, name); Exactly(a, q.tags, base, q.out, done + {name})
  {
    var q := ResolveName(r, name);
    var id := NameResolves(r, name);
    NamesStay(r.tags, q.tags, done);
    ResolveNameUnique(r, name, id);
  }

  // Only that tag has the name.
  lemma ResolveNameUnique(r: Resolution, name: string, id: nat)
    requires Catalogue(r.tags, r.nextTag) && name != ""
    requires id in ResolveName(r, name).tags && ResolveName(r, name).tags[id].name == name
    ensures forall t :: t in ResolveName(r, name).tags && ResolveName(r, name).tags[t].name == name ==> t == id
  {
  }

  lemma NamesStay(a: map<nat, Tag>, b: map<nat, Tag>, names: set<string>)
    requires forall t :: t in a ==> t in b && b[t].name == a[t].name
    requires forall n :: n in names ==> exists t :: t in a && a[t].name == n
    ensures forall n :: n in names ==> exists t :: t in b && b[t].name == n
  {
    forall n | n in names
      ensures exists t :: t in b && b[t].name == n
    {
      var t :| t in a && a[t].name == n;
      assert t in b && b[t].name == n;
    }
  }

  lemma {:induction false} ResolveNamesExact(r: Resolution, names: seq<string>)
    requires Catalogue(r.tags, r.nextTag) && GoodOut(r.tags, r.out)
    ensures var q := ResolveNames(r, names); Exactly(r.tags, q.tags, r.out, q.out, NamesIn(names))
  {
    if names != [] {
      var init, name := names[..|names| - 1], names[|names| - 1];
      assert names == init + [name];
      var q := ResolveNames(r, init);
      ResolveNamesGood(r, init);
      ResolveNamesExact(r, init);
      if name != "" {
        ResolveNameExact(r.tags, r.out, q, NamesIn(init), name);
        assert NamesIn(names) == NamesIn(init) + {name};
      } else {
        assert NamesIn(names) == NamesIn(init);
      }
    }
  }

  /** Resolving fails exactly when a requested id names no enabled tag. Otherwise the result is, without duplicates, the
      requested ids and the enabled tags among the requested names; missing names get a new unused tag, and the other
      tags stay as they were. */
  lemma ResolvedSet(s: Store, ids: seq<nat>, names: seq<string>)
    requires Catalogue(s.tags, s.nextTag)
    ensures Resolve(s, ids, names).None? <==>
              exists i :: 0 <= i < |ids| && (ids[i] !in s.tags || !s.tags[ids[i]].enabled)
    ensures Resolve(s, ids, names).Some? ==>
              var r := Resolve(s, ids, names).value;
              && GoodOut(r.tags, r.out) && Extends(s.tags, r.tags) && Catalogue(r.tags, r.nextTag)
              && Exactly(s.tags, r.tags, ids, r.out, NamesIn(names))
  {
    ResolveIdsGood(s.tags, ids);
    if ResolveIds(s.tags, ids).Some? {
      var r := Resolution(s.tags, s.nextTag, ResolveIds(s.tags, ids).value);
      ResolveNamesGood(r, names);
      ResolveNamesExact(r, names);
    }
  }

  // ---- the service calls ----

  function TagsOf(rows: set<(Owner, nat)>, o: Owner): set<nat> {
    set r | r in rows && r.0 == o :: r.1
  }

  function RowsOf(o: Owner, tags: set<nat>): set<(Owner, nat)> {
    set t | t in tags :: (o, t)
  }

  // Delete and re-create the tag rows of one owner.
  function SetTags(rows: set<(Owner, nat)>, o: Owner, tags: set<nat>): set<(Owner, nat)> {
    (set r | r in rows && r.0 != o) + RowsOf(o, tags)
  }

  // usage_count + delta for each of these tags.
  function AddUsage(tags: map<nat, Tag>, ids: set<nat>, delta: int): map<nat, Tag> {
    map t | t in tags :: if t in ids then tags[t].(usage := tags[t].usage + delta) else tags[t]
  }

  function Elements(xs: seq<nat>): set<nat> {
    set x | x in xs
  }

  function Created(s: Store, o: Owner, author: nat, status: Status, ids: seq<nat>, names: seq<string>): Store {
    match Resolve(s, ids, names)
    case None => s
    case Some(r) =>
      s.(items := s.items[o := Item(author, status, false, 0, 0)], rows := SetTags(s.rows, o, Elements(r.out)),
         tags := AddUsage(r.tags, Elements(r.out), 1), nextTag := r.nextTag)
  }

  predicate Found(s: Store, o: Owner) {
    o in s.items && !s.items[o].deleted
  }

  // Skills and MCP servers cannot be edited while they are under review.
  predicate Editable(s: Store, o: Owner, user: nat) {
    Found(s, o) && s.items[o].author == user && (o.kind == ArticleKind || s.items[o].status != PendingReview)
  }

  // status: what an article is saved with; the other kinds keep theirs.
  function Rewritten(s: Store, o: Owner, status: Status, ids: seq<nat>, names: seq<string>): Store
    requires o in s.items
  {
    match Resolve(s, ids, names)
    case None => s
    case Some(r) =>
      var before, now := TagsOf(s.rows, o), Elements(r.out);
      s.(items := s.items[o := s.items[o].(status := if o.kind == ArticleKind then status else s.items[o].status)],
         rows := SetTags(s.rows, o, now),
         tags := AddUsage(AddUsage(r.tags, before - now, -1), now - before, 1), nextTag := r.nextTag)
  }

  function Updated(s: Store, o: Owner, user: nat, status: Status, ids: seq<nat>, names: seq<string>): Store {
    if !Editable(s, o, user) then s else Rewritten(s, o, status, ids, names)
  }

  function Deleted(s: Store, o: Owner, user: nat): Store {
    if !Found(s, o) || s.items[o].author != user then s
    else
      s.(items := s.items[o := s.items[o].(deleted := true)], rows := SetTags(s.rows, o, {}),
         tags := AddUsage(s.tags, TagsOf(s.rows, o), -1))
  }

  predicate InUse(rows: set<(Owner, nat)>, tag: nat) {
    exists r :: r in rows && r.1 == tag
  }

  function TagDeleted(s: Store, tag: nat): Store {
    if InUse(s.rows, tag) then s else s.(tags := s.tags - {tag})
  }

  function Bumped(i: Item, k: Reaction, delta: int): Item {
    match k
    case Like => i.(likes := i.likes + delta)
    case Favorite => i.(favorites := i.favorites + delta)
  }

  // Insert, or delete when the unique index reports a duplicate; then the counter.
  function Toggled(s: Store, k: Reaction, o: Owner, user: nat): Store {
    if !Found(s, o) || s.items[o].status != Published then s
    else if (k, o, user) in s.reactions then
      s.(reactions := s.reactions - {(k, o, user)}, items := s.items[o := Bumped(s.items[o], k, -1)])
    else s.(reactions := s.reactions + {(k, o, user)}, items := s.items[o := Bumped(s.items[o], k, 1)])
  }

  // ---- runs ----

  datatype Call =
    | Create(o: Owner, author: nat, status: Status, ids: seq<nat>, names: seq<string>)
    | Update(o: Owner, user: nat, status: Status, ids: seq<nat>, names: seq<string>)
    | Delete(o: Owner, user: nat)
    | Toggle(k: Reaction, o: Owner, user: nat)
    | SetStatus(o: Owner, status: Status)
    | AddTag(name: string)
    | PatchTag(tag: nat, name: string, enabled: bool)
    | DeleteTag(tag: nat)

  // A new owner gets a number of its own; every other call may be made in any state.
  predicate Enabled(s: Store, c: Call) {
    c.Create? ==> c.o !in s.items
  }

  predicate NameFree(tags: map<nat, Tag>, tag: nat, name: string) {
    forall t :: t in tags && t != tag ==> tags[t].name != name
  }

  function Apply(s: Store, c: Call): Store {
    match c
    case Create(o, author, status, ids, names) => Created(s, o, author, status, ids, names)
    case Update(o, user, status, ids, names) => Updated(s, o, user, status, ids, names)
    case Delete(o, user) => Deleted(s, o, user)
    case Toggle(k, o, user) => Toggled(s, k, o, user)
    case SetStatus(o, status) => if o in s.items then s.(items := s.items[o := s.items[o].(status := status)]) else s
    case AddTag(name) =>
      if name == "" || !NameFree(s.tags, s.nextTag, name) then s
      else s.(tags := s.tags[s.nextTag := Tag(name, true, 0)], nextTag := s.nextTag + 1)
    case PatchTag(tag, name, enabled) =>
      if tag !in s.tags || name == "" || !NameFree(s.tags, tag, name) then s
      else s.(tags := s.tags[tag := s.tags[tag].(name := name, enabled := enabled)])
    case DeleteTag(tag) => TagDeleted(s, tag)
  }

  predicate Run(s: Store, cs: seq<Call>)
    decreases |cs|
  {
    cs == [] || (Enabled(s, cs[0]) && Run(Apply(s, cs[0]), cs[1..]))
  }

  function Final(s: Store, cs: seq<Call>): Store
    decreases |cs|
  {
    if cs == [] then s else Final(Apply(s, cs[0]), cs[1..])
  }

  // The tag rows that reference a tag.
  function Uses(rows: set<(Owner, nat)>, tag: nat): set<(Owner, nat)> {
    set r | r in rows && r.1 == tag
  }

  function Reactors(reactions: set<(Reaction, Owner, nat)>, k: Reaction, o: Owner): set<(Reaction, Owner, nat)> {
    set r | r in reactions && r.0 == k && r.1 == o
  }

  ghost predicate UsageOk(tags: map<nat, Tag>, rows: set<(Owner, nat)>) {
    && (forall t :: t in tags ==> tags[t].usage == |Uses(rows, t)|)
    && (forall r :: r in rows ==> r.1 in tags)
  }

  ghost predicate TagsOk(s: Store) {
    Catalogue(s.tags, s.nextTag) && UsageOk(s.tags, s.rows) && forall r :: r in s.rows ==> r.0 in s.items
  }

  ghost predicate ReactionsOk(s: Store) {
    && (forall r :: r in s.reactions ==> r.1 in s.items)
    && (forall o :: o in s.items ==> s.items[o].likes == |Reactors(s.reactions, Like, o)|
                                     && s.items[o].favorites == |Reactors(s.reactions, Favorite, o)|)
  }

  // New tags are unused, so nothing is off yet.
  lemma ExtendedUsage(a: map<nat, Tag>, b: map<nat, Tag>, rows: set<(Owner, nat)>)
    requires UsageOk(a, rows) && Extends(a, b)
    ensures UsageOk(b, rows)
  {
    forall t | t in b
      ensures b[t].usage == |Uses(rows, t)|
    {
      if t !in a {
        assert Uses(rows, t) == {};
      }
    }
  }

  lemma UsesAfterSet(rows: set<(Owner, nat)>, o: Owner, tags: set<nat>, t: nat)
    ensures |Uses(SetTags(rows, o, tags), t)|
         == |Uses(rows, t)| - (if t in TagsOf(rows, o) then 1 else 0) + (if t in tags then 1 else 0)
  {
    var others := Uses(rows, t) - {(o, t)};
    assert t in TagsOf(rows, o) <==> (o, t) in Uses(rows, t) by {
      if t in TagsOf(rows, o) {
        assert (o, t) in rows;
      }
    }
    assert Uses(SetTags(rows, o, tags), t) == others + (if t in tags then {(o, t)} else {});
  }

  /** Replacing an owner's tags and moving the counters of the difference keeps every counter right. */
  lemma DiffKeepsUsage(tags: map<nat, Tag>, rows: set<(Owner, nat)>, o: Owner, now: set<nat>)
    requires UsageOk(tags, rows) && now <= tags.Keys
    ensures var before := TagsOf(rows, o);
            UsageOk(AddUsage(AddUsage(tags, before - now, -1), now - before, 1), SetTags(rows, o, now))
  {
    var before := TagsOf(rows, o);
    var after := AddUsage(AddUsage(tags, before - now, -1), now - before, 1);
    forall t | t in after
      ensures after[t].usage == |Uses(SetTags(rows, o, now), t)|
    {
      UsesAfterSet(rows, o, now, t);
    }
  }

  lemma CatalogueKept(a: map<nat, Tag>, nextTag: nat, b: map<nat, Tag>)
    requires Catalogue(a, nextTag) && b.Keys == a.Keys && forall t :: t in a ==> b[t].name == a[t].name
    ensures Catalogue(b, nextTag)
  {
  }

  lemma OutInTags(s: Store, ids: seq<nat>, names: seq<string>)
    requires Catalogue(s.tags, s.nextTag) && Resolve(s, ids, names).Some?
    ensures Elements(Resolve(s, ids, names).value.out) <= Resolve(s, ids, names).value.tags.Keys
  {
    ResolvedSet(s, ids, names);
  }

  lemma FirstTags(tags: map<nat, Tag>, rows: set<(Owner, nat)>, o: Owner, now: set<nat>)
    requires UsageOk(tags, rows) && now <= tags.Keys && forall r :: r in rows ==> r.0 != o
    ensures UsageOk(AddUsage(tags, now, 1), SetTags(rows, o, now))
  {
    assert TagsOf(rows, o) == {};
    DiffKeepsUsage(tags, rows, o, now);
    assert AddUsage(AddUsage(tags, {} - now, -1), now - {}, 1) == AddUsage(tags, now, 1);
  }

  lemma CreateTags(s: Store, o: Owner, author: nat, status: Status, ids: seq<nat>, names: seq<string>)
    requires TagsOk(s) && o !in s.items
    ensures TagsOk(Created(s, o, author, status, ids, names))
  {
    ResolvedSet(s, ids, names);
    if Resolve(s, ids, names).Some? {
      var r := Resolve(s, ids, names).value;
      var now := Elements(r.out);
      OutInTags(s, ids, names);
      ExtendedUsage(s.tags, r.tags, s.rows);
      FirstTags(r.tags, s.rows, o, now);
    }
  }

  lemma UpdateTags(s: Store, o: Owner, user: nat, status: Status, ids: seq<nat>, names: seq<string>)
    requires TagsOk(s)
    ensures TagsOk(Updated(s, o, user, status, ids, names))
  {
    ResolvedSet(s, ids, names);
    if Editable(s, o, user) && Resolve(s, ids, names).Some? {
      var r := Resolve(s, ids, names).value;
      OutInTags(s, ids, names);
      ExtendedUsage(s.tags, r.tags, s.rows);
      DiffKeepsUsage(r.tags, s.rows, o, Elements(r.out));
      CatalogueKept(r.tags, r.nextTag, Updated(s, o, user, status, ids, names).tags);
    }
  }

  lemma DeleteTags(s: Store, o: Owner, user: nat)
    requires TagsOk(s)
    ensures TagsOk(Deleted(s, o, user))
  {
    var before := TagsOf(s.rows, o);
    DiffKeepsUsage(s.tags, s.rows, o, {});
    assert AddUsage(AddUsage(s.tags, before - {}, -1), {} - before, 1) == AddUsage(s.tags, before, -1);
  }

  lemma AdminTags(s: Store, c: Call)
    requires TagsOk(s) && Enabled(s, c) && (c.AddTag? || c.PatchTag? || c.DeleteTag? || c.SetStatus? || c.Toggle?)
    ensures TagsOk(Apply(s, c))
  {
    if c.AddTag? {
      ExtendedUsage(s.tags, Apply(s, c).tags, s.rows);
    }
  }

  lemma CallTags(s: Store, c: Call)
    requires TagsOk(s) && Enabled(s, c)
    ensures TagsOk(Apply(s, c))
  {
    match c {
      case Create(o, author, status, ids, names) => CreateTags(s, o, author, status, ids, names);
      case Update(o, user, status, ids, names) => UpdateTags(s, o, user, status, ids, names);
      case Delete(o, user) => DeleteTags(s, o, user);
      case _ => AdminTags(s, c);
    }
  }

  lemma ReactorsMove(reactions: set<(Reaction, Owner, nat)>, x: (Reaction, Owner, nat), k: Reaction, o: Owner)
    ensures var hit := if x.0 == k && x.1 == o then 1 else 0;
            && (x in reactions ==> |Reactors(reactions - {x}, k, o)| == |Reactors(reactions, k, o)| - hit)
            && (x !in reactions ==> |Reactors(reactions + {x}, k, o)| == |Reactors(reactions, k, o)| + hit)
  {
    var was := Reactors(reactions, k, o);
    if x.0 == k && x.1 == o {
      assert Reactors(reactions - {x}, k, o) == was - {x};
      assert Reactors(reactions + {x}, k, o) == was + {x};
    } else {
      assert Reactors(reactions - {x}, k, o) == was;
      assert Reactors(reactions + {x}, k, o) == was;
    }
  }

  lemma ToggleCounts(s: Store, k: Reaction, o: Owner, user: nat)
    requires ReactionsOk(s)
    ensures ReactionsOk(Toggled(s, k, o, user))
  {
    forall p | p in s.items
      ensures var t := Toggled(s, k, o, user);
              t.items[p].likes == |Reactors(t.reactions, Like, p)|
              && t.items[p].favorites == |Reactors(t.reactions, Favorite, p)|
    {
      ReactorsMove(s.reactions, (k, o, user), Like, p);
      ReactorsMove(s.reactions, (k, o, user), Favorite, p);
    }
  }

  lemma CallReactions(s: Store, c: Call)
    requires ReactionsOk(s) && Enabled(s, c)
    ensures ReactionsOk(Apply(s, c))
  {
    if c.Toggle? {
      ToggleCounts(s, c.k, c.o, c.user);
    } else if c.Create? {
      assert Reactors(s.reactions, Like, c.o) == {} && Reactors(s.reactions, Favorite, c.o) == {};
    }
  }

  lemma {:induction false} RunKept(s: Store, cs: seq<Call>)
    requires TagsOk(s) && ReactionsOk(s) && Run(s, cs)
    ensures TagsOk(Final(s, cs)) && ReactionsOk(Final(s, cs))
    decreases |cs|
  {
    if cs != [] {
      CallTags(s, cs[0]);
      CallReactions(s, cs[0]);
      RunKept(Apply(s, cs[0]), cs[1..]);
    }
  }

  /** On every run each tag's usage count is the number of rows that reference it over the three tables, and every
      referenced tag exists. */
  lemma UsageConserved(cs: seq<Call>, tag: nat)
    requires Run(EMPTY, cs)
    ensures var s := Final(EMPTY, cs);
            && (tag in s.tags ==> s.tags[tag].usage == |Uses(s.rows, tag)|)
            && ((exists r :: r in s.rows && r.1 == tag) ==> tag in s.tags)
  {
    RunKept(EMPTY, cs);
  }

  /** On every run the like and favorite counters are the numbers of their rows. */
  lemma ReactionsConserved(cs: seq<Call>, o: Owner)
    requires Run(EMPTY, cs) && o in Final(EMPTY, cs).items
    ensures var s := Final(EMPTY, cs);
            && s.items[o].likes == |Reactors(s.reactions, Like, o)|
            && s.items[o].favorites == |Reactors(s.reactions, Favorite, o)|
  {
    RunKept(EMPTY, cs);
  }

  /** Toggling twice changes nothing. */
  lemma ToggleTwice(s: Store, k: Reaction, o: Owner, user: nat)
    ensures Toggled(Toggled(s, k, o, user), k, o, user) == s
  {
    var t := Toggled(s, k, o, user);
    if t != s {
      assert Toggled(t, k, o, user).items == s.items;
      if (k, o, user) in s.reactions {
        assert t.reactions + {(k, o, user)} == s.reactions;
      } else {
        assert t.reactions - {(k, o, user)} == s.reactions;
      }
    }
  }

  // ---- what a call does to an item ----

  predicate Requestable(tags: map<nat, Tag>, ids: seq<nat>) {
    forall i :: 0 <= i < |ids| ==> ids[i] in tags && tags[ids[i]].enabled
  }

  predicate ByAuthor(s: Store, o: Owner, user: nat) {
    o in s.items && !s.items[o].deleted && s.items[o].author == user
  }

  // A call that creates the item, or edits it.
  predicate Saves(s: Store, c: Call, o: Owner) {
    || (c.Create? && c.o == o && Requestable(s.tags, c.ids))
    || (c.Update? && c.o == o && Requestable(s.tags, c.ids) && ByAuthor(s, o, c.user)
        && (o.kind == ArticleKind || s.items[o].status != PendingReview))
  }

  predicate Discards(s: Store, c: Call, o: Owner) {
    c.Delete? && c.o == o && ByAuthor(s, o, c.user)
  }

  // The tags a request asks for, by number or by name.
  predicate AsksFor(c: Call, tags: map<nat, Tag>, tag: nat)
    requires c.Create? || c.Update?
  {
    tag in c.ids || (tag in tags && tags[tag].enabled && tags[tag].name != "" && tags[tag].name in c.names)
  }

  lemma SetTagsOf(rows: set<(Owner, nat)>, p: Owner, tags: set<nat>, o: Owner)
    ensures TagsOf(SetTags(rows, p, tags), o) == if p == o then tags else TagsOf(rows, o)
  {
    forall t
      ensures t in TagsOf(SetTags(rows, p, tags), o) <==> t in if p == o then tags else TagsOf(rows, o)
    {
      assert t in TagsOf(SetTags(rows, p, tags), o) <==> (o, t) in SetTags(rows, p, tags);
      assert t in TagsOf(rows, o) <==> (o, t) in rows;
    }
  }

  lemma SavedTags(s: Store, c: Call, o: Owner)
    requires TagsOk(s) && Enabled(s, c) && (c.Create? || c.Update?) && Saves(s, c, o)
    ensures var t := Apply(s, c); forall x :: x in TagsOf(t.rows, o) <==> AsksFor(c, t.tags, x)
  {
    ResolvedSet(s, c.ids, c.names);
    var r := Resolve(s, c.ids, c.names).value;
    SetTagsOf(s.rows, o, Elements(r.out), o);
    var t := Apply(s, c);
    assert t.tags.Keys == r.tags.Keys;
    forall x
      ensures x in TagsOf(t.rows, o) <==> AsksFor(c, t.tags, x)
    {
      assert x in t.tags ==> t.tags[x].name == r.tags[x].name && t.tags[x].enabled == r.tags[x].enabled;
      assert x in r.out <==> x in Elements(r.out);
    }
  }

  lemma OtherRows(s: Store, c: Call, o: Owner)
    requires TagsOk(s) && Enabled(s, c) && !Saves(s, c, o) && !Discards(s, c, o)
    ensures TagsOf(Apply(s, c).rows, o) == TagsOf(s.rows, o)
  {
    if c.Create? || c.Update? {
      ResolvedSet(s, c.ids, c.names);
      if Resolve(s, c.ids, c.names).Some? {
        SetTagsOf(s.rows, c.o, Elements(Resolve(s, c.ids, c.names).value.out), o);
      }
    } else if c.Delete? {
      SetTagsOf(s.rows, c.o, {}, o);
    }
  }

  /** An item has exactly the tags that the last call asked for which created or edited it, and none once its author has
      deleted it: no other call touches them. */
  lemma TagsFollowRequests(s: Store, c: Call, o: Owner)
    requires TagsOk(s) && Enabled(s, c)
    ensures var t := Apply(s, c);
            && (Saves(s, c, o) ==> forall x :: x in TagsOf(t.rows, o) <==> AsksFor(c, t.tags, x))
            && (Discards(s, c, o) ==> TagsOf(t.rows, o) == {})
            && (!Saves(s, c, o) && !Discards(s, c, o) ==> TagsOf(t.rows, o) == TagsOf(s.rows, o))
  {
    if Saves(s, c, o) {
      SavedTags(s, c, o);
    } else if Discards(s, c, o) {
      SetTagsOf(s.rows, o, {}, o);
    } else {
      OtherRows(s, c, o);
    }
  }

  /** Items come only from their creation, keep their author, and are deleted only by the author; an edit gives an
      article the status it is saved with. */
  lemma ItemsFollowCalls(s: Store, c: Call, o: Owner)
    requires TagsOk(s) && Enabled(s, c)
    ensures var t := Apply(s, c);
            && (o in t.items <==> o in s.items || Saves(s, c, o))
            && (o !in s.items && Saves(s, c, o) ==> t.items[o] == Item(c.author, c.status, false, 0, 0))
            && (o in s.items ==>
                  && t.items[o].author == s.items[o].author
                  && t.items[o].deleted == (s.items[o].deleted || Discards(s, c, o))
                  && (!c.SetStatus? ==>
                        t.items[o].status == if Saves(s, c, o) && o.kind == ArticleKind then c.status
                                             else s.items[o].status))
  {
    if c.Create? || c.Update? {
      ResolvedSet(s, c.ids, c.names);
    }
  }

  /** A like or favorite is flipped exactly by a toggle of it on a published item that is there; no other reaction
      changes. */
  lemma TogglesFlip(s: Store, c: Call, k: Reaction, o: Owner, user: nat)
    ensures var flipped := c == Toggle(k, o, user) && o in s.items && !s.items[o].deleted
                           && s.items[o].status == Published;
            (k, o, user) in Apply(s, c).reactions <==> ((k, o, user) in s.reactions) != flipped
  {
  }

  // A call that gives the tag a new name and switch.
  predicate Patches(s: Store, c: Call, tag: nat) {
    && c.PatchTag? && c.tag == tag && c.name != ""
    && forall x :: x in s.tags && x != tag ==> s.tags[x].name != c.name
  }

  lemma SavingKeepsTags(s: Store, c: Call, tag: nat)
    requires TagsOk(s) && (c.Create? || c.Update?) && tag in s.tags
    ensures var t := Apply(s, c);
            tag in t.tags && t.tags[tag].name == s.tags[tag].name && t.tags[tag].enabled == s.tags[tag].enabled
  {
    ResolvedSet(s, c.ids, c.names);
  }

  /** Deleting a tag removes exactly that tag, and only while no item has it; every other call keeps all tags with their
      names and switches, but for the patch of a tag to a name no other one has. */
  lemma TagsComeAndGo(s: Store, c: Call, tag: nat)
    requires TagsOk(s) && Enabled(s, c) && tag in s.tags
    ensures var t := Apply(s, c);
            && (tag !in t.tags <==> c == DeleteTag(tag) && forall r :: r in s.rows ==> r.1 != tag)
            && (tag in t.tags ==>
                  && t.tags[tag].name == (if Patches(s, c, tag) then c.name else s.tags[tag].name)
                  && t.tags[tag].enabled == (if Patches(s, c, tag) then c.enabled else s.tags[tag].enabled))
  {
    if c.Create? || c.Update? {
      SavingKeepsTags(s, c, tag);
    }
  }

  // A tag that is added by name is there afterwards, new or not.
  lemma AddedTagIsThere(s: Store, name: string)
    requires name != ""
    ensures exists x :: x in Apply(s, AddTag(name)).tags && Apply(s, AddTag(name)).tags[x].name == name
  {
    if NameFree(s.tags, s.nextTag, name) {
      assert Apply(s, AddTag(name)).tags[s.nextTag].name == name;
    } else {
      var x :| x in s.tags && s.tags[x].name == name;
      assert Apply(s, AddTag(name)).tags[x].name == name;
    }
  }
}
