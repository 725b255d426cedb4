/** Reading a page of the article board: members that are no longer shown are removed while the page is built, and the
    first page of five is kept as a snapshot (internal/service/content_ranking.go). */
module RankingList {
  import opened Common
  import opened RankingCache

  const TOP_PAGE_SIZE := 5

  datatype Entry = Entry(id: nat, score: int)

  datatype Brief = Brief(id: nat, title: string, score: int)

  // ZREVRANGE of a page.
  function Page(board: seq<Entry>, page: nat, size: nat): seq<Entry>
    requires page >= 1
  {
    board[Min((page - 1) * size, |board|)..Min(page * size, |board|)]
  }

  // titles: the published articles that are not hidden.
  function Shown(entries: seq<Entry>, titles: map<nat, string>): seq<Brief> {
    if entries == [] then []
    else
      var last := entries[|entries| - 1];
      var init := Shown(entries[..|entries| - 1], titles);
      if last.id in titles then init + [Brief(last.id, titles[last.id], last.score)] else init
  }

  function Gone(entries: seq<Entry>, titles: map<nat, string>): set<nat> {
    set e | e in entries && e.id !in titles :: e.id
  }

  // ZREM.
  function Without(board: seq<Entry>, ids: set<nat>): seq<Entry> {
    if board == [] then []
    else
      var rest := Without(board[1..], ids);
      if board[0].id in ids then rest else [board[0]] + rest
  }

  // As a sorted set lists its members: each once, by falling score.
  ghost predicate Ranked(board: seq<Entry>) {
    forall i, j :: 0 <= i < j < |board| ==> board[i].id != board[j].id && board[i].score >= board[j].score
  }

  lemma {:induction false} WithoutMembers(board: seq<Entry>, ids: set<nat>)
    ensures forall e :: e in Without(board, ids) <==> e in board && e.id !in ids
  {
    if board != [] {
      WithoutMembers(board[1..], ids);
      assert board == [board[0]] + board[1..];
    }
  }

  lemma {:induction false} WithoutConcat(a: seq<Entry>, b: seq<Entry>, ids: set<nat>)
    ensures Without(a + b, ids) == Without(a, ids) + Without(b, ids)
  {
    if a == [] {
      assert a + b == b;
    } else {
      assert (a + b)[1..] == a[1..] + b;
      WithoutConcat(a[1..], b, ids);
    }
  }

  lemma {:induction false} WithoutNone(board: seq<Entry>, ids: set<nat>)
    requires forall e :: e in board ==> e.id !in ids
    ensures Without(board, ids) == board
  {
    if board != [] {
      assert board[0] in board;
      assert forall e :: e in board[1..] ==> e in board;
      WithoutNone(board[1..], ids);
    }
  }

  lemma {:induction false} WithoutRanked(board: seq<Entry>, ids: set<nat>)
    requires Ranked(board)
    ensures Ranked(Without(board, ids))
  {
    if board != [] {
      WithoutRanked(board[1..], ids);
      WithoutMembers(board[1..], ids);
      var rest := Without(board[1..], ids);
      forall j | 0 <= j < |rest|
        ensures board[0].id != rest[j].id && board[0].score >= rest[j].score
      {
        assert rest[j] in board[1..];
      }
    }
  }

  lemma {:induction false} WithoutTwice(board: seq<Entry>, a: set<nat>, b: set<nat>)
    ensures Without(Without(board, a), b) == Without(board, a + b)
  {
    if board != [] {
      WithoutTwice(board[1..], a, b);
    }
  }

  lemma {:induction false} WithoutAgrees(board: seq<Entry>, a: set<nat>, b: set<nat>)
    requires forall e :: e in board ==> (e.id in a <==> e.id in b)
    ensures Without(board, a) == Without(board, b)
  {
    if board != [] {
      assert board[0] in board;
      assert forall e :: e in board[1..] ==> e in board;
      WithoutAgrees(board[1..], a, b);
    }
  }

  // Each removed member takes one entry.
  lemma {:induction false} WithoutSize(board: seq<Entry>, ids: set<nat>)
    requires Ranked(board) && forall id :: id in ids ==> exists e :: e in board && e.id == id
    ensures |Without(board, ids)| == |board| - |ids|
  {
    if board == [] {
      assert ids == {};
    } else {
      var id := board[0].id;
      var rest := ids - {id};
      assert board == [board[0]] + board[1..];
      forall x | x in rest
        ensures exists e :: e in board[1..] && e.id == x
      {
        var e :| e in board && e.id == x;
        assert e in board[1..];
      }
      WithoutSize(board[1..], rest);
      WithoutAgrees(board[1..], ids, rest);
    }
  }

  lemma WithoutMiddle(front: seq<Entry>, middle: seq<Entry>, back: seq<Entry>, ids: set<nat>)
    requires forall e :: e in front || e in back ==> e.id !in ids
    ensures Without(front + middle + back, ids) == front + Without(middle, ids) + back
  {
    WithoutConcat(front + middle, back, ids);
    WithoutConcat(front, middle, ids);
    WithoutNone(front, ids);
    WithoutNone(back, ids);
  }

  lemma PruneSplits(board: seq<Entry>, start: nat, end: nat, titles: map<nat, string>)
    requires Ranked(board) && start <= end <= |board|
    ensures var slice := board[start..end];
            var gone := Gone(slice, titles);
            && Without(board, gone) == board[..start] + Without(slice, gone) + board[end..]
            && |Without(slice, gone)| == |slice| - |gone|
  {
    var front, slice, back := board[..start], board[start..end], board[end..];
    var gone := Gone(slice, titles);
    assert board == front + slice + back;
    WithoutMiddle(front, slice, back, gone);
    WithoutSize(slice, gone);
  }

  lemma DropInto(head: seq<Entry>, back: seq<Entry>, n: nat)
    requires n >= |head|
    ensures (head + back)[Min(n, |head + back|)..] == back[Min(n - |head|, |back|)..]
  {
  }

  lemma ResumesAfter(head: seq<Entry>, left: seq<Entry>, back: seq<Entry>, due: nat, k: nat)
    requires |left| == |head| - k && due >= |head|
    ensures (left + back)[Min(due, |left + back|)..] == (head + back)[Min(due + k, |head + back|)..]
  {
    DropInto(left, back, due);
    DropInto(head, back, due + k);
  }

  lemma ContinuesAt(board: seq<Entry>, start: nat, end: nat, due: nat, titles: map<nat, string>)
    requires Ranked(board) && start <= end == Min(due, |board|)
    ensures var gone := Gone(board[start..end], titles);
            var after := Without(board, gone);
            && |after| == |board| - |gone|
            && after[Min(due, |after|)..] == board[Min(due + |gone|, |board|)..]
            && (gone == {} ==> after == board)
  {
    var slice, back := board[start..end], board[end..];
    var gone := Gone(slice, titles);
    PruneSplits(board, start, end, titles);
    ResumesAfter(board[..end], board[..start] + Without(slice, gone), back, due, |gone|);
    assert board == board[..end] + back;
    if gone == {} {
      WithoutNone(board, {});
    }
  }

  // A page of this size from this place on.
  function PageFrom(board: seq<Entry>, from: nat, size: nat): seq<Entry> {
    var rest := board[Min(from, |board|)..];
    rest[..Min(size, |rest|)]
  }

  lemma PageStarts(board: seq<Entry>, page: nat, size: nat)
    requires page >= 1
    ensures Page(board, page + 1, size) == PageFrom(board, page * size, size)
  {
    assert page * size + size == (page + 1) * size;
  }

  lemma FirstDiffers(board: seq<Entry>, due: nat, k: nat, size: nat)
    requires Ranked(board) && due < |board| && k > 0 && size >= 1
    ensures PageFrom(board, due, size) != PageFrom(board, due + k, size)
  {
    var a, b := PageFrom(board, due, size), PageFrom(board, due + k, size);
    assert a[0] == board[due];
    if b != [] {
      assert b[0] == board[due + k];
    }
  }

  // The same about a page from start to end, the next one being due at due.
  lemma NextFrom(board: seq<Entry>, start: nat, end: nat, due: nat, size: nat, titles: map<nat, string>)
    requires Ranked(board) && start <= end == Min(due, |board|) && size >= 1
    ensures var gone := Gone(board[start..end], titles);
            var after := Without(board, gone);
            && after[Min(due, |after|)..] == board[Min(due + |gone|, |board|)..]
            && (PageFrom(after, due, size) == PageFrom(board, due, size) <==> gone == {} || due >= |board|)
  {
    var gone := Gone(board[start..end], titles);
    ContinuesAt(board, start, end, due, titles);
    assert PageFrom(Without(board, gone), due, size) == PageFrom(board, due + |gone|, size);
    if gone != {} && due < |board| {
      FirstDiffers(board, due, |gone|, size);
    }
  }

  /** Where listing goes on once a page has been built: past as many further entries as the page removed. So the next
      page is the one that was due if and only if nothing was removed or the board ends with the page. */
  lemma NextPage(board: seq<Entry>, page: nat, size: nat, titles: map<nat, string>)
    requires Ranked(board) && page >= 1 && size >= 1
    ensures var gone := Gone(Page(board, page, size), titles);
            var after := Without(board, gone);
            && after[Min(page * size, |after|)..] == board[Min(page * size + |gone|, |board|)..]
            && (Page(after, page + 1, size) == Page(board, page + 1, size) <==> gone == {} || page * size >= |board|)
  {
    var due := page * size;
    assert (page - 1) * size + size == due;
    var start, end := Min((page - 1) * size, |board|), Min(due, |board|);
    assert Page(board, page, size) == board[start..end];
    NextFrom(board, start, end, due, size, titles);
    PageStarts(board, page, size);
    PageStarts(Without(board, Gone(Page(board, page, size), titles)), page, size);
  }

  // The first n pages one after the other.
  function FirstPages(board: seq<Entry>, n: nat, size: nat): seq<Entry> {
    if n == 0 then [] else FirstPages(board, n - 1, size) + Page(board, n, size)
  }

  /** The pages follow one another: the first n of them are the first n * size entries of the board, none of them longer
      than the size. */
  lemma {:induction false} PagesTile(board: seq<Entry>, n: nat, size: nat)
    ensures FirstPages(board, n, size) == board[..Min(n * size, |board|)]
    ensures n >= 1 ==> |Page(board, n, size)| == Min(n * size, |board|) - Min((n - 1) * size, |board|) <= size
  {
    if n > 0 {
      PagesTile(board, n - 1, size);
      assert n * size == (n - 1) * size + size;
    }
  }

  // No entry of the board but those of the page goes.
  lemma RankedApart(board: seq<Entry>, start: nat, end: nat, i: nat, e: Entry)
    requires Ranked(board) && start <= end <= |board| && i < |board| && e in board[start..end] && e.id == board[i].id
    ensures start <= i < end
  {
    var j :| 0 <= j < end - start && board[start..end][j] == e;
    assert board[start + j] == e;
  }

  // A member of the board with the id of an entry of the slice is that entry.
  lemma GoneInSlice(board: seq<Entry>, start: nat, end: nat, titles: map<nat, string>, e: Entry)
    requires Ranked(board) && start <= end <= |board| && e in board
    ensures e.id in Gone(board[start..end], titles) <==> e in board[start..end] && e.id !in titles
  {
    var i :| 0 <= i < |board| && board[i] == e;
    if e.id in Gone(board[start..end], titles) {
      var f :| f in board[start..end] && f.id == e.id;
      RankedApart(board, start, end, i, f);
      assert board[start..end][i - start] == e;
    }
  }

  lemma SliceRemoves(board: seq<Entry>, start: nat, end: nat, titles: map<nat, string>)
    requires Ranked(board) && start <= end <= |board|
    ensures var p := board[start..end]; var after := Without(board, Gone(p, titles));
            && (forall e :: e in after <==> e in board && (e in p ==> e.id in titles))
            && Ranked(after) && |after| == |board| - |Gone(p, titles)|
  {
    var p := board[start..end];
    WithoutMembers(board, Gone(p, titles));
    WithoutRanked(board, Gone(p, titles));
    WithoutSize(board, Gone(p, titles));
    forall e | e in board
      ensures e.id in Gone(p, titles) <==> e in p && e.id !in titles
    {
      GoneInSlice(board, start, end, titles, e);
    }
  }

  lemma PageIsSlice(board: seq<Entry>, page: nat, size: nat) returns (start: nat, end: nat)
    requires page >= 1
    ensures start <= end <= |board| && Page(board, page, size) == board[start..end]
  {
    assert page * size == (page - 1) * size + size;
    start, end := Min((page - 1) * size, |board|), Min(page * size, |board|);
  }

  /** Building a page takes from the board exactly the members of the page that have no title, and leaves the page's
      titled members and all other members in their order. So what is left is the board less the page, plus what the
      page shows. */
  lemma PageRemovesUntitled(board: seq<Entry>, page: nat, size: nat, titles: map<nat, string>)
    requires Ranked(board) && page >= 1
    ensures var p := Page(board, page, size); var after := Without(board, Gone(p, titles));
            && (forall e :: e in after <==> e in board && (e in p ==> e.id in titles))
            && Ranked(after)
            && |after| == |board| - |p| + |Shown(p, titles)|
  {
    var start, end := PageIsSlice(board, page, size);
    SliceRemoves(board, start, end, titles);
    assert Ranked(board[start..end]);
    ShownRest(board[start..end], titles);
  }

  // What a page shows and what it removes make up the page.
  lemma {:induction false} ShownRest(p: seq<Entry>, titles: map<nat, string>)
    requires Ranked(p)
    ensures |Shown(p, titles)| + |Gone(p, titles)| == |p|
  {
    if p == [] {
      assert Gone(p, titles) == {};
    } else {
      var n := |p| - 1;
      ShownRest(p[..n], titles);
      GoneStep(p, n, titles);
      assert p[..n + 1] == p;
    }
  }

  /** A page shows, in board order and each once, exactly its entries that have a title. */
  lemma {:induction false} ShownFaithful(entries: seq<Entry>, titles: map<nat, string>)
    requires Ranked(entries)
    ensures var shown := Shown(entries, titles);
            && (forall b :: b in shown <==>
                  b.id in titles && b.title == titles[b.id] && Entry(b.id, b.score) in entries)
            && (forall i, j :: 0 <= i < j < |shown| ==> shown[i].id != shown[j].id && shown[i].score >= shown[j].score)
  {
    if entries != [] {
      var init, last := entries[..|entries| - 1], entries[|entries| - 1];
      assert entries == init + [last];
      ShownFaithful(init, titles);
      var shown := Shown(init, titles);
      forall i | 0 <= i < |shown|
        ensures shown[i].id != last.id && shown[i].score >= last.score
      {
        assert shown[i] in shown;
        var k :| 0 <= k < |init| && init[k] == Entry(shown[i].id, shown[i].score);
        assert entries[k] == init[k];
      }
    }
  }

  lemma GoneStep(entries: seq<Entry>, i: nat, titles: map<nat, string>)
    requires Ranked(entries) && i < |entries|
    ensures var was, now := Gone(entries[..i], titles), Gone(entries[..i + 1], titles);
            if entries[i].id in titles then now == was else now == was + {entries[i].id} && entries[i].id !in was
  {
    assert entries[..i + 1] == entries[..i] + [entries[i]];
    forall e | e in entries[..i]
      ensures e.id != entries[i].id
    {
      var j :| 0 <= j < i && entries[j] == e;
    }
  }

  datatype Snapshot = Snapshot(items: seq<Brief>, total: int, at: Time)

  predicate IsTop5(page: nat, size: nat) { page == 1 && size == TOP_PAGE_SIZE }

  // What a request is answered from: the snapshot if it is fresh, else the board.
  predicate FromSnapshot(top: Option<Snapshot>, page: nat, size: nat, now: Time) {
    IsTop5(page, size) && top.Some? && Fresh(Some(top.value.at), now)
  }

  class Ranking {
    var board: seq<Entry>
    var top: Option<Snapshot>

    constructor ()
      ensures board == [] && top == None
    {
      board, top := [], None;
    }

    method Remove(id: nat)
      modifies `board
      ensures board == Without(old(board), {id})
    {
      board := Without(board, {id});
    }

    // Builds the page in order, removing the members without a title.
    method Hydrate(p: seq<Entry>, titles: map<nat, string>) returns (items: seq<Brief>, pruned: nat)
      requires Ranked(p)
      modifies `board
      ensures board == Without(old(board), Gone(p, titles))
      ensures items == Shown(p, titles) && pruned == |Gone(p, titles)|
    {
      items := [];
      pruned := 0;
      WithoutNone(board, {});
      assert Gone(p[..0], titles) == {};
      for i := 0 to |p|
        invariant board == Without(old(board), Gone(p[..i], titles)) && items == Shown(p[..i], titles)
        invariant pruned == |Gone(p[..i], titles)|
      {
        assert p[..i + 1][..i] == p[..i];
        GoneStep(p, i, titles);
        if p[i].id !in titles {
          WithoutTwice(old(board), Gone(p[..i], titles), {p[i].id});
          Remove(p[i].id);
          pruned := pruned + 1;
          continue;
        }
        items := items + [Brief(p[i].id, titles[p[i].id], p[i].score)];
      }
      assert p[..|p|] == p;
    }

    // redis, mysql: whether reading the board and looking up the titles work.
    method ListArticlesUncached(page: nat, size: nat, titles: map<nat, string>, redis: bool, mysql: bool, now: Time)
      returns (items: seq<Brief>, total: int)
      requires Ranked(board) && page >= 1 && size >= 1
      modifies this
      ensures Ranked(board)
      ensures !redis || !mysql ==> items == [] && total == 0 && board == old(board) && top == old(top)
      ensures redis && mysql ==>
                && items == Shown(Page(old(board), page, size), titles)
                && board == Without(old(board), Gone(Page(old(board), page, size), titles))
                && total == |board|
                && top == if IsTop5(page, size) then Some(Snapshot(items, total, now)) else old(top)
    {
      if !redis || !mysql {
        return [], 0;
      }
      var p := Page(board, page, size);
      total := |board|;
      WithoutSize(board, Gone(p, titles));
      WithoutRanked(board, Gone(p, titles));
      var pruned;
      items, pruned := Hydrate(p, titles);
      total := total - pruned;
      if IsTop5(page, size) {
        top := Some(Snapshot(items, total, now));
      }
    }

    method ListArticles(page: nat, size: nat, titles: map<nat, string>, redis: bool, mysql: bool, now: Time)
      returns (items: seq<Brief>, total: int)
      requires Ranked(board) && page >= 1 && size >= 1
      modifies this
      ensures Ranked(board)
      ensures page == 1 && size == 5 && old(top).Some? && now < old(top).value.at + 10000 ==>
                items == old(top).value.items && total == old(top).value.total
      ensures FromSnapshot(old(top), page, size, now) ==>
                board == old(board) && top == old(top) && items == top.value.items && total == top.value.total
      ensures !FromSnapshot(old(top), page, size, now) && redis && mysql ==>
                && items == Shown(Page(old(board), page, size), titles) && total == |board|
                && board == Without(old(board), Gone(Page(old(board), page, size), titles))
                && top == if IsTop5(page, size) then Some(Snapshot(items, total, now)) else old(top)
      ensures !FromSnapshot(old(top), page, size, now) && (!redis || !mysql) ==>
                items == [] && total == 0 && board == old(board) && top == old(top)
    {
      if FromSnapshot(top, page, size, now) {
        return top.value.items, top.value.total;
      }
      items, total := ListArticlesUncached(page, size, titles, redis, mysql, now);
    }
  }
}
