/** assembleComments (internal/service/comment.go): from any list of comments to roots with their replies. */
module CommentTree {
  import opened Common
  import opened Comments

  datatype Item = Item(comment: Comment, replies: seq<Item>)

  function Roots(cs: seq<Comment>): seq<Comment> {
    if cs == [] then []
    else
      var last := cs[|cs| - 1];
      if last.parent.None? then Roots(cs[..|cs| - 1]) + [last] else Roots(cs[..|cs| - 1])
  }

  // The root replies to an id go to: the last one with that id.
  function RootAt(roots: seq<Comment>, id: nat): (k: Option<nat>)
    ensures k.Some? ==> k.value < |roots| && roots[k.value].id == id
    ensures k.None? <==> forall i :: 0 <= i < |roots| ==> roots[i].id != id
    ensures k.Some? ==> forall i :: k.value < i < |roots| ==> roots[i].id != id
  {
    if roots == [] then None
    else if roots[|roots| - 1].id == id then Some(|roots| - 1)
    else RootAt(roots[..|roots| - 1], id)
  }

  // Replies in input order.
  function RepliesTo(cs: seq<Comment>, roots: seq<Comment>, k: nat): seq<Comment> {
    if cs == [] then []
    else
      var last := cs[|cs| - 1];
      var before := RepliesTo(cs[..|cs| - 1], roots, k);
      if last.parent.Some? && RootAt(roots, last.parent.value) == Some(k) then before + [last] else before
  }

  function Orphans(cs: seq<Comment>, roots: seq<Comment>): seq<Comment> {
    if cs == [] then []
    else
      var last := cs[|cs| - 1];
      var before := Orphans(cs[..|cs| - 1], roots);
      if last.parent.Some? && RootAt(roots, last.parent.value).None? then before + [last] else before
  }

  function Leaves(cs: seq<Comment>): (items: seq<Item>)
    ensures |items| == |cs| && forall i :: 0 <= i < |cs| ==> items[i] == Item(cs[i], [])
  {
    seq(|cs|, i requires 0 <= i < |cs| => Item(cs[i], []))
  }

  // The first pending roots with the replies found in cs.
  function Tops(cs: seq<Comment>, roots: seq<Comment>): (items: seq<Item>)
    ensures |items| == |roots|
    ensures forall k :: 0 <= k < |roots| ==> items[k] == Item(roots[k], Leaves(RepliesTo(cs, roots, k)))
  {
    seq(|roots|, k requires 0 <= k < |roots| => Item(roots[k], Leaves(RepliesTo(cs, roots, k))))
  }

  function Assembled(cs: seq<Comment>): seq<Item> {
    Tops(cs, Roots(cs)) + Leaves(Orphans(cs, Roots(cs)))
  }

  // ---- every comment exactly once ----

  function Times(cs: seq<Comment>, c: Comment): nat {
    if cs == [] then 0 else Times(cs[..|cs| - 1], c) + (if cs[|cs| - 1] == c then 1 else 0)
  }

  lemma {:induction false} TimesIsMultiplicity(cs: seq<Comment>, c: Comment)
    ensures Times(cs, c) == multiset(cs)[c]
  {
    if cs != [] {
      TimesIsMultiplicity(cs[..|cs| - 1], c);
      assert cs == cs[..|cs| - 1] + [cs[|cs| - 1]];
    }
  }

  // How often a comment occurs in a forest, at any depth.
  function Occurs(items: seq<Item>, c: Comment): nat {
    if items == [] then 0
    else
      var last := items[|items| - 1];
      Occurs(items[..|items| - 1], c) + (if last.comment == c then 1 else 0) + Occurs(last.replies, c)
  }

  lemma {:induction false} OccursInLeaves(cs: seq<Comment>, c: Comment)
    ensures Occurs(Leaves(cs), c) == Times(cs, c)
  {
    if cs != [] {
      OccursInLeaves(cs[..|cs| - 1], c);
      assert Leaves(cs)[..|cs| - 1] == Leaves(cs[..|cs| - 1]);
    }
  }

  lemma {:induction false} OccursInConcat(x: seq<Item>, y: seq<Item>, c: Comment)
    ensures Occurs(x + y, c) == Occurs(x, c) + Occurs(y, c)
    decreases |y|
  {
    if y == [] {
      assert x + y == x;
    } else {
      assert (x + y)[..|x + y| - 1] == x + y[..|y| - 1];
      OccursInConcat(x, y[..|y| - 1], c);
    }
  }

  function SumTo(f: nat -> nat, n: nat): nat {
    if n == 0 then 0 else SumTo(f, n - 1) + f(n - 1)
  }

  // How often a comment is a reply to each of the roots.
  function Counts(cs: seq<Comment>, roots: seq<Comment>, c: Comment): nat -> nat {
    k => Times(RepliesTo(cs, roots, k), c)
  }

  // How often a comment is a reply to one of the first n roots.
  function Replied(cs: seq<Comment>, roots: seq<Comment>, n: nat, c: Comment): nat {
    SumTo(Counts(cs, roots, c), n)
  }

  lemma {:induction false} OccursInTops(cs: seq<Comment>, roots: seq<Comment>, n: nat, c: Comment)
    requires n <= |roots|
    ensures Occurs(Tops(cs, roots)[..n], c) == Times(roots[..n], c) + Replied(cs, roots, n, c)
  {
    if n > 0 {
      OccursInTops(cs, roots, n - 1, c);
      assert Tops(cs, roots)[..n][..n - 1] == Tops(cs, roots)[..n - 1];
      assert roots[..n][..n - 1] == roots[..n - 1];
      OccursInLeaves(RepliesTo(cs, roots, n - 1), c);
    }
  }

  // The root whose replies a comment joins.
  function RootOf(c: Comment, roots: seq<Comment>): Option<nat> {
    if c.parent.Some? then RootAt(roots, c.parent.value) else None
  }

  // One more at a single place adds one to the sum.
  lemma {:induction false} SumMoves(f: nat -> nat, g: nat -> nat, hit: Option<nat>, n: nat)
    requires forall k: nat :: k < n ==> f(k) == g(k) + (if hit == Some(k) then 1 else 0)
    ensures SumTo(f, n) == SumTo(g, n) + (if hit.Some? && hit.value < n then 1 else 0)
  {
    if n > 0 {
      SumMoves(f, g, hit, n - 1);
    }
  }

  // One more comment is a root, a reply to one, or an orphan.
  lemma PlacedOnce(init: seq<Comment>, last: Comment, roots: seq<Comment>, c: Comment)
    ensures Times(Roots(init + [last]), c) + Replied(init + [last], roots, |roots|, c)
            + Times(Orphans(init + [last], roots), c)
         == Times(Roots(init), c) + Replied(init, roots, |roots|, c) + Times(Orphans(init, roots), c)
            + (if last == c then 1 else 0)
  {
    var hit := if last == c then RootOf(last, roots) else None;
    var f, g := Counts(init + [last], roots, c), Counts(init, roots, c);
    forall k: nat | k < |roots|
      ensures f(k) == g(k) + (if hit == Some(k) then 1 else 0)
    {
    }
    SumMoves(f, g, hit, |roots|);
    assert (init + [last])[..|init|] == init;
  }

  lemma {:induction false} NoReplies(roots: seq<Comment>, n: nat, c: Comment)
    requires n <= |roots|
    ensures Replied([], roots, n, c) == 0
  {
    if n > 0 {
      NoReplies(roots, n - 1, c);
    }
  }

  // Every comment of the list is a root, a reply to one, or an orphan.
  lemma {:induction false} EachPlaced(cs: seq<Comment>, roots: seq<Comment>, c: Comment)
    ensures Times(Roots(cs), c) + Replied(cs, roots, |roots|, c) + Times(Orphans(cs, roots), c) == Times(cs, c)
  {
    if cs == [] {
      NoReplies(roots, |roots|, c);
    } else {
      var init, last := cs[..|cs| - 1], cs[|cs| - 1];
      EachPlaced(init, roots, c);
      assert cs == init + [last];
      PlacedOnce(init, last, roots, c);
    }
  }

  /** On any list every comment comes out exactly as often as it is in the list. */
  lemma EachCommentOnce(cs: seq<Comment>, c: Comment)
    ensures Occurs(Assembled(cs), c) == multiset(cs)[c]
  {
    var roots := Roots(cs);
    OccursInConcat(Tops(cs, roots), Leaves(Orphans(cs, roots)), c);
    OccursInTops(cs, roots, |roots|, c);
    assert Tops(cs, roots)[..|roots|] == Tops(cs, roots) && roots[..|roots|] == roots;
    OccursInLeaves(Orphans(cs, roots), c);
    EachPlaced(cs, roots, c);
    TimesIsMultiplicity(cs, c);
  }

  // ---- order and depth ----

  // x's elements in the order they have in y.
  ghost predicate Subsequence(x: seq<Comment>, y: seq<Comment>) {
    exists at: seq<nat> :: Picks(x, y, at)
  }

  predicate Picks(x: seq<Comment>, y: seq<Comment>, at: seq<nat>) {
    && |at| == |x|
    && (forall i :: 0 <= i < |at| ==> at[i] < |y| && x[i] == y[at[i]])
    && (forall i, j :: 0 <= i < j < |at| ==> at[i] < at[j])
  }

  lemma SubsequenceGrows(x: seq<Comment>, y: seq<Comment>, last: Comment)
    requires Subsequence(x, y)
    ensures Subsequence(x, y + [last]) && Subsequence(x + [last], y + [last])
  {
    var at: seq<nat> :| Picks(x, y, at);
    assert Picks(x, y + [last], at);
    assert Picks(x + [last], y + [last], at + [|y|]);
  }

  lemma {:induction false} InInputOrder(cs: seq<Comment>, roots: seq<Comment>, k: nat)
    ensures Subsequence(Roots(cs), cs) && Subsequence(RepliesTo(cs, roots, k), cs)
            && Subsequence(Orphans(cs, roots), cs)
  {
    if cs == [] {
      assert Picks([], [], []);
    } else {
      var init, last := cs[..|cs| - 1], cs[|cs| - 1];
      InInputOrder(init, roots, k);
      SubsequenceGrows(Roots(init), init, last);
      SubsequenceGrows(RepliesTo(init, roots, k), init, last);
      SubsequenceGrows(Orphans(init, roots), init, last);
      assert init + [last] == cs;
    }
  }

  lemma {:induction false} Sorting(cs: seq<Comment>, roots: seq<Comment>, k: nat, c: Comment)
    ensures c in RepliesTo(cs, roots, k) <==> c in cs && c.parent.Some? && RootAt(roots, c.parent.value) == Some(k)
    ensures c in Orphans(cs, roots) <==> c in cs && c.parent.Some? && RootAt(roots, c.parent.value).None?
    ensures c in Roots(cs) <==> c in cs && c.parent.None?
  {
    if cs != [] {
      var init, last := cs[..|cs| - 1], cs[|cs| - 1];
      Sorting(init, roots, k, c);
      assert cs == init + [last];
    }
  }

  // items: the roots in order, whatever their replies, then the orphans.
  ghost predicate RootsThenOrphans(items: seq<Item>, roots: seq<Comment>, orphans: seq<Comment>) {
    && |items| == |roots| + |orphans|
    && (forall k :: 0 <= k < |roots| ==> items[k].comment == roots[k])
    && (forall k :: 0 <= k < |orphans| ==> items[|roots| + k] == Item(orphans[k], []))
  }

  /** Roots come first, in input order, then the replies whose root is not in the list, in input order. */
  lemma TopLevelOrder(cs: seq<Comment>, roots: seq<Comment>, orphans: seq<Comment>)
    requires roots == Roots(cs) && orphans == Orphans(cs, roots)
    ensures RootsThenOrphans(Assembled(cs), roots, orphans)
    ensures Subsequence(roots, cs) && Subsequence(orphans, cs)
  {
    var tops, leaves := Tops(cs, roots), Leaves(orphans);
    assert Assembled(cs) == tops + leaves;
    assert RootsThenOrphans(tops + leaves, roots, orphans);
    assert Subsequence(roots, cs) && Subsequence(orphans, cs) by {
      InInputOrder(cs, roots, 0);
    }
  }

  /** A root carries its replies in input order, each of them a comment that names it as parent, and nothing is nested
      deeper. */
  lemma RepliesOrder(cs: seq<Comment>, k: nat)
    requires k < |Roots(cs)|
    ensures k < |Assembled(cs)|
    ensures var replies := RepliesTo(cs, Roots(cs), k);
            && Assembled(cs)[k].replies == Leaves(replies)
            && Subsequence(replies, cs)
            && forall i :: 0 <= i < |replies| ==> replies[i].parent == Some(Roots(cs)[k].id)
  {
    var roots := Roots(cs);
    InInputOrder(cs, roots, k);
    forall i | 0 <= i < |RepliesTo(cs, roots, k)|
      ensures RepliesTo(cs, roots, k)[i].parent == Some(roots[k].id)
    {
      Sorting(cs, roots, k, RepliesTo(cs, roots, k)[i]);
    }
  }

  /** With distinct root ids, the replies of a root are all the comments of the list that name it as parent. */
  lemma RepliesComplete(cs: seq<Comment>, k: nat, c: Comment)
    requires forall i, j :: 0 <= i < j < |Roots(cs)| ==> Roots(cs)[i].id != Roots(cs)[j].id
    requires k < |Roots(cs)|
    ensures c in RepliesTo(cs, Roots(cs), k) <==> c in cs && c.parent == Some(Roots(cs)[k].id)
  {
    Sorting(cs, Roots(cs), k, c);
  }

  // ---- the method ----

  ghost predicate Indexes(roots: map<nat, nat>, rs: seq<Comment>) {
    forall id :: (id in roots <==> RootAt(rs, id).Some?) && (id in roots ==> RootAt(rs, id) == Some(roots[id]))
  }

  // The first loop.
  method CollectRoots(cs: seq<Comment>) returns (roots: map<nat, nat>, order: seq<Item>)
    ensures order == Leaves(Roots(cs)) && Indexes(roots, Roots(cs))
  {
    roots, order := map[], [];
    var i := 0;
    while i < |cs|
      invariant 0 <= i <= |cs|
      invariant order == Leaves(Roots(cs[..i]))
      invariant Indexes(roots, Roots(cs[..i]))
    {
      assert cs[..i + 1][..i] == cs[..i];
      if cs[i].parent.None? {
        roots := roots[cs[i].id := |order|];
        order := order + [Item(cs[i], [])];
      }
      i := i + 1;
    }
    assert cs[..i] == cs;
  }

  // Appending to the replies of one root.
  function Attach(items: seq<Item>, k: nat, c: Comment): seq<Item>
    requires k < |items|
  {
    items[k := items[k].(replies := items[k].replies + [Item(c, [])])]
  }

  lemma AttachOne(cs: seq<Comment>, i: nat, rs: seq<Comment>)
    requires i < |cs| && cs[i].parent.Some? && RootAt(rs, cs[i].parent.value).Some?
    ensures Tops(cs[..i + 1], rs) == Attach(Tops(cs[..i], rs), RootAt(rs, cs[i].parent.value).value, cs[i])
    ensures Orphans(cs[..i + 1], rs) == Orphans(cs[..i], rs)
  {
    assert cs[..i + 1][..i] == cs[..i];
    var k := RootAt(rs, cs[i].parent.value).value;
    assert Leaves(RepliesTo(cs[..i + 1], rs, k)) == Leaves(RepliesTo(cs[..i], rs, k)) + [Item(cs[i], [])];
  }

  lemma AttachNone(cs: seq<Comment>, i: nat, rs: seq<Comment>)
    requires i < |cs| && (cs[i].parent.None? || RootAt(rs, cs[i].parent.value).None?)
    ensures Tops(cs[..i + 1], rs) == Tops(cs[..i], rs)
    ensures Leaves(Orphans(cs[..i + 1], rs))
            == Leaves(Orphans(cs[..i], rs)) + (if cs[i].parent.Some? then [Item(cs[i], [])] else [])
  {
    assert cs[..i + 1][..i] == cs[..i];
  }

  // One turn of the second loop.
  function Place(order: seq<Item>, orphans: seq<Item>, c: Comment, rs: seq<Comment>): (seq<Item>, seq<Item>)
    requires |order| == |rs|
  {
    if c.parent.None? then (order, orphans)
    else
      match RootAt(rs, c.parent.value)
      case None => (order, orphans + [Item(c, [])])
      case Some(k) => (Attach(order, k, c), orphans)
  }

  lemma PlaceNext(cs: seq<Comment>, i: nat, rs: seq<Comment>)
    requires i < |cs|
    ensures Place(Tops(cs[..i], rs), Leaves(Orphans(cs[..i], rs)), cs[i], rs)
         == (Tops(cs[..i + 1], rs), Leaves(Orphans(cs[..i + 1], rs)))
  {
    if cs[i].parent.Some? && RootAt(rs, cs[i].parent.value).Some? {
      AttachOne(cs, i, rs);
    } else {
      AttachNone(cs, i, rs);
      var orphans := Leaves(Orphans(cs[..i], rs));
      assert orphans + [] == orphans;
    }
  }

  // The body of the second loop.
  method PlaceComment(c: Comment, roots: map<nat, nat>, order0: seq<Item>, orphans0: seq<Item>, ghost rs: seq<Comment>)
    returns (order: seq<Item>, orphans: seq<Item>)
    requires Indexes(roots, rs) && |order0| == |rs|
    ensures (order, orphans) == Place(order0, orphans0, c, rs)
  {
    order, orphans := order0, orphans0;
    if c.parent.Some? && c.parent.value in roots {
      var k := roots[c.parent.value];
      order := order[k := order[k].(replies := order[k].replies + [Item(c, [])])];
    } else if c.parent.Some? {
      orphans := orphans + [Item(c, [])];
    }
  }

  method AssembleComments(cs: seq<Comment>) returns (result: seq<Item>)
    ensures result == Assembled(cs)
  {
    var roots, order := CollectRoots(cs);
    ghost var rs := Roots(cs);
    var orphans: seq<Item> := [];
    var i := 0;
    while i < |cs|
      invariant 0 <= i <= |cs|
      invariant order == Tops(cs[..i], rs)
      invariant orphans == Leaves(Orphans(cs[..i], rs))
    {
      PlaceNext(cs, i, rs);
      order, orphans := PlaceComment(cs[i], roots, order, orphans, rs);
      i := i + 1;
    }
    assert cs[..i] == cs;
    result := order + orphans;
  }
}
