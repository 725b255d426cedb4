/** Article comments (internal/service/comment.go): creation with flattened parents, deletion, and the listing. */
module Comments {
  import opened Common

  // Deleted rows stay in the table, invisible to lookups.
  datatype Comment = Comment(id: nat, article: nat, author: nat, parent: Option<nat>, replyTo: Option<nat>,
                             content: string, deleted: bool)

  datatype Article = Article(author: nat, published: bool, deleted: bool, commentsCount: int)

  datatype Store = Store(articles: map<nat, Article>, comments: map<nat, Comment>)

  datatype Error = BadParam | ArticleNotFound | BadParent | CommentNotFound | Forbidden

  datatype Result<+T> = Ok(value: T) | Err(error: Error)

  const MAX_CONTENT := 2000

  function FindComment(s: Store, id: nat): Option<Comment> {
    if id in s.comments && !s.comments[id].deleted then Some(s.comments[id]) else None
  }

  function FindArticle(s: Store, id: nat): Option<Article> {
    if id in s.articles && !s.articles[id].deleted then Some(s.articles[id]) else None
  }

  // The parent a reply is stored under: the root of the comment it answers.
  function StoredParent(s: Store, article: nat, parent: Option<nat>): Result<Option<nat>> {
    if parent.None? then Ok(None)
    else
      match FindComment(s, parent.value)
      case None => Err(BadParent)
      case Some(p) =>
        if p.article != article then Err(BadParent) else if p.parent.Some? then Ok(p.parent) else Ok(parent)
  }

  function Checked(s: Store, article: nat, content: string, parent: Option<nat>): Result<Option<nat>> {
    if content == "" || |content| > MAX_CONTENT then Err(BadParam)
    else if FindArticle(s, article).None? || !FindArticle(s, article).value.published then Err(ArticleNotFound)
    else StoredParent(s, article, parent)
  }

  function Counted(s: Store, article: nat, delta: int): map<nat, Article> {
    if article in s.articles then
      s.articles[article := s.articles[article].(commentsCount := s.articles[article].commentsCount + delta)]
    else s.articles
  }

  // id: the number the insert is given.
  function Created(s: Store, id: nat, user: nat, article: nat, content: string, parent: Option<nat>): Store {
    match Checked(s, article, content, parent)
    case Err(_) => s
    case Ok(p) => Store(Counted(s, article, 1), s.comments[id := Comment(id, article, user, p, parent, content, false)])
  }

  function MayDelete(s: Store, user: nat, id: nat): Result<nat> {
    match FindComment(s, id)
    case None => Err(CommentNotFound)
    case Some(c) =>
      match FindArticle(s, c.article)
      case None => Err(ArticleNotFound)
      case Some(a) => if c.author != user && a.author != user then Err(Forbidden) else Ok(c.article)
  }

  function Deleted(s: Store, user: nat, id: nat): Store {
    match MayDelete(s, user, id)
    case Err(_) => s
    case Ok(article) => Store(Counted(s, article, -1), s.comments[id := s.comments[id].(deleted := true)])
  }

  datatype Call =
    | Create(id: nat, user: nat, article: nat, content: string, parent: Option<nat>)
    | Delete(user: nat, comment: nat)
    | NewArticle(id: nat, author: nat)
    | SetArticle(article: nat, published: bool, deleted: bool)

  predicate Enabled(s: Store, c: Call) {
    match c
    case Create(id, _, _, _, _) => id !in s.comments
    case NewArticle(id, _) => id !in s.articles
    case SetArticle(id, _, _) => id in s.articles
    case Delete(_, _) => true
  }

  function Apply(s: Store, c: Call): Store {
    match c
    case Create(id, user, article, content, parent) => Created(s, id, user, article, content, parent)
    case Delete(user, comment) => Deleted(s, user, comment)
    case NewArticle(id, author) => s.(articles := s.articles[id := Article(author, false, false, 0)])
    case SetArticle(id, published, deleted) =>
      if id !in s.articles then s
      else s.(articles := s.articles[id := s.articles[id].(published := published, deleted := deleted)])
  }

  predicate Run(s: Store, cs: seq<Call>)
    decreases |cs|
  {
    cs == [] || (Enabled(s, cs[0]) && Run(Apply(s, cs[0]), cs[1..]))
  }

  function Final(s: Store, cs: seq<Call>): Store
    decreases |cs|
  {
    if cs == [] then s else Final(Apply(s, cs[0]), cs[1..])
  }

  const EMPTY := Store(map[], map[])

  predicate Rooted(s: Store, id: nat)
    requires id in s.comments
  {
    var c := s.comments[id];
    c.id == id && c.article in s.articles
    && (c.parent.Some? ==>
          && c.parent.value in s.comments && c.parent.value != id
          && s.comments[c.parent.value].parent == None
          && s.comments[c.parent.value].article == c.article)
    && (c.parent.Some? <==> c.replyTo.Some?)
    && (c.replyTo.Some? ==>
          && c.replyTo.value in s.comments && c.replyTo.value != id
          && s.comments[c.replyTo.value].article == c.article
          && c.parent == if s.comments[c.replyTo.value].parent.Some? then s.comments[c.replyTo.value].parent
                         else c.replyTo)
  }

  ghost function Visible(s: Store, article: nat): set<nat> {
    set id | id in s.comments && s.comments[id].article == article && !s.comments[id].deleted
  }

  ghost predicate Inv(s: Store) {
    && (forall id :: id in s.comments ==> Rooted(s, id))
    && (forall a :: a in s.articles ==> s.articles[a].commentsCount == |Visible(s, a)|)
  }

  lemma RootedKept(s: Store, c: Call)
    requires Inv(s) && Enabled(s, c)
    ensures forall id :: id in Apply(s, c).comments ==> Rooted(Apply(s, c), id)
  {
    var t := Apply(s, c);
    forall id | id in t.comments
      ensures Rooted(t, id)
    {
      if id in s.comments {
        assert Rooted(s, id);
      } else if c.parent.Some? {
        assert Rooted(s, c.parent.value);
      }
    }
  }

  lemma VisibleAfterCreate(s: Store, t: Store, x: Comment, a: nat)
    requires x.id !in s.comments && !x.deleted && t.comments == s.comments[x.id := x]
    ensures |Visible(t, a)| == |Visible(s, a)| + (if a == x.article then 1 else 0)
  {
    assert Visible(t, a) == Visible(s, a) + (if a == x.article then {x.id} else {});
  }

  lemma CreateCounts(s: Store, c: Call)
    requires Inv(s) && Enabled(s, c) && c.Create?
    ensures forall a :: a in Apply(s, c).articles ==> Apply(s, c).articles[a].commentsCount == |Visible(Apply(s, c), a)|
  {
    var t := Apply(s, c);
    if t != s {
      forall a | a in t.articles
        ensures t.articles[a].commentsCount == |Visible(t, a)|
      {
        VisibleAfterCreate(s, t, t.comments[c.id], a);
      }
    }
  }

  // An article that is not there has no comments.
  lemma NoneVisible(s: Store, a: nat)
    requires Inv(s) && a !in s.articles
    ensures Visible(s, a) == {}
  {
    forall id | id in s.comments
      ensures s.comments[id].article != a
    {
      assert Rooted(s, id);
    }
  }

  lemma DeleteCounts(s: Store, user: nat, comment: nat, a: nat)
    requires Inv(s) && a in s.articles
    ensures var t := Deleted(s, user, comment);
            a in t.articles && t.articles[a].commentsCount == |Visible(t, a)|
  {
    var t := Deleted(s, user, comment);
    if MayDelete(s, user, comment) == Ok(a) {
      assert Visible(t, a) == Visible(s, a) - {comment};
    } else {
      assert Visible(t, a) == Visible(s, a);
    }
  }

  lemma OtherCounts(s: Store, c: Call)
    requires Inv(s) && Enabled(s, c) && !c.Create?
    ensures forall a :: a in Apply(s, c).articles ==> Apply(s, c).articles[a].commentsCount == |Visible(Apply(s, c), a)|
  {
    var t := Apply(s, c);
    forall a | a in t.articles
      ensures t.articles[a].commentsCount == |Visible(t, a)|
    {
      if c.Delete? {
        DeleteCounts(s, c.user, c.comment, a);
      } else {
        assert Visible(t, a) == Visible(s, a);
        if a !in s.articles {
          NoneVisible(s, a);
        }
      }
    }
  }

  lemma {:induction false} RunKept(s: Store, cs: seq<Call>)
    requires Inv(s) && Run(s, cs)
    ensures Inv(Final(s, cs))
    decreases |cs|
  {
    if cs != [] {
      RootedKept(s, cs[0]);
      if cs[0].Create? {
        CreateCounts(s, cs[0]);
      } else {
        OtherCounts(s, cs[0]);
      }
      RunKept(Apply(s, cs[0]), cs[1..]);
    }
  }

  /** On every run a comment's parent is absent or a parentless comment of the same article, deleted or not: the comment
      it replies to, or that one's parent if it has one. Each article counts exactly its comments that are not
      deleted. */
  lemma TwoLevels(cs: seq<Call>, id: nat)
    requires Run(EMPTY, cs) && id in Final(EMPTY, cs).comments
    ensures var s := Final(EMPTY, cs); var c := s.comments[id];
            && c.article in s.articles && s.articles[c.article].commentsCount == |Visible(s, c.article)|
            && (c.parent.Some? ==> c.parent.value in s.comments && s.comments[c.parent.value].parent == None
                                   && s.comments[c.parent.value].article == c.article && c.parent.value != id)
            && (c.replyTo.None? ==> c.parent.None?)
            && (c.replyTo.Some? ==>
                  && c.replyTo.value in s.comments
                  && c.parent == if s.comments[c.replyTo.value].parent.Some? then s.comments[c.replyTo.value].parent
                                 else c.replyTo)
  {
    RunKept(EMPTY, cs);
    assert Rooted(Final(EMPTY, cs), id);
  }

  // ---- what a run writes and deletes ----

  // A call that is accepted as a comment.
  predicate Accepts(s: Store, c: Call) {
    && c.Create? && 1 <= |c.content| <= 2000
    && c.article in s.articles && !s.articles[c.article].deleted && s.articles[c.article].published
    && (c.parent.Some? ==>
          && c.parent.value in s.comments && !s.comments[c.parent.value].deleted
          && s.comments[c.parent.value].article == c.article)
  }

  // A call by the author of the comment or of its article, that deletes the comment.
  predicate Removes(s: Store, c: Call, id: nat) {
    && c.Delete? && c.comment == id && id in s.comments && !s.comments[id].deleted
    && var x := s.comments[id];
       && x.article in s.articles && !s.articles[x.article].deleted
       && (c.user == x.author || c.user == s.articles[x.article].author)
  }

  lemma StepWrites(s: Store, c: Call, id: nat)
    requires Enabled(s, c)
    ensures id in Apply(s, c).comments <==> id in s.comments || (Accepts(s, c) && c.id == id)
    ensures id in s.comments ==>
              Apply(s, c).comments[id] == s.comments[id].(deleted := s.comments[id].deleted || Removes(s, c, id))
    ensures id !in s.comments && Accepts(s, c) && c.id == id ==>
              var x := Apply(s, c).comments[id];
              x == Comment(id, c.article, c.user, x.parent, c.parent, c.content, false)
  {
  }

  predicate AcceptedAt(s: Store, es: seq<Call>, k: nat, id: nat) {
    k < |es| && es[k].Create? && es[k].id == id && Accepts(Final(s, es[..k]), es[k])
  }

  predicate RemovedAt(s: Store, es: seq<Call>, k: nat, id: nat) {
    k < |es| && Removes(Final(s, es[..k]), es[k], id)
  }

  lemma Later(s: Store, es: seq<Call>, k: nat, id: nat)
    requires es != []
    ensures AcceptedAt(s, es, k + 1, id) == AcceptedAt(Apply(s, es[0]), es[1..], k, id)
    ensures RemovedAt(s, es, k + 1, id) == RemovedAt(Apply(s, es[0]), es[1..], k, id)
  {
    if k + 1 < |es| {
      assert es[..k + 1][0] == es[0] && es[..k + 1][1..] == es[1..][..k];
    }
  }

  // A comment that is there keeps its fields.
  lemma {:induction false} Kept(s: Store, es: seq<Call>, id: nat)
    requires Run(s, es) && id in s.comments
    ensures id in Final(s, es).comments
    ensures var x := Final(s, es).comments[id];
            x == s.comments[id].(deleted := x.deleted)
            && (x.deleted <==> s.comments[id].deleted || exists k: nat :: RemovedAt(s, es, k, id))
    decreases |es|
  {
    if es != [] {
      var t := Apply(s, es[0]);
      StepWrites(s, es[0], id);
      Kept(t, es[1..], id);
      assert RemovedAt(s, es, 0, id) == Removes(s, es[0], id);
      if k: nat :| RemovedAt(t, es[1..], k, id) {
        Later(s, es, k, id);
      }
      if k: nat :| RemovedAt(s, es, k, id) && k > 0 {
        Later(s, es, k - 1, id);
      }
    }
  }

  // The call that wrote a comment, and what the comment is.
  ghost predicate WrittenBy(s: Store, es: seq<Call>, id: nat, k: nat) {
    && AcceptedAt(s, es, k, id) && id in Final(s, es).comments
    && var x, c := Final(s, es).comments[id], es[k];
       x == Comment(id, c.article, c.user, x.parent, c.parent, c.content, x.deleted)
  }

  lemma {:induction false} Written(s: Store, es: seq<Call>, id: nat)
    requires Run(s, es) && id !in s.comments
    ensures id in Final(s, es).comments <==> exists k: nat :: AcceptedAt(s, es, k, id)
    ensures id in Final(s, es).comments ==>
              && (exists k: nat :: WrittenBy(s, es, id, k))
              && (Final(s, es).comments[id].deleted <==> exists k: nat :: RemovedAt(s, es, k, id))
    decreases |es|
  {
    if es != [] {
      var t := Apply(s, es[0]);
      StepWrites(s, es[0], id);
      assert es[..0] == [];
      assert !RemovedAt(s, es, 0, id);
      if id in t.comments {
        Kept(t, es[1..], id);
        assert WrittenBy(s, es, id, 0);
      } else {
        Written(t, es[1..], id);
        if k: nat :| WrittenBy(t, es[1..], id, k) {
          Later(s, es, k, id);
          assert WrittenBy(s, es, id, k + 1);
        }
        if k: nat :| AcceptedAt(s, es, k, id) {
          Later(s, es, k - 1, id);
        }
      }
      if k: nat :| RemovedAt(t, es[1..], k, id) {
        Later(s, es, k, id);
      }
      if k: nat :| RemovedAt(s, es, k, id) {
        Later(s, es, k - 1, id);
      }
    }
  }

  /** On every run a comment is there exactly if a call wrote it that was acceptable when it was made, and it is what
      that call said; it is deleted exactly if its author or the author of its article deleted it, while the article was
      there. */
  lemma CommentHistory(es: seq<Call>, id: nat)
    requires Run(EMPTY, es)
    ensures id in Final(EMPTY, es).comments <==> exists k: nat :: AcceptedAt(EMPTY, es, k, id)
    ensures id in Final(EMPTY, es).comments ==>
              && (exists k: nat :: WrittenBy(EMPTY, es, id, k))
              && (Final(EMPTY, es).comments[id].deleted <==> exists k: nat :: RemovedAt(EMPTY, es, k, id))
  {
    Written(EMPTY, es, id);
  }

  /** The comment part of the database. */
  class CommentService {
    var articles: map<nat, Article>
    var comments: map<nat, Comment>
    var nextId: nat

    function View(): Store
      reads this
    {
      Store(articles, comments)
    }

    predicate Valid()
      reads this
    {
      forall id :: id in comments ==> id < nextId
    }

    constructor ()
      ensures Valid() && View() == EMPTY
    {
      articles, comments, nextId := map[], map[], 1;
    }

    method Create(user: nat, article: nat, content: string, parentId: Option<nat>) returns (r: Result<nat>)
      requires Valid()
      modifies this
      ensures Valid()
      ensures r.Ok? <==> Accepts(old(View()), Call.Create(0, user, article, content, parentId))
      ensures r.Err? ==> View() == old(View())
      ensures r == Err(BadParam) <==> content == "" || |content| > 2000
      ensures r == Err(ArticleNotFound)
         <==> 1 <= |content| <= 2000
              && !(article in old(articles) && !old(articles)[article].deleted && old(articles)[article].published)
      ensures r.Err? ==> r.error in {BadParam, ArticleNotFound, BadParent}
      ensures r.Ok? ==>
                r.value !in old(comments) && View() == old(Created(View(), r.value, user, article, content, parentId))
    {
      if content == "" || |content| > MAX_CONTENT {
        return Err(BadParam);
      }
      if article !in articles || articles[article].deleted || !articles[article].published {
        return Err(ArticleNotFound);
      }
      var parent := parentId;
      if parentId.Some? {
        if parentId.value !in comments || comments[parentId.value].deleted
            || comments[parentId.value].article != article {
          return Err(BadParent);
        }
        if comments[parentId.value].parent.Some? {
          parent := comments[parentId.value].parent;
        }
      }
      var id := nextId;
      comments := comments[id := Comment(id, article, user, parent, parentId, content, false)];
      nextId := nextId + 1;
      articles := articles[article := articles[article].(commentsCount := articles[article].commentsCount + 1)];
      return Ok(id);
    }

    method Delete(user: nat, id: nat) returns (r: Result<nat>)
      requires Valid()
      modifies this`comments, this`articles
      ensures Valid()
      ensures r.Ok? <==> Removes(old(View()), Call.Delete(user, id), id)
      ensures r == Err(CommentNotFound) <==> id !in old(comments) || old(comments)[id].deleted
      ensures r == Err(Forbidden)
         <==> id in old(comments) && !old(comments)[id].deleted
              && var x := old(comments)[id];
                 && x.article in old(articles) && !old(articles)[x.article].deleted
                 && user != x.author && user != old(articles)[x.article].author
      ensures r.Ok? ==> r.value == old(comments)[id].article
      ensures r.Err? ==> View() == old(View()) && r.error in {CommentNotFound, ArticleNotFound, Forbidden}
      ensures View() == old(Deleted(View(), user, id))
    {
      if id !in comments || comments[id].deleted {
        return Err(CommentNotFound);
      }
      var c := comments[id];
      if c.article !in articles || articles[c.article].deleted {
        return Err(ArticleNotFound);
      }
      if c.author != user && articles[c.article].author != user {
        return Err(Forbidden);
      }
      comments := comments[id := c.(deleted := true)];
      articles := articles[c.article := articles[c.article].(commentsCount := articles[c.article].commentsCount - 1)];
      return Ok(c.article);
    }
  }
}
