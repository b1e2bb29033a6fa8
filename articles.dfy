/** The article feed handlers: publishing an article (and telling every
    other user), toggling a like, commenting, deleting a comment, and the
    listings with their search filter and comment/like counts. */
module Articles {
  import opened Base
  import opened Store
  import opened Seqs
  import opened Ordering
  import opened Text
  import opened Notify

  // ---------------------------------------------------------------------
  // createArticle

  datatype ArticleInput = ArticleInput(title: string, slug: string, content: string,
                                       excerpt: string, status: string)

  function NewArticleText(title: string): string {
    "A new article titled \"" + title + "\" has been posted."
  }

  /** The notifications createArticle inserts for an article by `author`:
      one per other user, keyed from `first` on. */
  function ArticleNotices(users: seq<User>, author: Id, article: Article, first: Id): seq<Notification> {
    Broadcast(OtherUserIds(users, author), "new_article", "New Article Published!",
              NewArticleText(article.title), article.id, first)
  }

  /** A token is required (400).  The article is stored under the token's
      user, then every user except that author gets one "new_article"
      notification pointing at the new article, inserted one at a time. */
  method CreateArticle(db: Database, token: Token, input: ArticleInput) returns (r: Reply<Article>)
    requires db.Valid()
    modifies db`articles, db`notifications, db`nextId
    ensures db.Valid()
    ensures token.NoToken? ==> r == Fail(400, "Token is required") && unchanged(db)
    ensures token.BadToken? ==> r == Fail(500, "Failed to create article") && unchanged(db)
    ensures token.Verified? ==>
      var a := Article(old(db.nextId), token.claims.userId, input.title, input.slug,
                       input.content, input.excerpt, input.status);
      var notices := ArticleNotices(db.users, a.userId, a, a.id + 1);
      && r == Reply(201, "Article created successfully", Some(a))
      && db.articles == old(db.articles) + [a]
      && db.notifications == old(db.notifications) + notices
      && db.nextId == a.id + 1 + |notices|
  {
    if token.NoToken? {
      return Fail(400, "Token is required");
    }
    if token.BadToken? {
      return Fail(500, "Failed to create article");
    }
    var author := token.claims.userId;
    var article := db.CreateArticle(Article(0, author, input.title, input.slug, input.content,
                                            input.excerpt, input.status));
    assert article == Article(old(db.nextId), author, input.title, input.slug, input.content,
                              input.excerpt, input.status);
    ghost var before, first := db.notifications, db.nextId;
    assert before == old(db.notifications) && first == article.id + 1;
    var recipients := OtherUserIds(db.users, author);
    NotifyEach(db, recipients, "new_article", "New Article Published!",
               NewArticleText(article.title), article.id);
    assert db.notifications == before + ArticleNotices(db.users, author, article, first);
    r := Reply(201, "Article created successfully", Some(article));
  }

  /** The author gets no "new_article" notification; every other user gets
      exactly one, and it points at the new article. */
  lemma ArticleNoticesReachOthersOnce(users: seq<User>, author: Id, article: Article, first: Id)
    requires KeyOrdered(users)
    ensures forall u :: u in users ==>
      multiset(Addressees(ArticleNotices(users, author, article, first)))[u.id]
        == if u.id == author then 0 else 1
    ensures forall n :: n in ArticleNotices(users, author, article, first) ==>
      n.kind == "new_article" && n.relatedId == article.id && n.userId != author
  {
    ExcludingActorReachesOthersOnce(users, author);
    var ns := ArticleNotices(users, author, article, first);
    forall n | n in ns
      ensures n.userId != author
    {
      var k :| 0 <= k < |ns| && ns[k] == n;
      assert Addressees(ns)[k] == n.userId;
      assert n.userId in OtherUserIds(users, author);
    }
  }

  // ---------------------------------------------------------------------
  // toggleLike

  /** Does `user` like `article`? */
  predicate Liked(likes: seq<Like>, user: Id, article: Id) {
    exists l :: l in likes && l.userId == user && l.articleId == article
  }

  /** Index of the first like of `user` on `article` (Like.findOne). */
  function FindLike(likes: seq<Like>, user: Id, article: Id): (r: Option<nat>)
    ensures r.Some? ==> r.value < |likes| && likes[r.value].userId == user
                        && likes[r.value].articleId == article
    ensures r.Some? ==> forall j :: 0 <= j < r.value ==>
                          !(likes[j].userId == user && likes[j].articleId == article)
    ensures r.None? ==> !Liked(likes, user, article)
  {
    if likes == [] then None
    else if likes[0].userId == user && likes[0].articleId == article then Some(0)
    else match FindLike(likes[1..], user, article)
      case Some(k) => Some(k + 1)
      case None =>
        assert likes == [likes[0]] + likes[1..];
        None
  }

  /** The Likes table after a toggle: the existing like is destroyed, or a
      new one with key `newKey` is created. */
  function Toggled(likes: seq<Like>, user: Id, article: Id, newKey: Id): seq<Like> {
    match FindLike(likes, user, article)
    case Some(k) => RemoveAt(likes, k)
    case None => likes + [Like(newKey, user, article)]
  }

  /** Destroying the user's like on the article: afterwards the user no
      longer likes it, every other pair is as it was, pairs stay unique. */
  lemma UnlikeFlips(likes: seq<Like>, user: Id, article: Id, k: nat)
    requires UniquePairs(likes)
    requires k < |likes| && likes[k].userId == user && likes[k].articleId == article
    ensures UniquePairs(RemoveAt(likes, k))
    ensures !Liked(RemoveAt(likes, k), user, article)
    ensures forall u, a :: u != user || a != article ==>
      Liked(RemoveAt(likes, k), u, a) == Liked(likes, u, a)
  {
    var t := RemoveAt(likes, k);
    assert t == likes[..k] + likes[k + 1..];
    assert forall i :: 0 <= i < |t| ==> t[i] == likes[if i < k then i else i + 1];
    forall l | l in t
      ensures !(l.userId == user && l.articleId == article)
    {
      var i :| 0 <= i < |t| && t[i] == l;
    }
    forall u, a | u != user || a != article
      ensures Liked(t, u, a) == Liked(likes, u, a)
    {
      if Liked(likes, u, a) {
        var l :| l in likes && l.userId == u && l.articleId == a;
        var j :| 0 <= j < |likes| && likes[j] == l;
        assert l == t[if j < k then j else j - 1];
      }
    }
  }

  /** Creating the like: afterwards the user likes the article, every
      other pair is as it was, pairs stay unique. */
  lemma LikeFlips(likes: seq<Like>, user: Id, article: Id, newKey: Id)
    requires UniquePairs(likes) && !Liked(likes, user, article)
    ensures UniquePairs(likes + [Like(newKey, user, article)])
    ensures Liked(likes + [Like(newKey, user, article)], user, article)
    ensures forall u, a :: u != user || a != article ==>
      Liked(likes + [Like(newKey, user, article)], u, a) == Liked(likes, u, a)
  {
    var added := Like(newKey, user, article);
    var t := likes + [added];
    assert added in t;
    forall u, a | u != user || a != article
      ensures Liked(t, u, a) == Liked(likes, u, a)
    {
      if Liked(t, u, a) {
        var l :| l in t && l.userId == u && l.articleId == a;
        assert l in likes;
      }
    }
  }

  /** A toggle flips whether the user likes the article, leaves every other
      (user, article) pair as it was, and keeps one like per pair. */
  lemma ToggledFlips(likes: seq<Like>, user: Id, article: Id, newKey: Id)
    requires UniquePairs(likes)
    ensures UniquePairs(Toggled(likes, user, article, newKey))
    ensures Liked(Toggled(likes, user, article, newKey), user, article) == !Liked(likes, user, article)
    ensures forall u, a :: u != user || a != article ==>
      Liked(Toggled(likes, user, article, newKey), u, a) == Liked(likes, u, a)
  {
    match FindLike(likes, user, article)
    case Some(k) =>
      assert likes[k] in likes;
      UnlikeFlips(likes, user, article, k);
    case None =>
      LikeFlips(likes, user, article, newKey);
  }

  /** Two toggles in a row restore who likes what; when the first one
      added the like, the second removes exactly that row and the Likes
      table is back as it was. */
  lemma ToggleTwiceRestores(likes: seq<Like>, user: Id, article: Id, key1: Id, key2: Id)
    requires UniquePairs(likes)
    ensures forall u, a ::
      Liked(Toggled(Toggled(likes, user, article, key1), user, article, key2), u, a)
        == Liked(likes, u, a)
    ensures !Liked(likes, user, article) ==>
      Toggled(Toggled(likes, user, article, key1), user, article, key2) == likes
  {
    var once := Toggled(likes, user, article, key1);
    ToggledFlips(likes, user, article, key1);
    ToggledFlips(once, user, article, key2);
    if !Liked(likes, user, article) {
      assert once == likes + [Like(key1, user, article)];
      match FindLike(once, user, article)
      case Some(k) =>
        assert k == |likes|;
        assert once[..k] == likes;
      case None =>
    }
  }

  function LikeNotice(id: Id, author: Id, a: Article): Notification {
    Notification(id, author, "like", "Your article got a like!",
                 "Someone liked your article \"" + a.title + "\".", a.id, false)
  }

  /** 400 without a token or an article id, or when the token names no
      user; 404 for an unknown article.  Otherwise the like is toggled; a
      new like tells the article's author, unless the author is the liker.
      An article whose author row is missing fails with 500 after the like
      is stored, as `article.author.user_id` throws. */
  method ToggleLike(db: Database, token: Token, articleId: Id) returns (r: Reply<bool>)
    requires db.Valid()
    modifies db`likes, db`notifications, db`nextId
    ensures db.Valid()
    ensures token.NoToken? || articleId == 0 ==>
      r == Fail(400, "Token and article_id are required") && unchanged(db)
    ensures token.BadToken? && articleId != 0 ==> r == Fail(500, "Server error") && unchanged(db)
    ensures token.Verified? && articleId != 0 && token.claims.userId == 0 ==>
      r == Fail(400, "Invalid token: user_id not found") && unchanged(db)
    ensures token.Verified? && articleId != 0 && token.claims.userId != 0
            && FindArticle(old(db.articles), articleId).None? ==>
      r == Fail(404, "Article not found") && unchanged(db)
    ensures token.Verified? && articleId != 0 && token.claims.userId != 0
            && FindArticle(old(db.articles), articleId).Some? ==>
      var user := token.claims.userId;
      var a := FindArticle(old(db.articles), articleId).value;
      var author := FindUser(old(db.users), a.userId);
      && db.likes == Toggled(old(db.likes), user, articleId, old(db.nextId))
      && (Liked(old(db.likes), user, articleId) ==>
            r == Reply(200, "Unliked successfully", Some(false))
            && db.notifications == old(db.notifications) && db.nextId == old(db.nextId))
      && (!Liked(old(db.likes), user, articleId) && author.None? ==>
            r == Fail(500, "Server error")
            && db.notifications == old(db.notifications) && db.nextId == old(db.nextId) + 1)
      && (!Liked(old(db.likes), user, articleId) && author.Some? ==>
            r == Reply(200, "Liked successfully", Some(true))
            && (author.value.id == user ==>
                  db.notifications == old(db.notifications) && db.nextId == old(db.nextId) + 1)
            && (author.value.id != user ==>
                  db.notifications == old(db.notifications)
                                      + [LikeNotice(old(db.nextId) + 1, author.value.id, a)]
                  && db.nextId == old(db.nextId) + 2))
  {
    if token.NoToken? || articleId == 0 {
      return Fail(400, "Token and article_id are required");
    }
    if token.BadToken? {
      return Fail(500, "Server error");
    }
    var user := token.claims.userId;
    if user == 0 {
      return Fail(400, "Invalid token: user_id not found");
    }
    var existing := FindLike(db.likes, user, articleId);
    var article := FindArticle(db.articles, articleId);
    if article.None? {
      return Fail(404, "Article not found");
    }
    match existing {
      case Some(k) =>
        assert Liked(db.likes, user, articleId) by {
          assert db.likes[k] in db.likes;
        }
        db.DestroyLike(k);
        return Reply(200, "Unliked successfully", Some(false));
      case None =>
        r := AddLike(db, user, article.value);
    }
  }

  /** The like branch of toggleLike: the like is stored, then the author is
      told unless the author is the liker. */
  method AddLike(db: Database, user: Id, a: Article) returns (r: Reply<bool>)
    requires db.Valid() && !Liked(db.likes, user, a.id)
    modifies db`likes, db`notifications, db`nextId
    ensures db.Valid()
    ensures db.likes == old(db.likes) + [Like(old(db.nextId), user, a.id)]
    ensures FindUser(db.users, a.userId).None? ==>
      r == Fail(500, "Server error")
      && db.notifications == old(db.notifications) && db.nextId == old(db.nextId) + 1
    ensures FindUser(db.users, a.userId).Some? ==>
      var author := FindUser(db.users, a.userId).value;
      && r == Reply(200, "Liked successfully", Some(true))
      && (author.id == user ==>
            db.notifications == old(db.notifications) && db.nextId == old(db.nextId) + 1)
      && (author.id != user ==>
            db.notifications == old(db.notifications) + [LikeNotice(old(db.nextId) + 1, author.id, a)]
            && db.nextId == old(db.nextId) + 2)
  {
    var _ := db.CreateLike(Like(0, user, a.id));
    assert db.Valid();
    var author := FindUser(db.users, a.userId);
    if author.None? {
      return Fail(500, "Server error");
    }
    if author.value.id != user {
      ghost var before := db.notifications;
      var n := db.CreateNotification(LikeNotice(db.nextId, author.value.id, a));
      assert db.notifications == before + [n];
    }
    return Reply(200, "Liked successfully", Some(true));
  }

  /** Two calls with the same token and article, as a client would make
      them: who likes what is restored, and a like followed by an unlike
      leaves the Likes table exactly as it was. */
  method ToggleLikeTwice(db: Database, token: Token, articleId: Id) returns (first: Reply<bool>, second: Reply<bool>)
    requires db.Valid()
    modifies db`likes, db`notifications, db`nextId
    ensures db.Valid()
    ensures forall u, a :: Liked(db.likes, u, a) == Liked(old(db.likes), u, a)
    ensures first.body == Some(true) ==> db.likes == old(db.likes)
  {
    ghost var start, id1 := db.likes, db.nextId;
    first := ToggleLike(db, token, articleId);
    ghost var id2 := db.nextId;
    second := ToggleLike(db, token, articleId);
    if token.Verified? && articleId != 0 && token.claims.userId != 0
       && FindArticle(db.articles, articleId).Some? {
      ToggleTwiceRestores(start, token.claims.userId, articleId, id1, id2);
    }
  }

  // ---------------------------------------------------------------------
  // createComment and deleteComment

  function CommentNotice(id: Id, author: Id, a: Article): Notification {
    Notification(id, author, "comment", "New Comment on Your Article",
                 "Someone commented on your article \"" + a.title + "\".", a.id, false)
  }

  /** The token is verified first, so a missing or bad one ends in the
      catch (500).  Then 400 without an article id or content, 404 for an
      unknown article.  The comment is stored under the token's user; the
      article's author is told unless they wrote the comment.  A missing
      author row fails with 500 after the comment is stored. */
  method CreateComment(db: Database, token: Token, articleId: Id, content: string)
    returns (r: Reply<Comment>)
    requires db.Valid()
    modifies db`comments, db`notifications, db`nextId
    ensures db.Valid()
    ensures !token.Verified? ==> r == Fail(500, "Failed to post comment.") && unchanged(db)
    ensures token.Verified? && (articleId == 0 || content == "") ==>
      r == Fail(400, "Article ID and content are required.") && unchanged(db)
    ensures token.Verified? && articleId != 0 && content != ""
            && FindArticle(old(db.articles), articleId).None? ==>
      r == Fail(404, "Article not found.") && unchanged(db)
    ensures token.Verified? && articleId != 0 && content != ""
            && FindArticle(old(db.articles), articleId).Some? ==>
      var user := token.claims.userId;
      var a := FindArticle(old(db.articles), articleId).value;
      var author := FindUser(old(db.users), a.userId);
      var c := Comment(old(db.nextId), articleId, user, content);
      && db.comments == old(db.comments) + [c]
      && (author.None? ==>
            r == Fail(500, "Failed to post comment.")
            && db.notifications == old(db.notifications) && db.nextId == old(db.nextId) + 1)
      && (author.Some? ==>
            r == Reply(201, "Comment posted successfully.", Some(c))
            && (author.value.id == user ==>
                  db.notifications == old(db.notifications) && db.nextId == old(db.nextId) + 1)
            && (author.value.id != user ==>
                  db.notifications == old(db.notifications)
                                      + [CommentNotice(old(db.nextId) + 1, author.value.id, a)]
                  && db.nextId == old(db.nextId) + 2))
  {
    if !token.Verified? {
      return Fail(500, "Failed to post comment.");
    }
    var user := token.claims.userId;
    if articleId == 0 || content == "" {
      return Fail(400, "Article ID and content are required.");
    }
    var article := FindArticle(db.articles, articleId);
    if article.None? {
      return Fail(404, "Article not found.");
    }
    var comment := db.CreateComment(Comment(0, articleId, user, content));
    assert db.Valid();
    var author := FindUser(db.users, article.value.userId);
    if author.None? {
      return Fail(500, "Failed to post comment.");
    }
    if author.value.id != user {
      ghost var before := db.notifications;
      var n := db.CreateNotification(CommentNotice(db.nextId, author.value.id, article.value));
      assert db.notifications == before + [n];
    }
    return Reply(201, "Comment posted successfully.", Some(comment));
  }

  /** Comment.findByPk: the index of the first comment with key `id`. */
  function FindComment(comments: seq<Comment>, id: Id): (r: Option<nat>)
    ensures r.Some? ==> r.value < |comments| && comments[r.value].id == id
    ensures r.None? ==> forall c :: c in comments ==> c.id != id
  {
    if comments == [] then None
    else if comments[0].id == id then Some(0)
    else match FindComment(comments[1..], id)
      case Some(k) => Some(k + 1)
      case None =>
        assert comments == [comments[0]] + comments[1..];
        None
  }

  /** 404 for an unknown key, and nothing changes; otherwise exactly that
      one comment row goes and every other row stays, in order. */
  method DeleteComment(db: Database, commentId: Id) returns (r: Reply<Comment>)
    requires db.Valid()
    modifies db`comments
    ensures db.Valid()
    ensures FindComment(old(db.comments), commentId).None? ==>
      r == Fail(404, "Comment not found.") && unchanged(db)
    ensures FindComment(old(db.comments), commentId).Some? ==>
      var k := FindComment(old(db.comments), commentId).value;
      && r == Reply(200, "Comment deleted successfully.", None)
      && db.comments == RemoveAt(old(db.comments), k)
      && multiset(db.comments) == multiset(old(db.comments)) - multiset{old(db.comments)[k]}
      && old(db.comments)[k].id == commentId
  {
    var found := FindComment(db.comments, commentId);
    if found.None? {
      return Fail(404, "Comment not found.");
    }
    db.DestroyComment(found.value);
    return Reply(200, "Comment deleted successfully.", None);
  }

  // ---------------------------------------------------------------------
  // Listings: getAllArticlesWithCounts, getAllArticlesWithCountsByUser,
  // getArticleById

  /** An article with its comment and like counts; `userLiked` is only
      present in the per-user listing. */
  datatype Listed = Listed(article: Article, commentCount: nat, likeCount: nat,
                           userLiked: Option<bool>)

  /** SELECT COUNT(*) FROM comments WHERE article_id = ... */
  function CommentCount(comments: seq<Comment>, article: Id): nat {
    Count(comments, (c: Comment) => c.articleId == article)
  }

  /** SELECT COUNT(*) FROM likes WHERE article_id = ... */
  function LikeCount(likes: seq<Like>, article: Id): nat {
    Count(likes, (l: Like) => l.articleId == article)
  }

  /** The public listing's filter: title or content (applied even to "").  */
  predicate PublicMatch(a: Article, q: string) {
    LikeQuery(a.title, q) || LikeQuery(a.content, q)
  }

  /** The per-user listing's filter: none for "", else title, content or excerpt. */
  predicate UserMatch(a: Article, q: string) {
    q == "" || LikeQuery(a.title, q) || LikeQuery(a.content, q) || LikeQuery(a.excerpt, q)
  }

  /** The selected rows newest first, each with its counts. */
  function Listing(rows: seq<Article>, comments: seq<Comment>, likes: seq<Like>,
                   user: Option<Id>): (r: seq<Listed>)
    ensures |r| == |rows|
    ensures forall k :: 0 <= k < |r| ==> r[k].article == rows[|rows| - 1 - k]
  {
    var newest := Reverse(rows);
    seq(|newest|, k requires 0 <= k < |newest| =>
      Listed(newest[k], CommentCount(comments, newest[k].id), LikeCount(likes, newest[k].id),
             if user.Some? then Some(Liked(likes, user.value, newest[k].id)) else None))
  }

  /** The articles a listing shows, in the order it shows them. */
  function Shown(r: seq<Listed>): (a: seq<Article>)
    ensures |a| == |r|
    ensures forall k :: 0 <= k < |r| ==> a[k] == r[k].article
  {
    seq(|r|, k requires 0 <= k < |r| => r[k].article)
  }

  lemma ListingShowsAll(rows: seq<Article>, comments: seq<Comment>, likes: seq<Like>, user: Option<Id>)
    ensures multiset(Shown(Listing(rows, comments, likes, user))) == multiset(rows)
  {
    assert Shown(Listing(rows, comments, likes, user)) == Reverse(rows);
  }

  /** `req.query.q || ""`: the query is the empty string when absent. */
  function GetAllArticlesWithCounts(articles: seq<Article>, comments: seq<Comment>,
                                    likes: seq<Like>, q: string): (r: seq<Listed>)
    ensures multiset(Shown(r)) == multiset(Where(articles, (a: Article) => PublicMatch(a, q)))
    ensures forall v :: v in r ==>
      && v.article in articles && PublicMatch(v.article, q)
      && v.commentCount == CommentCount(comments, v.article.id)
      && v.likeCount == LikeCount(likes, v.article.id)
      && v.userLiked.None?
  {
    var rows := Where(articles, (a: Article) => PublicMatch(a, q));
    ListingShowsAll(rows, comments, likes, None);
    Listing(rows, comments, likes, None)
  }

  /** 400 without a token or when it names no user, 500 for a bad token.
      Otherwise every article that passes the filter, newest first, with its
      counts and whether the caller likes it. */
  function GetAllArticlesWithCountsByUser(articles: seq<Article>, comments: seq<Comment>,
                                          likes: seq<Like>, token: Token, q: string)
    : (r: Reply<seq<Listed>>)
    ensures token.NoToken? ==> r == Fail(400, "Token is required in the headers")
    ensures token.BadToken? ==> r == Fail(500, "Server error")
    ensures token.Verified? && token.claims.userId == 0 ==>
      r == Fail(400, "Invalid token: user_id not found")
    ensures token.Verified? && token.claims.userId != 0 ==>
      && r.status == 200 && r.body.Some?
      && multiset(Shown(r.body.value)) == multiset(Where(articles, (a: Article) => UserMatch(a, q)))
      && forall v :: v in r.body.value ==>
           && v.article in articles && UserMatch(v.article, q)
           && v.commentCount == CommentCount(comments, v.article.id)
           && v.likeCount == LikeCount(likes, v.article.id)
           && v.userLiked == Some(Liked(likes, token.claims.userId, v.article.id))
  {
    match token
    case NoToken => Fail(400, "Token is required in the headers")
    case BadToken => Fail(500, "Server error")
    case Verified(claims) =>
      if claims.userId == 0 then Fail(400, "Invalid token: user_id not found")
      else
        var rows := Where(articles, (a: Article) => UserMatch(a, q));
        ListingShowsAll(rows, comments, likes, Some(claims.userId));
        Reply(200, "", Some(Listing(rows, comments, likes, Some(claims.userId))))
  }

  /** Every string contains the empty string. */
  lemma ContainsEmpty(s: string)
    ensures Contains(s, "")
  {
    assert OccursAt(s, "", 0);
  }

  /** With no query both listings show every article: the public one
      because every column contains "", the per-user one because it drops
      the filter. */
  lemma EmptyQueryListsAll(articles: seq<Article>, comments: seq<Comment>, likes: seq<Like>, user: Id)
    requires user != 0
    ensures multiset(Shown(GetAllArticlesWithCounts(articles, comments, likes, ""))) == multiset(articles)
    ensures multiset(Shown(GetAllArticlesWithCountsByUser(articles, comments, likes,
                             Verified(Claims(user, PlainRole(""))), "").body.value)) == multiset(articles)
  {
    forall a | a in articles ensures PublicMatch(a, "") {
      ContainsEmpty(Lower(a.title));
    }
    WhereAll(articles, (a: Article) => PublicMatch(a, ""));
    WhereAll(articles, (a: Article) => UserMatch(a, ""));
  }

  /** Articles are stored in creation order, so with keys ascending in table
      order both listings come out newest (largest key) first. */
  lemma ListingsNewestFirst(articles: seq<Article>, comments: seq<Comment>, likes: seq<Like>,
                            token: Token, q: string)
    requires Sorted(articles, (x: Article, y: Article) => x.id < y.id)
    ensures var r := GetAllArticlesWithCounts(articles, comments, likes, q);
      forall i, j :: 0 <= i < j < |r| ==> r[i].article.id > r[j].article.id
    ensures var r := GetAllArticlesWithCountsByUser(articles, comments, likes, token, q);
      r.body.Some? ==> forall i, j :: 0 <= i < j < |r.body.value| ==>
        r.body.value[i].article.id > r.body.value[j].article.id
  {
    var lt := (x: Article, y: Article) => x.id < y.id;
    var pub := Where(articles, (a: Article) => PublicMatch(a, q));
    var mine := Where(articles, (a: Article) => UserMatch(a, q));
    WhereKeepsOrder(articles, (a: Article) => PublicMatch(a, q), lt);
    WhereKeepsOrder(articles, (a: Article) => UserMatch(a, q), lt);
    assert Sorted(pub, lt) && Sorted(mine, lt);
  }

  /** An article with its comments and likes (findByPk with includes). */
  datatype ArticleDetail = ArticleDetail(article: Article, comments: seq<Comment>, likes: seq<Like>)

  /** 404 for an unknown key; otherwise the article with exactly its own
      comments and likes. */
  function GetArticleById(articles: seq<Article>, comments: seq<Comment>, likes: seq<Like>, id: Id)
    : (r: Reply<ArticleDetail>)
    ensures (forall a :: a in articles ==> a.id != id) <==> r == Fail(404, "Article not found.")
    ensures r.status == 200 ==>
      && r.body.Some? && r.body.value.article in articles && r.body.value.article.id == id
      && (forall c :: c in r.body.value.comments <==> c in comments && c.articleId == id)
      && (forall l :: l in r.body.value.likes <==> l in likes && l.articleId == id)
    ensures r.status == 200 || r.status == 404
  {
    match FindArticle(articles, id)
    case None => Fail(404, "Article not found.")
    case Some(a) =>
      Reply(200, "", Some(ArticleDetail(a, Where(comments, (c: Comment) => c.articleId == id),
                                        Where(likes, (l: Like) => l.articleId == id))))
  }
}
