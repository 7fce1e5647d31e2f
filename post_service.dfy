/** Posts: creation, paginated and filtered listing, reading one post with its
    comments, and author-only update (with wholesale replacement of the
    category links) and deletion. */
module PostService {
  import opened Core
  import opened Store
  import Ordering
  import CommentService

  /** A post as the service answers it: content rendered, links replaced by
      the linked category rows. */
  datatype PostView = PostView(id: Id, title: string, content: string, authorId: Id, categories: seq<Category>, createdAt: Time)

  /** The listing's query string; a missing `page` or `limit` takes its default. */
  datatype PageQuery = PageQuery(page: Option<int>, limit: Option<int>, search: Option<string>, category: Option<string>)

  datatype Pagination = Pagination(page: int, limit: int, total: nat, totalPages: nat)

  datatype PostPage = PostPage(posts: seq<PostView>, pagination: Pagination)

  /** One post with its comments, oldest first. */
  datatype PostDetail = PostDetail(post: PostView, comments: seq<Comment>)

  const DefaultPage: int := 1
  const DefaultLimit: int := 10

  // ---------------------------------------------------------------------------
  // Formatting

  /** The category rows a post's links point at, in link order; the join
      yields nothing for a link whose category row is missing. */
  function ResolveLinks(ids: seq<Id>, categories: map<Id, Category>): (r: seq<Category>)
    ensures |r| <= |ids|
    ensures forall c :: c in r ==> c in categories.Values
    ensures (forall i :: 0 <= i < |ids| ==> ids[i] in categories) ==>
      |r| == |ids| && forall i :: 0 <= i < |ids| ==> r[i] == categories[ids[i]]
  {
    if ids == [] then []
    else
      var rest := ResolveLinks(ids[1..], categories);
      if ids[0] in categories then [categories[ids[0]]] + rest else rest
  }

  /** `formatPost`: `render` stands for `sanitizeHtml(marked(...))`. */
  function FormatPost(p: Post, categories: map<Id, Category>, render: string -> string): (v: PostView)
    ensures v.id == p.id && v.title == p.title && v.authorId == p.authorId && v.createdAt == p.createdAt
    ensures v.content == render(p.content)
    ensures LinksResolve(p.categoryIds, categories) ==>
      |v.categories| == |p.categoryIds| &&
      forall i :: 0 <= i < |p.categoryIds| ==> v.categories[i] == categories[p.categoryIds[i]]
  {
    PostView(p.id, p.title, render(p.content), p.authorId, ResolveLinks(p.categoryIds, categories), p.createdAt)
  }

  // ---------------------------------------------------------------------------
  // Listing

  function LowerChar(c: char): char {
    if 'A' <= c <= 'Z' then (c as int - 'A' as int + 'a' as int) as char else c
  }

  function Lower(s: string): (r: string)
    ensures |r| == |s|
    ensures forall i :: 0 <= i < |s| ==> r[i] == LowerChar(s[i])
  {
    seq(|s|, i requires 0 <= i < |s| => LowerChar(s[i]))
  }

  predicate IsPrefix(needle: string, hay: string) {
    |needle| <= |hay| && hay[..|needle|] == needle
  }

  predicate IsInfix(needle: string, hay: string) {
    exists i :: 0 <= i <= |hay| && IsPrefix(needle, hay[i..])
  }

  /** `{ contains: search, mode: 'insensitive' }`. */
  predicate ContainsInsensitive(hay: string, needle: string) {
    IsInfix(Lower(needle), Lower(hay))
  }

  /** The `OR` on title and content, applied only when `search` is truthy. */
  predicate MatchesSearch(p: Post, search: Option<string>) {
    !Truthy(search) || ContainsInsensitive(p.title, search.value) || ContainsInsensitive(p.content, search.value)
  }

  /** `categories: { some: { category: { slug } } }`, applied only when `category` is truthy. */
  predicate InCategory(p: Post, category: Option<string>, categories: map<Id, Category>) {
    !Truthy(category) ||
    exists i :: 0 <= i < |p.categoryIds| && p.categoryIds[i] in categories && categories[p.categoryIds[i]].slug == category.value
  }

  predicate Matches(p: Post, q: PageQuery, categories: map<Id, Category>) {
    MatchesSearch(p, q.search) && InCategory(p, q.category, categories)
  }

  /** The rows the listing's `where` selects. */
  ghost function Matching(t: Tables, q: PageQuery): (r: set<Post>)
    ensures forall p :: p in r <==> p in t.posts.Values && Matches(p, q, t.categories)
  {
    set k | k in t.posts && Matches(t.posts[k], q, t.categories) :: t.posts[k]
  }

  /** Newest post first (`orderBy: { createdAt: 'desc' }`). */
  predicate NewerFirst(a: Post, b: Post) {
    a.createdAt >= b.createdAt
  }

  lemma NewerFirstIsPreorder()
    ensures Ordering.TotalPreorder(NewerFirst)
  {
  }

  /** The selected rows in listing order. */
  ghost function Ranked(t: Tables, q: PageQuery): (r: seq<Post>)
    ensures |r| == |Matching(t, q)|
    ensures forall p :: p in r <==> p in Matching(t, q)
    ensures forall i, j :: 0 <= i < j < |r| ==> r[i].createdAt >= r[j].createdAt
  {
    NewerFirstIsPreorder();
    Ordering.SortBy(Matching(t, q), NewerFirst)
  }

  /** `skip: (page - 1) * limit, take: limit`. */
  function Window<T>(s: seq<T>, skip: nat, take: nat): (w: seq<T>)
    ensures |w| == if skip >= |s| then 0 else if |s| - skip < take then |s| - skip else take
    ensures forall i :: 0 <= i < |w| ==> skip + i < |s| && w[i] == s[skip + i]
  {
    if skip >= |s| then [] else s[skip..if skip + take <= |s| then skip + take else |s|]
  }

  /** `Math.ceil(total / limit)`. */
  function TotalPages(total: nat, limit: int): (pages: nat)
    requires limit >= 1
    ensures pages == 0 <==> total == 0
    ensures total <= pages * limit
  {
    (total + limit - 1) / limit
  }

  lemma {:induction false} TotalPagesIsCeiling(total: nat, limit: int)
    requires limit >= 1
    ensures total == 0 ==> TotalPages(total, limit) == 0
    ensures total > 0 ==>
      (TotalPages(total, limit) - 1) * limit < total <= TotalPages(total, limit) * limit
  {
  }

  function FormatAll(ps: seq<Post>, categories: map<Id, Category>, render: string -> string): (vs: seq<PostView>)
    ensures |vs| == |ps|
    ensures forall i :: 0 <= i < |ps| ==> vs[i] == FormatPost(ps[i], categories, render)
  {
    seq(|ps|, i requires 0 <= i < |ps| => FormatPost(ps[i], categories, render))
  }

  /** `listed` holds, formatted, the rows of `ranked` from position `skip` on. */
  predicate FormatsFrom(listed: seq<PostView>, ranked: seq<Post>, skip: int, categories: map<Id, Category>, render: string -> string) {
    forall i :: 0 <= i < |listed| ==>
      0 <= skip + i < |ranked| && listed[i] == FormatPost(ranked[skip + i], categories, render)
  }

  /** Page `page` of `limit` rows of `ranked`, formatted. */
  function Page(ranked: seq<Post>, page: int, limit: int, categories: map<Id, Category>, render: string -> string): (listed: seq<PostView>)
    requires page >= 1 && limit >= 1
    ensures |listed| <= limit
    ensures var skip := (page - 1) * limit;
      |listed| == if skip >= |ranked| then 0 else if |ranked| - skip < limit then |ranked| - skip else limit
    ensures FormatsFrom(listed, ranked, (page - 1) * limit, categories, render)
    ensures (forall i, j :: 0 <= i < j < |ranked| ==> ranked[i].createdAt >= ranked[j].createdAt) ==>
      forall i, j :: 0 <= i < j < |listed| ==> listed[i].createdAt >= listed[j].createdAt
  {
    var window := Window(ranked, (page - 1) * limit, limit);
    FormatAll(window, categories, render)
  }

  /** `fetchPostsWithPagination`. */
  ghost function FetchPostsWithPagination(t: Tables, q: PageQuery, render: string -> string): (r: Result<PostPage>)
    ensures r.Err? <==> q.page.GetOr(1) < 1 || q.limit.GetOr(10) < 1
    ensures r.Err? ==> r.error == InvalidPageOrLimit
    ensures r.Ok? ==>
      var pg, listed, ranked := r.value.pagination, r.value.posts, Ranked(t, q);
      && pg.page == q.page.GetOr(1) && pg.limit == q.limit.GetOr(10)
      && pg.total == |Matching(t, q)|
      && pg.limit >= 1 && pg.totalPages == TotalPages(pg.total, pg.limit)
      && |listed| <= pg.limit
      && var skip := (pg.page - 1) * pg.limit;
      && |listed| == (if skip >= pg.total then 0 else if pg.total - skip < pg.limit then pg.total - skip else pg.limit)
      && FormatsFrom(listed, ranked, (pg.page - 1) * pg.limit, t.categories, render)
      && (forall i, j :: 0 <= i < j < |listed| ==> listed[i].createdAt >= listed[j].createdAt)
  {
    var page, limit := q.page.GetOr(DefaultPage), q.limit.GetOr(DefaultLimit);
    if page < 1 || limit < 1 then Err(InvalidPageOrLimit)
    else
      var ranked := Ranked(t, q);
      var listed := Page(ranked, page, limit, t.categories, render);
      assert forall i, j :: 0 <= i < j < |listed| ==> listed[i].createdAt >= listed[j].createdAt;
      Ok(PostPage(listed, Pagination(page, limit, |ranked|, TotalPages(|ranked|, limit))))
  }

  /** `fetchPostById`: the post with its comments, oldest first. */
  ghost function FetchPostById(t: Tables, id: Id, render: string -> string): (r: Result<PostDetail>)
    ensures r.Err? <==> id !in t.posts
    ensures r.Err? ==> r.error == PostNotFound
    ensures r.Ok? ==>
      && r.value.post == FormatPost(t.posts[id], t.categories, render)
      && (forall c :: c in r.value.comments <==> c in t.comments.Values && c.postId == id)
      && |r.value.comments| == |CommentService.CommentsOn(t.comments, id)|
      && (forall i, j :: 0 <= i < j < |r.value.comments| ==> r.value.comments[i].createdAt <= r.value.comments[j].createdAt)
  {
    if id !in t.posts then Err(PostNotFound)
    else
      CommentService.CommentOrdersArePreorders();
      var comments := Ordering.SortBy(CommentService.CommentsOn(t.comments, id), CommentService.OlderFirst);
      Ok(PostDetail(FormatPost(t.posts[id], t.categories, render), comments))
  }

  // ---------------------------------------------------------------------------
  // Writes

  /** Why the database refuses `ids` as a post's links, if it does: a nested
      `connect` to a missing category, or the same category twice. */
  function LinkFailure(ids: seq<Id>, categories: map<Id, Category>): (e: Option<Error>)
    ensures e.None? <==> LinksResolve(ids, categories)
  {
    if exists i :: 0 <= i < |ids| && ids[i] !in categories then Some(RecordNotFound)
    else if !Distinct(ids) then Some(UniqueConstraintFailed)
    else None
  }

  /** `createNewPost`: links are written only for a non-empty `categoryIds`. */
  function Create(t: Tables, title: string, content: string, authorId: Id, categoryIds: Option<seq<Id>>,
                  newId: Id, now: Time, render: string -> string): (s: Step<PostView>)
    ensures title == "" || content == "" ==> s == Step(t, Err(TitleAndContentRequired))
    ensures s.result.Ok? <==>
      title != "" && content != "" && newId !in t.posts && LinksResolve(categoryIds.GetOr([]), t.categories)
    ensures s.result.Err? ==> s.after == t
    ensures s.result.Ok? ==>
      var p := Post(newId, title, content, authorId, categoryIds.GetOr([]), now);
      && s.after == t.(posts := t.posts[newId := p])
      && s.result.value == FormatPost(p, t.categories, render)
  {
    if title == "" || content == "" then Step(t, Err(TitleAndContentRequired))
    else
      var links := if categoryIds.Some? && |categoryIds.value| > 0 then categoryIds.value else [];
      if newId in t.posts then Step(t, Err(UniqueConstraintFailed))
      else match LinkFailure(links, t.categories)
        case Some(e) => Step(t, Err(e))
        case None =>
          var post := Post(newId, title, content, authorId, links, now);
          Step(t.(posts := t.posts[newId := post]), Ok(FormatPost(post, t.categories, render)))
  }

  /** `modifyPost`: existence, then ownership; supplied `categoryIds` (even an
      empty list) replace the links wholesale. */
  function Modify(t: Tables, id: Id, authorId: Id, title: string, content: string,
                  categoryIds: Option<seq<Id>>, render: string -> string): (s: Step<PostView>)
    ensures id !in t.posts ==> s == Step(t, Err(PostNotFound))
    ensures id in t.posts && t.posts[id].authorId != authorId ==> s == Step(t, Err(Unauthorized))
    ensures s.result.Ok? <==>
      id in t.posts && t.posts[id].authorId == authorId &&
      (categoryIds.None? || LinksResolve(categoryIds.value, t.categories))
    ensures s.result.Err? ==> s.after == t
    ensures s.result.Ok? ==>
      var before := t.posts[id];
      var p := before.(title := title, content := content, categoryIds := categoryIds.GetOr(before.categoryIds));
      && s.after == t.(posts := t.posts[id := p])
      && s.result.value == FormatPost(p, t.categories, render)
  {
    if id !in t.posts then Step(t, Err(PostNotFound))
    else
      var post := t.posts[id];
      if post.authorId != authorId then Step(t, Err(Unauthorized))
      else
        var failure := if categoryIds.Some? then LinkFailure(categoryIds.value, t.categories) else None;
        match failure
        case Some(e) => Step(t, Err(e))
        case None =>
          var updated := post.(title := title, content := content, categoryIds := categoryIds.GetOr(post.categoryIds));
          Step(t.(posts := t.posts[id := updated]), Ok(FormatPost(updated, t.categories, render)))
  }

  /** `removePost`: existence, then ownership; the post's links and comments go with it. */
  function Remove(t: Tables, id: Id, authorId: Id): (s: Step<()>)
    ensures id !in t.posts ==> s == Step(t, Err(PostNotFound))
    ensures id in t.posts && t.posts[id].authorId != authorId ==> s == Step(t, Err(Unauthorized))
    ensures s.result.Ok? <==> id in t.posts && t.posts[id].authorId == authorId
    ensures s.result.Err? ==> s.after == t
    ensures s.result.Ok? ==>
      && s.after.posts.Keys == t.posts.Keys - {id}
      && (forall k :: k in s.after.posts ==> s.after.posts[k] == t.posts[k])
      && (forall k :: k in s.after.comments <==> k in t.comments && t.comments[k].postId != id)
      && (forall k :: k in s.after.comments ==> s.after.comments[k] == t.comments[k])
      && s.after.users == t.users && s.after.tokens == t.tokens && s.after.categories == t.categories
  {
    if id !in t.posts then Step(t, Err(PostNotFound))
    else if t.posts[id].authorId != authorId then Step(t, Err(Unauthorized))
    else
      var comments := map k | k in t.comments && t.comments[k].postId != id :: t.comments[k];
      Step(t.(posts := t.posts - {id}, comments := comments), Ok(()))
  }

  // ---------------------------------------------------------------------------
  // Properties relating several calls

  /** Only the author of a post can change the tables through it. */
  lemma OnlyAuthorChangesPosts(t: Tables, id: Id, caller: Id, title: string, content: string,
                               categoryIds: Option<seq<Id>>, render: string -> string)
    ensures Modify(t, id, caller, title, content, categoryIds, render).after != t ==>
      id in t.posts && t.posts[id].authorId == caller
    ensures Remove(t, id, caller).after != t ==>
      id in t.posts && t.posts[id].authorId == caller
  {
  }

  /** The author's update is what a later read shows. */
  lemma {:induction false} ReadAfterModify(t: Tables, id: Id, authorId: Id, title: string, content: string,
                                           categoryIds: Option<seq<Id>>, render: string -> string)
    requires Modify(t, id, authorId, title, content, categoryIds, render).result.Ok?
    ensures var s := Modify(t, id, authorId, title, content, categoryIds, render);
      var read := FetchPostById(s.after, id, render);
      read.Ok? && read.value.post == s.result.value
  {
  }

  /** Ten matching posts, page 2 of 5: the sixth to tenth newest, and two pages. */
  lemma {:induction false} SecondPageOfTen(t: Tables, render: string -> string)
    requires |Matching(t, PageQuery(Some(2), Some(5), None, None))| == 10
    ensures var r := FetchPostsWithPagination(t, PageQuery(Some(2), Some(5), None, None), render);
      var ranked := Ranked(t, PageQuery(Some(2), Some(5), None, None));
      && r.Ok?
      && r.value.pagination == Pagination(2, 5, 10, 2)
      && |r.value.posts| == 5
      && forall i :: 0 <= i < 5 ==> r.value.posts[i].id == ranked[5 + i].id
  {
    TotalPagesIsCeiling(10, 5);
  }

  /** A missing `page` or `limit` reads as page 1 of 10. */
  lemma DefaultsArePageOneOfTen(t: Tables, search: Option<string>, category: Option<string>, render: string -> string)
    ensures var r := FetchPostsWithPagination(t, PageQuery(None, None, search, category), render);
      r.Ok? && r.value.pagination.page == 1 && r.value.pagination.limit == 10
  {
  }

  // ---------------------------------------------------------------------------
  // The constraints survive every operation

  lemma {:induction false} CreateKeepsWellformed(t: Tables, title: string, content: string, authorId: Id,
                                                 categoryIds: Option<seq<Id>>, newId: Id, now: Time, render: string -> string)
    requires Wellformed(t)
    ensures Wellformed(Create(t, title, content, authorId, categoryIds, newId, now, render).after)
  {
  }

  lemma {:induction false} ModifyKeepsWellformed(t: Tables, id: Id, authorId: Id, title: string, content: string,
                                                 categoryIds: Option<seq<Id>>, render: string -> string)
    requires Wellformed(t)
    ensures Wellformed(Modify(t, id, authorId, title, content, categoryIds, render).after)
  {
  }

  lemma {:induction false} RemoveKeepsWellformed(t: Tables, id: Id, authorId: Id)
    requires Wellformed(t)
    ensures Wellformed(Remove(t, id, authorId).after)
  {
  }

  // ---------------------------------------------------------------------------
  // The service, over the shared database handle

  method CreateNewPost(db: Db, title: string, content: string, authorId: Id, categoryIds: Option<seq<Id>>,
                       newId: Id, now: Time, render: string -> string) returns (r: Result<PostView>)
    requires db.Valid()
    modifies db
    ensures db.Valid()
    ensures Step(db.Contents(), r) == Create(old(db.Contents()), title, content, authorId, categoryIds, newId, now, render)
  {
    CreateKeepsWellformed(db.Contents(), title, content, authorId, categoryIds, newId, now, render);
    if title == "" || content == "" {
      return Err(TitleAndContentRequired);
    }
    var links := [];
    if categoryIds.Some? && |categoryIds.value| > 0 {
      links := categoryIds.value;
    }
    if newId in db.posts {
      return Err(UniqueConstraintFailed);
    }
    var failure := LinkFailure(links, db.categories);
    if failure.Some? {
      return Err(failure.value);
    }
    var post := Post(newId, title, content, authorId, links, now);
    db.posts := db.posts[newId := post];
    r := Ok(FormatPost(post, db.categories, render));
  }

  method ModifyPost(db: Db, id: Id, authorId: Id, title: string, content: string,
                    categoryIds: Option<seq<Id>>, render: string -> string) returns (r: Result<PostView>)
    requires db.Valid()
    modifies db
    ensures db.Valid()
    ensures Step(db.Contents(), r) == Modify(old(db.Contents()), id, authorId, title, content, categoryIds, render)
  {
    ModifyKeepsWellformed(db.Contents(), id, authorId, title, content, categoryIds, render);
    if id !in db.posts {
      return Err(PostNotFound);
    }
    var post := db.posts[id];
    if post.authorId != authorId {
      return Err(Unauthorized);
    }
    var links := post.categoryIds;
    if categoryIds.Some? {
      links := categoryIds.value;
      var failure := LinkFailure(links, db.categories);
      if failure.Some? {
        return Err(failure.value);
      }
    }
    var updated := post.(title := title, content := content, categoryIds := links);
    db.posts := db.posts[id := updated];
    r := Ok(FormatPost(updated, db.categories, render));
  }

  method RemovePost(db: Db, id: Id, authorId: Id) returns (r: Result<()>)
    requires db.Valid()
    modifies db
    ensures db.Valid()
    ensures Step(db.Contents(), r) == Remove(old(db.Contents()), id, authorId)
  {
    RemoveKeepsWellformed(db.Contents(), id, authorId);
    if id !in db.posts {
      return Err(PostNotFound);
    }
    if db.posts[id].authorId != authorId {
      return Err(Unauthorized);
    }
    db.comments := map k | k in db.comments && db.comments[k].postId != id :: db.comments[k];
    db.posts := db.posts - {id};
    r := Ok(());
  }
}
