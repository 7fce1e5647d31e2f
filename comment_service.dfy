/** Comments on posts: creation under an existing post, listing, and
    author-only update and deletion. */
module CommentService {
  import opened Core
  import opened Store
  import Ordering

  /** Newest comment first (`orderBy: { createdAt: 'desc' }`). */
  predicate NewerFirst(a: Comment, b: Comment) {
    a.createdAt >= b.createdAt
  }

  /** Oldest comment first (`orderBy: { createdAt: 'asc' }`). */
  predicate OlderFirst(a: Comment, b: Comment) {
    a.createdAt <= b.createdAt
  }

  lemma CommentOrdersArePreorders()
    ensures Ordering.TotalPreorder(NewerFirst)
    ensures Ordering.TotalPreorder(OlderFirst)
  {
  }

  /** The comment rows whose `postId` is `postId`. */
  ghost function CommentsOn(comments: map<Id, Comment>, postId: Id): (r: set<Comment>)
    ensures forall c :: c in r <==> c in comments.Values && c.postId == postId
  {
    set k | k in comments && comments[k].postId == postId :: comments[k]
  }

  /** Tables `t2` differs from `t` at most in its comments. */
  predicate OnlyCommentsDiffer(t: Tables, t2: Tables) {
    t2.(comments := t.comments) == t
  }

  // ---------------------------------------------------------------------------
  // Specification functions

  /** `createNewComment`: empty content is refused before the post is looked up. */
  function Create(t: Tables, postId: Id, content: string, authorId: Id, newId: Id, now: Time): (s: Step<Comment>)
    ensures content == "" ==> s == Step(t, Err(ContentRequired))
    ensures content != "" && postId !in t.posts ==> s == Step(t, Err(PostNotFound))
    ensures s.result.Ok? <==> content != "" && postId in t.posts && newId !in t.comments
    ensures s.result.Err? ==> s.after == t
    ensures s.result.Ok? ==>
      && s.result.value == Comment(newId, content, postId, authorId, now)
      && s.after.comments.Keys == t.comments.Keys + {newId}
      && s.after.comments[newId] == s.result.value
      && (forall k :: k in t.comments ==> s.after.comments[k] == t.comments[k])
      && OnlyCommentsDiffer(t, s.after)
  {
    if content == "" then Step(t, Err(ContentRequired))
    else if postId !in t.posts then Step(t, Err(PostNotFound))
    else if newId in t.comments then Step(t, Err(UniqueConstraintFailed))
    else
      var comment := Comment(newId, content, postId, authorId, now);
      Step(t.(comments := t.comments[newId := comment]), Ok(comment))
  }

  /** `fetchCommentsByPostId`: the post's comments, newest first. */
  ghost function FetchCommentsByPostId(t: Tables, postId: Id): (r: Result<seq<Comment>>)
    ensures r.Err? <==> postId !in t.posts
    ensures r.Err? ==> r.error == PostNotFound
    ensures r.Ok? ==>
      && (forall c :: c in r.value <==> c in t.comments.Values && c.postId == postId)
      && |r.value| == |CommentsOn(t.comments, postId)|
      && (forall i, j :: 0 <= i < j < |r.value| ==> r.value[i].createdAt >= r.value[j].createdAt)
  {
    if postId !in t.posts then Err(PostNotFound)
    else
      CommentOrdersArePreorders();
      Ok(Ordering.SortBy(CommentsOn(t.comments, postId), NewerFirst))
  }

  /** `modifyComment`: checks content, then existence, then authorship. */
  function Modify(t: Tables, id: Id, authorId: Id, content: string): (s: Step<Comment>)
    ensures content == "" ==> s == Step(t, Err(ContentRequired))
    ensures content != "" && id !in t.comments ==> s == Step(t, Err(CommentNotFound))
    ensures content != "" && id in t.comments && t.comments[id].authorId != authorId ==>
      s == Step(t, Err(Unauthorized))
    ensures s.result.Ok? <==> content != "" && id in t.comments && t.comments[id].authorId == authorId
    ensures s.result.Err? ==> s.after == t
    ensures s.result.Ok? ==>
      && s.result.value == t.comments[id].(content := content)
      && s.after.comments == t.comments[id := s.result.value]
      && OnlyCommentsDiffer(t, s.after)
  {
    if content == "" then Step(t, Err(ContentRequired))
    else if id !in t.comments then Step(t, Err(CommentNotFound))
    else if t.comments[id].authorId != authorId then Step(t, Err(Unauthorized))
    else
      var updated := t.comments[id].(content := content);
      Step(t.(comments := t.comments[id := updated]), Ok(updated))
  }

  /** `removeComment`: only the author deletes. */
  function Remove(t: Tables, id: Id, authorId: Id): (s: Step<()>)
    ensures id !in t.comments ==> s == Step(t, Err(CommentNotFound))
    ensures id in t.comments && t.comments[id].authorId != authorId ==> s == Step(t, Err(Unauthorized))
    ensures s.result.Ok? <==> id in t.comments && t.comments[id].authorId == authorId
    ensures s.result.Err? ==> s.after == t
    ensures s.result.Ok? ==>
      && id !in s.after.comments
      && s.after.comments.Keys == t.comments.Keys - {id}
      && (forall k :: k in s.after.comments ==> s.after.comments[k] == t.comments[k])
      && OnlyCommentsDiffer(t, s.after)
  {
    if id !in t.comments then Step(t, Err(CommentNotFound))
    else if t.comments[id].authorId != authorId then Step(t, Err(Unauthorized))
    else Step(t.(comments := t.comments - {id}), Ok(()))
  }

  // ---------------------------------------------------------------------------
  // Properties relating several calls

  /** Only the author of a comment can change the tables through it. */
  lemma OnlyAuthorChangesComments(t: Tables, id: Id, caller: Id, content: string)
    ensures Modify(t, id, caller, content).after != t ==>
      id in t.comments && t.comments[id].authorId == caller
    ensures Remove(t, id, caller).after != t ==>
      id in t.comments && t.comments[id].authorId == caller
  {
  }

  /** A created comment is listed under its post. */
  lemma {:induction false} CreatedCommentIsListed(t: Tables, postId: Id, content: string, authorId: Id, newId: Id, now: Time)
    requires Create(t, postId, content, authorId, newId, now).result.Ok?
    ensures var s := Create(t, postId, content, authorId, newId, now);
      var listed := FetchCommentsByPostId(s.after, postId);
      listed.Ok? && s.result.value in listed.value
  {
  }

  /** Deleting a comment takes it out of its post's listing. */
  lemma {:induction false} RemovedCommentIsNotListed(t: Tables, id: Id, authorId: Id)
    requires KeyedById(t)
    requires Remove(t, id, authorId).result.Ok?
    requires t.comments[id].postId in t.posts
    ensures var s := Remove(t, id, authorId);
      var listed := FetchCommentsByPostId(s.after, t.comments[id].postId);
      listed.Ok? && t.comments[id] !in listed.value
  {
  }

  // ---------------------------------------------------------------------------
  // The constraints survive every operation

  lemma {:induction false} CreateKeepsWellformed(t: Tables, postId: Id, content: string, authorId: Id, newId: Id, now: Time)
    requires Wellformed(t)
    ensures Wellformed(Create(t, postId, content, authorId, newId, now).after)
  {
  }

  lemma {:induction false} ModifyKeepsWellformed(t: Tables, id: Id, authorId: Id, content: string)
    requires Wellformed(t)
    ensures Wellformed(Modify(t, id, authorId, content).after)
  {
  }

  lemma {:induction false} RemoveKeepsWellformed(t: Tables, id: Id, authorId: Id)
    requires Wellformed(t)
    ensures Wellformed(Remove(t, id, authorId).after)
  {
  }

  // ---------------------------------------------------------------------------
  // The service, over the shared database handle

  method CreateNewComment(db: Db, postId: Id, content: string, authorId: Id, newId: Id, now: Time)
    returns (r: Result<Comment>)
    requires db.Valid()
    modifies db
    ensures db.Valid()
    ensures Step(db.Contents(), r) == Create(old(db.Contents()), postId, content, authorId, newId, now)
  {
    CreateKeepsWellformed(db.Contents(), postId, content, authorId, newId, now);
    if content == "" {
      return Err(ContentRequired);
    }
    if postId !in db.posts {
      return Err(PostNotFound);
    }
    if newId in db.comments {
      return Err(UniqueConstraintFailed);
    }
    var comment := Comment(newId, content, postId, authorId, now);
    db.comments := db.comments[newId := comment];
    r := Ok(comment);
  }

  method ModifyComment(db: Db, id: Id, authorId: Id, content: string) returns (r: Result<Comment>)
    requires db.Valid()
    modifies db
    ensures db.Valid()
    ensures Step(db.Contents(), r) == Modify(old(db.Contents()), id, authorId, content)
  {
    ModifyKeepsWellformed(db.Contents(), id, authorId, content);
    if content == "" {
      return Err(ContentRequired);
    }
    if id !in db.comments {
      return Err(CommentNotFound);
    }
    var comment := db.comments[id];
    if comment.authorId != authorId {
      return Err(Unauthorized);
    }
    var updated := comment.(content := content);
    db.comments := db.comments[id := updated];
    r := Ok(updated);
  }

  method RemoveComment(db: Db, id: Id, authorId: Id) returns (r: Result<()>)
    requires db.Valid()
    modifies db
    ensures db.Valid()
    ensures Step(db.Contents(), r) == Remove(old(db.Contents()), id, authorId)
  {
    RemoveKeepsWellformed(db.Contents(), id, authorId);
    if id !in db.comments {
      return Err(CommentNotFound);
    }
    if db.comments[id].authorId != authorId {
      return Err(Unauthorized);
    }
    db.comments := db.comments - {id};
    r := Ok(());
  }
}
