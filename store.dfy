/** The relational store the services share (the Prisma client): one table per
    entity, each a map keyed by its primary key, and the constraints the
    database keeps over them. */
module Store {
  import opened Core

  /** A snapshot of every table. A post's PostCategory link rows live in its
      `categoryIds`. */
  datatype Tables = Tables(
    users: map<Id, User>,
    tokens: map<string, RefreshToken>,
    posts: map<Id, Post>,
    comments: map<Id, Comment>,
    categories: map<Id, Category>)

  /** What an operation leaves behind and what it answers. */
  datatype Step<+T> = Step(after: Tables, result: Result<T>)

  /** Every row sits under its own primary key. */
  predicate KeyedById(t: Tables) {
    && (forall k :: k in t.users ==> t.users[k].id == k)
    && (forall k :: k in t.tokens ==> t.tokens[k].token == k)
    && (forall k :: k in t.posts ==> t.posts[k].id == k)
    && (forall k :: k in t.comments ==> t.comments[k].id == k)
    && (forall k :: k in t.categories ==> t.categories[k].id == k)
  }

  /** The unique index on `User.email`. */
  predicate UniqueEmails(users: map<Id, User>) {
    forall a, b :: a in users && b in users && users[a].email == users[b].email ==> a == b
  }

  /** The unique index on `Category.slug`. */
  predicate UniqueSlugs(categories: map<Id, Category>) {
    forall a, b :: a in categories && b in categories && categories[a].slug == categories[b].slug ==> a == b
  }

  predicate Distinct<T(==)>(s: seq<T>) {
    forall i, j :: 0 <= i < j < |s| ==> s[i] != s[j]
  }

  /** A post's links name existing categories, each at most once (the link
      table's composite key). */
  predicate LinksResolve(ids: seq<Id>, categories: map<Id, Category>) {
    && (forall i :: 0 <= i < |ids| ==> ids[i] in categories)
    && Distinct(ids)
  }

  /** The constraints the database keeps. */
  predicate Wellformed(t: Tables) {
    && KeyedById(t)
    && UniqueEmails(t.users)
    && UniqueSlugs(t.categories)
    && (forall p :: p in t.posts ==> LinksResolve(t.posts[p].categoryIds, t.categories))
  }

  /** The database handle. Its tables are replaced, never aliased, by the
      operations in the service modules. */
  class Db {
    var users: map<Id, User>
    var tokens: map<string, RefreshToken>
    var posts: map<Id, Post>
    var comments: map<Id, Comment>
    var categories: map<Id, Category>

    function Contents(): Tables
      reads this
    {
      Tables(users, tokens, posts, comments, categories)
    }

    ghost predicate Valid()
      reads this
    {
      Wellformed(Contents())
    }

    /** Connects to a database whose tables hold `initial`. */
    constructor (initial: Tables)
      requires Wellformed(initial)
      ensures Valid()
      ensures Contents() == initial
    {
      users := initial.users;
      tokens := initial.tokens;
      posts := initial.posts;
      comments := initial.comments;
      categories := initial.categories;
    }
  }
}
