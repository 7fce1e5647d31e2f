/** Categories: creation under a unique slug, listing by name, reading one
    category with the posts linked to it, update and deletion. */
module CategoryService {
  import opened Core
  import opened Store
  import Ordering

  /** A category row together with the posts linked to it
      (`include: { posts: { include: { post: true } } }`). */
  datatype CategoryDetail = CategoryDetail(category: Category, posts: set<Post>)

  /** Some category row already carries `slug` (`findUnique({ where: { slug } })`). */
  predicate SlugTaken(categories: map<Id, Category>, slug: string) {
    exists k :: k in categories && categories[k].slug == slug
  }

  /** A category other than `id` already carries `slug`. */
  predicate SlugTakenByOther(categories: map<Id, Category>, id: Id, slug: string) {
    exists k :: k in categories && categories[k].slug == slug && k != id
  }

  /** `orderBy: { name: 'asc' }`. */
  predicate ByName(a: Category, b: Category) {
    Ordering.StrLe(a.name, b.name)
  }

  lemma ByNameIsPreorder()
    ensures Ordering.TotalPreorder(ByName)
  {
    forall a: Category, b: Category ensures ByName(a, b) || ByName(b, a) {
      Ordering.StrLeTotal(a.name, b.name);
    }
    forall a: Category, b: Category, c: Category | ByName(a, b) && ByName(b, c) ensures ByName(a, c) {
      Ordering.StrLeTransitive(a.name, b.name, c.name);
    }
  }

  /** The posts whose links include category `id`. */
  ghost function LinkedPosts(posts: map<Id, Post>, id: Id): (r: set<Post>)
    ensures forall p :: p in r <==> p in posts.Values && id in p.categoryIds
  {
    set k | k in posts && id in posts[k].categoryIds :: posts[k]
  }

  /** `ids` with every occurrence of `x` dropped, order kept. */
  function Without(ids: seq<Id>, x: Id): (r: seq<Id>)
    ensures forall y :: y in r <==> y in ids && y != x
    ensures |r| <= |ids|
  {
    if ids == [] then []
    else if ids[0] == x then Without(ids[1..], x)
    else [ids[0]] + Without(ids[1..], x)
  }

  /** Dropping a link keeps the remaining links distinct. */
  lemma {:induction false} WithoutKeepsDistinct(ids: seq<Id>, x: Id)
    requires Distinct(ids)
    ensures Distinct(Without(ids, x))
  {
    if ids != [] {
      assert Distinct(ids[1..]) by {
        forall i, j | 0 <= i < j < |ids[1..]| ensures ids[1..][i] != ids[1..][j] {
          assert ids[1..][i] == ids[i + 1] && ids[1..][j] == ids[j + 1];
        }
      }
      WithoutKeepsDistinct(ids[1..], x);
      if ids[0] != x {
        var rest := Without(ids[1..], x);
        assert ids[0] !in ids[1..] by {
          forall i | 0 <= i < |ids[1..]| ensures ids[1..][i] != ids[0] {
            assert ids[1..][i] == ids[i + 1];
          }
        }
        assert ids[0] !in rest;
        var r := [ids[0]] + rest;
        forall i, j | 0 <= i < j < |r| ensures r[i] != r[j] {
          if i == 0 {
            assert r[j] == rest[j - 1] && r[j] in rest;
          } else {
            assert r[i] == rest[i - 1] && r[j] == rest[j - 1];
          }
        }
      }
    }
  }

  /** Tables `t2` differs from `t` at most in its categories. */
  predicate OnlyCategoriesDiffer(t: Tables, t2: Tables) {
    t2.(categories := t.categories) == t
  }

  // ---------------------------------------------------------------------------
  // Specification functions

  /** `createCategory`: a taken slug is refused before anything is written. */
  function Create(t: Tables, name: string, slug: string, newId: Id): (s: Step<Category>)
    ensures SlugTaken(t.categories, slug) ==> s == Step(t, Err(CategorySlugExists))
    ensures s.result.Ok? <==> !SlugTaken(t.categories, slug) && newId !in t.categories
    ensures s.result.Err? ==> s.after == t
    ensures s.result.Ok? ==>
      && s.result.value == Category(newId, name, slug)
      && s.after.categories == t.categories[newId := s.result.value]
      && OnlyCategoriesDiffer(t, s.after)
  {
    if SlugTaken(t.categories, slug) then Step(t, Err(CategorySlugExists))
    else if newId in t.categories then Step(t, Err(UniqueConstraintFailed))
    else
      var category := Category(newId, name, slug);
      Step(t.(categories := t.categories[newId := category]), Ok(category))
  }

  /** `getCategories`: every category, by name ascending. */
  ghost function GetCategories(t: Tables): (r: seq<Category>)
    ensures |r| == |t.categories.Values|
    ensures forall c :: c in r <==> c in t.categories.Values
    ensures forall i, j :: 0 <= i < j < |r| ==> Ordering.StrLe(r[i].name, r[j].name)
  {
    ByNameIsPreorder();
    Ordering.SortBy(t.categories.Values, ByName)
  }

  /** `getCategoryById`. */
  ghost function GetCategoryById(t: Tables, id: Id): (r: Result<CategoryDetail>)
    ensures r.Err? <==> id !in t.categories
    ensures r.Err? ==> r.error == CategoryNotFound
    ensures r.Ok? ==>
      && r.value.category == t.categories[id]
      && forall p :: p in r.value.posts <==> p in t.posts.Values && id in p.categoryIds
  {
    if id !in t.categories then Err(CategoryNotFound)
    else Ok(CategoryDetail(t.categories[id], LinkedPosts(t.posts, id)))
  }

  /** `updateCategory`: the slug check comes before the row is looked up, and
      keeping one's own slug is allowed. */
  function Update(t: Tables, id: Id, name: string, slug: string): (s: Step<Category>)
    ensures SlugTakenByOther(t.categories, id, slug) ==> s == Step(t, Err(CategorySlugExists))
    ensures !SlugTakenByOther(t.categories, id, slug) && id !in t.categories ==> s == Step(t, Err(RecordNotFound))
    ensures s.result.Ok? <==> !SlugTakenByOther(t.categories, id, slug) && id in t.categories
    ensures s.result.Err? ==> s.after == t
    ensures s.result.Ok? ==>
      && s.result.value == Category(id, name, slug)
      && s.after.categories == t.categories[id := s.result.value]
      && OnlyCategoriesDiffer(t, s.after)
  {
    if SlugTakenByOther(t.categories, id, slug) then Step(t, Err(CategorySlugExists))
    else if id !in t.categories then Step(t, Err(RecordNotFound))
    else
      var category := Category(id, name, slug);
      Step(t.(categories := t.categories[id := category]), Ok(category))
  }

  /** The posts with their links to category `id` removed. */
  function Unlinked(posts: map<Id, Post>, id: Id): (r: map<Id, Post>)
    ensures r.Keys == posts.Keys
    ensures forall k :: k in r ==> r[k] == posts[k].(categoryIds := Without(posts[k].categoryIds, id))
  {
    map k | k in posts :: posts[k].(categoryIds := Without(posts[k].categoryIds, id))
  }

  /** `deleteCategory`: the row goes, and with it every link to it. */
  function Delete(t: Tables, id: Id): (s: Step<()>)
    ensures s.result.Ok? <==> id in t.categories
    ensures s.result.Err? ==> s == Step(t, Err(RecordNotFound))
    ensures s.result.Ok? ==>
      && s.after.categories == t.categories - {id}
      && s.after.posts.Keys == t.posts.Keys
      && (forall k :: k in s.after.posts ==>
            && s.after.posts[k].categoryIds == Without(t.posts[k].categoryIds, id)
            && s.after.posts[k].(categoryIds := t.posts[k].categoryIds) == t.posts[k])
      && s.after.users == t.users && s.after.tokens == t.tokens && s.after.comments == t.comments
  {
    if id !in t.categories then Step(t, Err(RecordNotFound))
    else Step(t.(categories := t.categories - {id}, posts := Unlinked(t.posts, id)), Ok(()))
  }

  // ---------------------------------------------------------------------------
  // Properties relating several calls

  /** A slug, once created, cannot be created again. */
  lemma {:induction false} SlugCreatedOnce(t: Tables, name: string, slug: string, newId: Id, name2: string, newId2: Id)
    requires Create(t, name, slug, newId).result.Ok?
    ensures Create(Create(t, name, slug, newId).after, name2, slug, newId2) ==
      Step(Create(t, name, slug, newId).after, Err(CategorySlugExists))
  {
    var after := Create(t, name, slug, newId).after;
    assert after.categories[newId].slug == slug;
  }

  /** Updating a category is what a later read of it shows. */
  lemma ReadAfterUpdate(t: Tables, id: Id, name: string, slug: string)
    requires Update(t, id, name, slug).result.Ok?
    ensures var read := GetCategoryById(Update(t, id, name, slug).after, id);
      read.Ok? && read.value.category == Category(id, name, slug)
  {
  }

  /** After deletion the category cannot be read and no post links to it. */
  lemma {:induction false} DeleteLeavesNoLinks(t: Tables, id: Id)
    requires Delete(t, id).result.Ok?
    ensures var after := Delete(t, id).after;
      && GetCategoryById(after, id) == Err(CategoryNotFound)
      && forall k :: k in after.posts ==> id !in after.posts[k].categoryIds
  {
  }

  // ---------------------------------------------------------------------------
  // The constraints survive every operation

  lemma {:induction false} CreateKeepsWellformed(t: Tables, name: string, slug: string, newId: Id)
    requires Wellformed(t)
    ensures Wellformed(Create(t, name, slug, newId).after)
  {
  }

  lemma {:induction false} UpdateKeepsWellformed(t: Tables, id: Id, name: string, slug: string)
    requires Wellformed(t)
    ensures Wellformed(Update(t, id, name, slug).after)
  {
  }

  lemma {:induction false} DeleteKeepsWellformed(t: Tables, id: Id)
    requires Wellformed(t)
    ensures Wellformed(Delete(t, id).after)
  {
    var s := Delete(t, id);
    if s.result.Ok? {
      forall p | p in s.after.posts ensures LinksResolve(s.after.posts[p].categoryIds, s.after.categories) {
        var ids := t.posts[p].categoryIds;
        assert LinksResolve(ids, t.categories);
        WithoutKeepsDistinct(ids, id);
        var r := Without(ids, id);
        forall i | 0 <= i < |r| ensures r[i] in s.after.categories {
          assert r[i] in r;
          var j :| 0 <= j < |ids| && ids[j] == r[i];
        }
      }
    }
  }

  // ---------------------------------------------------------------------------
  // The service, over the shared database handle

  method CreateCategory(db: Db, name: string, slug: string, newId: Id) returns (r: Result<Category>)
    requires db.Valid()
    modifies db
    ensures db.Valid()
    ensures Step(db.Contents(), r) == Create(old(db.Contents()), name, slug, newId)
  {
    CreateKeepsWellformed(db.Contents(), name, slug, newId);
    if SlugTaken(db.categories, slug) {
      return Err(CategorySlugExists);
    }
    if newId in db.categories {
      return Err(UniqueConstraintFailed);
    }
    var category := Category(newId, name, slug);
    db.categories := db.categories[newId := category];
    r := Ok(category);
  }

  method UpdateCategory(db: Db, id: Id, name: string, slug: string) returns (r: Result<Category>)
    requires db.Valid()
    modifies db
    ensures db.Valid()
    ensures Step(db.Contents(), r) == Update(old(db.Contents()), id, name, slug)
  {
    UpdateKeepsWellformed(db.Contents(), id, name, slug);
    if SlugTakenByOther(db.categories, id, slug) {
      return Err(CategorySlugExists);
    }
    if id !in db.categories {
      return Err(RecordNotFound);
    }
    var category := Category(id, name, slug);
    db.categories := db.categories[id := category];
    r := Ok(category);
  }

  method DeleteCategory(db: Db, id: Id) returns (r: Result<()>)
    requires db.Valid()
    modifies db
    ensures db.Valid()
    ensures Step(db.Contents(), r) == Delete(old(db.Contents()), id)
  {
    DeleteKeepsWellformed(db.Contents(), id);
    if id !in db.categories {
      return Err(RecordNotFound);
    }
    db.posts := Unlinked(db.posts, id);
    db.categories := db.categories - {id};
    r := Ok(());
  }
}
