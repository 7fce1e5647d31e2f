/** The request-body schemas and the middleware that gates a route on them. */
module Validate {
  import opened Core
  import Store
  import PostService
  import CommentService

  /** A parsed JSON request body. */
  datatype Json =
    | JString(str: string)
    | JNumber(num: int)
    | JBool(truth: bool)
    | JNull
    | JArray(items: seq<Json>)
    | JObject(fields: map<string, Json>)

  /** The string formats the schema library checks (`email()`, `url()`,
      `uuid()`), taken as given. */
  datatype Formats = Formats(email: string -> bool, url: string -> bool, uuid: string -> bool)

  /** The schemas the routes validate against. `LoginSchema` is
      `userSchema.omit({ name: true, avatarUrl: true })`. */
  datatype Schema = UserSchema | LoginSchema | UserUpdateSchema | PostSchema | CommentSchema | CategorySchema

  /** `z.string()` followed by a refinement `ok`. */
  predicate IsString(v: Json, ok: string -> bool) {
    v.JString? && ok(v.str)
  }

  /** A required key holding a string that satisfies `ok`. */
  predicate Required(body: map<string, Json>, key: string, ok: string -> bool) {
    key in body && IsString(body[key], ok)
  }

  /** `.optional()`: the key may be missing; if present its value satisfies `ok`. */
  predicate Optional(body: map<string, Json>, key: string, ok: Json -> bool) {
    key !in body || ok(body[key])
  }

  /** `.min(n)` on a string. */
  function MinLength(n: nat): string -> bool {
    s => |s| >= n
  }

  /** A character of the class `[a-z0-9-]`. */
  predicate SlugChar(c: char) {
    'a' <= c <= 'z' || '0' <= c <= '9' || c == '-'
  }

  /** `/^[a-z0-9-]+$/`: one class character, then the rest of the repetition. */
  predicate SlugPattern(s: string) {
    |s| >= 1 && SlugChar(s[0]) && (|s| == 1 || SlugPattern(s[1..]))
  }

  /** A slug is valid exactly when it is non-empty and made of `a-z`, `0-9` and `-`. */
  lemma {:induction false} SlugPatternIsAlphabet(s: string)
    ensures SlugPattern(s) <==> s != [] && forall i :: 0 <= i < |s| ==> SlugChar(s[i])
  {
    if |s| > 1 {
      SlugPatternIsAlphabet(s[1..]);
      if forall i :: 0 <= i < |s| ==> SlugChar(s[i]) {
        assert forall i :: 0 <= i < |s[1..]| ==> SlugChar(s[1..][i]) by {
          forall i | 0 <= i < |s[1..]| ensures SlugChar(s[1..][i]) {
            assert s[1..][i] == s[i + 1];
          }
        }
      }
      if SlugPattern(s) {
        forall i | 0 <= i < |s| ensures SlugChar(s[i]) {
          if i > 0 {
            assert s[i] == s[1..][i - 1];
          }
        }
      }
    }
  }

  /** `z.array(z.string().uuid())`. */
  predicate UuidArray(v: Json, f: Formats) {
    v.JArray? && forall i :: 0 <= i < |v.items| ==> IsString(v.items[i], f.uuid)
  }

  /** The keys a schema insists on. */
  function RequiredKeys(schema: Schema): set<string> {
    match schema
    case UserSchema => {"email", "password", "name"}
    case LoginSchema => {"email", "password"}
    case UserUpdateSchema => {}
    case PostSchema => {"title", "content"}
    case CommentSchema => {"content"}
    case CategorySchema => {"name", "slug"}
  }

  /** Every key any schema names; other keys are stripped unread. */
  const KnownKeys: set<string> :=
    {"email", "password", "name", "avatarUrl", "title", "content", "categoryIds", "slug"}

  /** Whether `body` parses under `schema`: an object in which every required
      key holds a string. Keys a schema does not name are ignored, as the
      library strips them. */
  predicate Accepts(schema: Schema, f: Formats, body: Json): (ok: bool)
    ensures ok ==> body.JObject?
    ensures ok ==> forall k :: k in RequiredKeys(schema) ==> k in body.fields && body.fields[k].JString?
  {
    body.JObject? &&
    var b := body.fields;
    match schema
    case UserSchema =>
      && Required(b, "email", f.email)
      && Required(b, "password", MinLength(8))
      && Required(b, "name", MinLength(1))
      && Optional(b, "avatarUrl", v => IsString(v, f.url))
    case LoginSchema =>
      && Required(b, "email", f.email)
      && Required(b, "password", MinLength(8))
    case UserUpdateSchema =>
      && Optional(b, "email", v => IsString(v, f.email))
      && Optional(b, "password", v => IsString(v, MinLength(8)))
      && Optional(b, "name", v => IsString(v, MinLength(1)))
      && Optional(b, "avatarUrl", (v: Json) => v.JNull? || IsString(v, f.url))
    case PostSchema =>
      && Required(b, "title", MinLength(1))
      && Required(b, "content", MinLength(1))
      && Optional(b, "categoryIds", v => UuidArray(v, f))
    case CommentSchema =>
      Required(b, "content", MinLength(1))
    case CategorySchema =>
      && Required(b, "name", MinLength(1))
      && Required(b, "slug", SlugPattern)
  }

  /** What the middleware does with a request: hand it on, or answer it. */
  datatype Gate = Next | Reject(status: int, error: string)

  /** `validate(schema)`: `next()` on a body the schema accepts, otherwise a
      400 answer with the error "Validation failed". */
  function Gatekeep(schema: Schema, f: Formats, body: Json): (g: Gate)
    ensures g == Next <==> Accepts(schema, f, body)
    ensures g != Next ==> g == Reject(400, "Validation failed")
  {
    if Accepts(schema, f, body) then Next else Reject(400, "Validation failed")
  }

  // ---------------------------------------------------------------------------
  // What the schemas guarantee to the services behind them

  /** A registration body carries a password of at least eight characters and
      a non-empty name; `avatarUrl`, when present, is a URL, and may be left out. */
  lemma UserBodyFields(f: Formats, body: Json)
    requires Accepts(UserSchema, f, body)
    ensures |body.fields["password"].str| >= 8
    ensures body.fields["name"].str != ""
    ensures "avatarUrl" in body.fields ==> IsString(body.fields["avatarUrl"], f.url)
    ensures Accepts(UserSchema, f, JObject(body.fields - {"avatarUrl"}))
  {
  }

  /** The login route's schema drops `name` and `avatarUrl` from the user
      schema: it accepts a body exactly when the user schema accepts it with
      those two fields replaced by a valid name and no avatar. */
  lemma LoginSchemaIsOmission(f: Formats, fields: map<string, Json>, name: string)
    requires name != ""
    ensures Accepts(LoginSchema, f, JObject(fields)) <==>
      Accepts(UserSchema, f, JObject((fields - {"avatarUrl"})["name" := JString(name)]))
  {
  }

  /** A key no schema names never changes the verdict. */
  lemma UnknownKeysIgnored(schema: Schema, f: Formats, fields: map<string, Json>, key: string, value: Json)
    requires key !in KnownKeys
    ensures Accepts(schema, f, JObject(fields[key := value])) <==> Accepts(schema, f, JObject(fields))
  {
  }

  /** The category body's slug is non-empty and drawn from `a-z`, `0-9`, `-`. */
  lemma CategoryBodySlug(f: Formats, body: Json)
    requires Accepts(CategorySchema, f, body)
    ensures var slug := body.fields["slug"].str;
      slug != [] && forall i :: 0 <= i < |slug| ==> SlugChar(slug[i])
  {
    SlugPatternIsAlphabet(body.fields["slug"].str);
  }

  /** Behind `validate(postSchema)`, creating a post never fails for an empty
      title or content. */
  lemma PostBodyPassesServiceCheck(f: Formats, body: Json, t: Store.Tables, authorId: Id,
                                   categoryIds: Option<seq<Id>>, newId: Id, now: Time, render: string -> string)
    requires Accepts(PostSchema, f, body)
    ensures var title, content := body.fields["title"].str, body.fields["content"].str;
      PostService.Create(t, title, content, authorId, categoryIds, newId, now, render).result
        != Err(TitleAndContentRequired)
  {
  }

  /** Behind `validate(commentSchema)`, creating or editing a comment never
      fails for empty content. */
  lemma CommentBodyPassesServiceCheck(f: Formats, body: Json, t: Store.Tables, postId: Id, id: Id,
                                      authorId: Id, newId: Id, now: Time)
    requires Accepts(CommentSchema, f, body)
    ensures var content := body.fields["content"].str;
      && CommentService.Create(t, postId, content, authorId, newId, now).result != Err(ContentRequired)
      && CommentService.Modify(t, id, authorId, content).result != Err(ContentRequired)
  {
  }

  /** Every field an accepted update body carries meets its bound: a password
      of at least eight characters, a non-empty name, an email, and an avatar
      that is a URL or `null`. */
  lemma UpdateBodyFields(f: Formats, body: Json)
    requires Accepts(UserUpdateSchema, f, body)
    ensures "password" in body.fields ==> |body.fields["password"].str| >= 8
    ensures "name" in body.fields ==> body.fields["name"].str != ""
    ensures "email" in body.fields ==> IsString(body.fields["email"], f.email)
    ensures "avatarUrl" in body.fields ==> body.fields["avatarUrl"].JNull? || IsString(body.fields["avatarUrl"], f.url)
  {
  }

  /** An update body may clear the avatar with `null`, and may be empty; a
      password alone passes exactly when it has at least eight characters. */
  lemma UpdateBodyMayClearAvatar(f: Formats)
    ensures Accepts(UserUpdateSchema, f, JObject(map["avatarUrl" := JNull]))
    ensures Accepts(UserUpdateSchema, f, JObject(map[]))
    ensures forall p: string :: Accepts(UserUpdateSchema, f, JObject(map["password" := JString(p)])) <==> |p| >= 8
  {
  }
}
