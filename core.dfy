/** Records, errors and the stand-ins for the libraries the services call
    (bcrypt, jsonwebtoken, marked/sanitize-html). */
module Core {

  /** Row identifiers (UUID strings generated by the database). */
  type Id = string

  /** Instants in milliseconds since the epoch, as `Date.now()` gives them. */
  type Time = int

  datatype Option<+T> = None | Some(value: T) {
    function GetOr(default: T): T {
      match this
      case Some(v) => v
      case None => default
    }
  }

  /** JavaScript truthiness of an optional string: present and non-empty. */
  predicate Truthy(s: Option<string>) {
    s.Some? && s.value != ""
  }

  /** The errors the services throw. The first group carries the services' own
      messages; the last two are raised by the database layer itself. */
  datatype Error =
    | EmailExists
    | InvalidCredentials
    | InvalidRefreshToken
    | UserNotFound
    | TitleAndContentRequired
    | InvalidPageOrLimit
    | PostNotFound
    | Unauthorized
    | ContentRequired
    | CommentNotFound
    | CategorySlugExists
    | CategoryNotFound
      /** A write would duplicate a unique key (id, token, email, link). */
    | UniqueConstraintFailed
      /** An update, delete or nested connect found no row with that id. */
    | RecordNotFound

  /** The text of `error.message` that the controllers inspect. The services'
      own errors carry their exact texts; the two database errors carry
      stand-in texts, not the database client's own messages. */
  function Message(e: Error): string {
    match e
    case EmailExists => "Email already exists"
    case InvalidCredentials => "Invalid credentials"
    case InvalidRefreshToken => "Invalid or expired refresh token"
    case UserNotFound => "User not found"
    case TitleAndContentRequired => "Title and content are required"
    case InvalidPageOrLimit => "Invalid page or limit"
    case PostNotFound => "Post not found"
    case Unauthorized => "Unauthorized"
    case ContentRequired => "Content is required"
    case CommentNotFound => "Comment not found"
    case CategorySlugExists => "Category slug already exists"
    case CategoryNotFound => "Category not found"
    case UniqueConstraintFailed => "Unique constraint failed"
    case RecordNotFound => "Record not found"
  }

  /** Controllers dispatch on the message text, so no two errors may share one. */
  lemma MessagesDistinguishErrors(e1: Error, e2: Error)
    ensures Message(e1) == Message(e2) <==> e1 == e2
  {
  }

  datatype Result<+T> = Ok(value: T) | Err(error: Error)

  /** A row of the User table; `passwordHash` is the column `password`, which
      only ever holds a bcrypt hash. */
  datatype User = User(id: Id, email: string, passwordHash: string, name: string, avatarUrl: Option<string>)

  /** The columns `getUserById` and `updateUser` select: everything but the hash. */
  datatype PublicUser = PublicUser(id: Id, email: string, name: string, avatarUrl: Option<string>)

  function Public(u: User): PublicUser {
    PublicUser(u.id, u.email, u.name, u.avatarUrl)
  }

  datatype RefreshToken = RefreshToken(token: string, userId: Id, expiresAt: Time)

  /** A post row together with its PostCategory link rows, in creation order. */
  datatype Post = Post(id: Id, title: string, content: string, authorId: Id, categoryIds: seq<Id>, createdAt: Time)

  datatype Comment = Comment(id: Id, content: string, postId: Id, authorId: Id, createdAt: Time)

  datatype Category = Category(id: Id, name: string, slug: string)

  /** bcrypt as the services use it: `hash(password, salt)` and `compare`.
      The salt is the randomness bcrypt draws, passed in explicitly. */
  type Salt = nat
  datatype Bcrypt = Bcrypt(hash: (string, Salt) -> string, compare: (string, string) -> bool)

  /** The one property of bcrypt the model relies on: a password matches its own hash. */
  ghost predicate Sound(b: Bcrypt) {
    forall p, s :: b.compare(p, b.hash(p, s))
  }

  /** Lifetime of an access token: `expiresIn: '15m'`. */
  const AccessTokenTtlSeconds: nat := 15 * 60

  /** A signed access token, seen through its payload: the signature and the
      server secret are not modelled. */
  datatype AccessToken = AccessToken(userId: Id, expiresInSeconds: nat)

  /** `jwt.sign({ userId }, secret, { expiresIn: '15m' })`. */
  function Sign(userId: Id): (a: AccessToken)
    ensures a.userId == userId
    ensures a.expiresInSeconds == 900
  {
    AccessToken(userId, AccessTokenTtlSeconds)
  }
}
