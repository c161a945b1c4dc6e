/** The blog API's records, replies, request validation and the foreign libraries it
    calls (bcrypt and jsonwebtoken), with Prisma taken out. */
module Blog {
  import opened Results

  datatype User = User(id: int, email: string, password: string, name: string)

  datatype Post = Post(id: int, title: string, content: string, published: bool, authorId: int)

  datatype Comment = Comment(id: int, text: string, postId: int, authorId: int)

  /** What `verifyToken` does with a token: it raises, returns a falsy value, or returns
      the decoded claims. */
  datatype Decoded = Throws | Falsy | Claims(userId: int)

  /** bcrypt's `hash` and `compare` and the token utilities' `generateToken` and
      `verifyToken`, as uninterpreted functions. */
  datatype Crypto = Crypto(
    hash: string -> string,
    compare: (string, string) -> bool,
    sign: int -> string,
    verify: string -> Decoded)

  /** Where a Prisma call raises, if anywhere: at the handler's first lookup or at its
      write. */
  datatype Fault = NoFault | LookupFails | WriteFails

  /** A post as `include: { author: true, comments: true }` returns it. */
  datatype PostView = PostView(post: Post, author: Option<User>, comments: set<Comment>)

  /** The JSON a handler sends. */
  datatype Body =
    | Message(text: string)
    | Errors(messages: seq<string>)
    | Token(text: string, token: string)
    | Posts(views: set<PostView>)
    | OnePost(view: PostView)
    | PostBody(post: Post)
    | CommentWithAuthor(comment: Comment, author: User)
    | CommentBody(comment: Comment)

  datatype Response = Response(status: nat, body: Body)

  /** The register route's checks, in order: `name` not empty, `email` an email address,
      `password` at least six characters; `errors.array()` holds the message of each
      check that fails. */
  function RegisterErrors(name: Option<string>, email: Option<string>, password: Option<string>,
                          isEmail: string -> bool): (errs: seq<string>)
    ensures errs == [] <==>
              name.Some? && name.value != [] && email.Some? && isEmail(email.value)
              && password.Some? && |password.value| >= 6
    ensures "Name is required" in errs <==> name.None? || name.value == []
    ensures "Please include a valid email" in errs <==> email.None? || !isEmail(email.value)
    ensures "Please enter a password with 6 or more characters" in errs <==> password.None? || |password.value| < 6
  {
    (if name.None? || name.value == [] then ["Name is required"] else [])
    + (if email.None? || !isEmail(email.value) then ["Please include a valid email"] else [])
    + (if password.None? || |password.value| < 6 then ["Please enter a password with 6 or more characters"] else [])
  }

  /** The login route's checks: `email` an email address and `password` present. */
  function LoginErrors(email: Option<string>, password: Option<string>, isEmail: string -> bool): (errs: seq<string>)
    ensures errs == [] <==> email.Some? && isEmail(email.value) && password.Some?
    ensures "Please include a valid email" in errs <==> email.None? || !isEmail(email.value)
    ensures "Password is required" in errs <==> password.None?
  {
    (if email.None? || !isEmail(email.value) then ["Please include a valid email"] else [])
    + (if password.None? then ["Password is required"] else [])
  }

  /** `prisma.post.update` with `data: { title, content, published }`: a field the request
      leaves undefined keeps its value; the id and the author never change. */
  function Patch(p: Post, title: Option<string>, content: Option<string>, published: Option<bool>): (q: Post)
    ensures q.id == p.id && q.authorId == p.authorId
    ensures q.title == (if title.Some? then title.value else p.title)
    ensures q.content == (if content.Some? then content.value else p.content)
    ensures q.published == (if published.Some? then published.value else p.published)
  {
    Post(p.id,
         match title case Some(t) => t case None => p.title,
         match content case Some(c) => c case None => p.content,
         match published case Some(b) => b case None => p.published,
         p.authorId)
  }

  /** `prisma.comment.update` with `data: { text }`. */
  function PatchComment(c: Comment, text: Option<string>): (d: Comment)
    ensures d.id == c.id && d.postId == c.postId && d.authorId == c.authorId
    ensures d.text == (if text.Some? then text.value else c.text)
  {
    match text
    case Some(t) => c.(text := t)
    case None => c
  }
}
