/** The blog API's handlers over its three tables (users, posts, comments): the
    authentication middleware, the auth controller, the post controller and the comment
    controller. Each handler checks in a fixed order (validation, then existence, then
    ownership) and changes the tables only when every check passes. */
module BlogStore {
  import opened Results
  import opened JsString
  import opened Blog

  /** The three tables at one moment. */
  datatype Tables = Tables(
    users: map<int, User>,
    emails: map<string, int>,
    posts: map<int, Post>,
    comments: map<int, Comment>,
    nextUser: int,
    nextPost: int,
    nextComment: int)

  /** Users sit under their ids, below the counter, and `emails` indexes them one to one. */
  ghost predicate UsersOk(users: map<int, User>, emails: map<string, int>, next: int) {
    && 1 <= next
    && (forall id :: id in users ==> users[id].id == id && 1 <= id < next)
    && (forall e :: e in emails ==> emails[e] in users && users[emails[e]].email == e)
    && (forall id :: id in users ==> users[id].email in emails && emails[users[id].email] == id)
  }

  /** Posts sit under their ids, below the counter, and have existing authors. */
  ghost predicate PostsOk(posts: map<int, Post>, users: map<int, User>, next: int) {
    && 1 <= next
    && forall id :: id in posts ==> posts[id].id == id && 1 <= id < next && posts[id].authorId in users
  }

  /** Comments sit under their ids, below the counter, and have existing authors. */
  ghost predicate CommentsOk(comments: map<int, Comment>, users: map<int, User>, next: int) {
    && 1 <= next
    && forall id :: id in comments ==> comments[id].id == id && 1 <= id < next && comments[id].authorId in users
  }

  class Store {
    /** Users by id, and the unique index on `email`. */
    var users: map<int, User>
    var emails: map<string, int>
    var posts: map<int, Post>
    var comments: map<int, Comment>
    /** The next value of each table's autoincrement id. */
    var nextUser: int
    var nextPost: int
    var nextComment: int
    const crypto: Crypto
    /** express-validator's `isEmail`. */
    const isEmail: string -> bool

    function State(): Tables
      reads this
    {
      Tables(users, emails, posts, comments, nextUser, nextPost, nextComment)
    }

    /** Each record sits under its own id, ids stay below the table's counter, emails
        are unique, and posts and comments belong to existing users. */
    ghost predicate Valid()
      reads this
    {
      UsersOk(users, emails, nextUser) && PostsOk(posts, users, nextPost) && CommentsOk(comments, users, nextComment)
    }

    constructor(crypto: Crypto, isEmail: string -> bool)
      ensures Valid() && this.crypto == crypto && this.isEmail == isEmail
      ensures State() == Tables(map[], map[], map[], map[], 1, 1, 1)
    {
      this.crypto := crypto;
      this.isEmail := isEmail;
      users, emails, posts, comments := map[], map[], map[], map[];
      nextUser, nextPost, nextComment := 1, 1, 1;
    }

    /** `authenticate`: the header must start with "Bearer "; the token after it must
        verify; the user it names must exist. On success `req.user` is that user and
        `next()` runs once (Proceed); otherwise a 401 is sent and `next()` never runs.
        `findUnique` raises, like any failing lookup, on a claimed id that does not fit
        Prisma's `Int`, and the `catch` answers "Authentication failed". */
    function Authenticate(header: Option<string>, fault: Fault): (r: AuthResult)
      reads this
      ensures header.None? || !StartsWith(header.value, BearerPrefix) ==>
                r == Reject(Response(401, Message("Authentication required: No token provided")))
      ensures r.Proceed? <==>
                && header.Some? && StartsWith(header.value, BearerPrefix)
                && crypto.verify(BearerToken(header.value)).Claims?
                && fault != LookupFails
                && IsInt32(crypto.verify(BearerToken(header.value)).userId)
                && crypto.verify(BearerToken(header.value)).userId in users
      ensures r.Proceed? ==> r.user == users[crypto.verify(BearerToken(header.value)).userId]
      ensures r.Reject? ==> r.response.status == 401
      ensures header.Some? && StartsWith(header.value, BearerPrefix) ==>
                var d := crypto.verify(BearerToken(header.value));
                && (d.Falsy? ==> r == Reject(Response(401, Message("Invalid token"))))
                && (d.Throws? || (d.Claims? && (fault == LookupFails || !IsInt32(d.userId))) ==>
                      r == Reject(Response(401, Message("Authentication failed"))))
                && (d.Claims? && fault != LookupFails && IsInt32(d.userId) && d.userId !in users ==>
                      r == Reject(Response(401, Message("User not found"))))
    {
      if header.None? || !StartsWith(header.value, BearerPrefix) then
        Reject(Response(401, Message("Authentication required: No token provided")))
      else
        match crypto.verify(BearerToken(header.value))
        case Throws => Reject(Response(401, Message("Authentication failed")))
        case Falsy => Reject(Response(401, Message("Invalid token")))
        case Claims(id) =>
          if fault == LookupFails || !IsInt32(id) then Reject(Response(401, Message("Authentication failed")))
          else if id !in users then Reject(Response(401, Message("User not found")))
          else Proceed(users[id])
    }

    /** `register`: validation errors, then the duplicate email, then the insert. */
    method Register(name: Option<string>, email: Option<string>, password: Option<string>, fault: Fault)
      returns (r: Response)
      requires Valid()
      modifies this
      ensures Valid()
      ensures RegisterErrors(name, email, password, isEmail) != [] ==>
                r == Response(400, Errors(RegisterErrors(name, email, password, isEmail))) && unchanged(this)
      ensures RegisterErrors(name, email, password, isEmail) == [] && fault == LookupFails ==>
                r == Response(500, Message("Registration failed")) && unchanged(this)
      ensures RegisterErrors(name, email, password, isEmail) == [] && fault != LookupFails && email.value in old(emails) ==>
                r == Response(400, Message("User already exists")) && unchanged(this)
      ensures RegisterErrors(name, email, password, isEmail) == [] && email.value !in old(emails) && fault == WriteFails ==>
                r == Response(500, Message("Registration failed")) && unchanged(this)
      ensures RegisterErrors(name, email, password, isEmail) == [] && email.value !in old(emails) && fault == NoFault ==>
                && r == Response(201, Token("User registered successfully", crypto.sign(old(nextUser))))
                && State() == old(State()).(
                     users := old(users)[old(nextUser) := User(old(nextUser), email.value, crypto.hash(password.value), name.value)],
                     emails := old(emails)[email.value := old(nextUser)],
                     nextUser := old(nextUser) + 1)
      ensures r.status == 201 && crypto.compare(password.value, crypto.hash(password.value)) ==>
                Login(email, password, NoFault) == Response(200, Token("Logged in successfully", crypto.sign(old(nextUser))))
    {
      var errs := RegisterErrors(name, email, password, isEmail);
      if errs != [] {
        return Response(400, Errors(errs));
      }
      if fault == LookupFails {
        return Response(500, Message("Registration failed"));
      }
      if email.value in emails {
        return Response(400, Message("User already exists"));
      }
      if fault == WriteFails {
        return Response(500, Message("Registration failed"));
      }
      var id := nextUser;
      var user := User(id, email.value, crypto.hash(password.value), name.value);
      users := users[id := user];
      emails := emails[email.value := id];
      nextUser := id + 1;
      r := Response(201, Token("User registered successfully", crypto.sign(id)));
    }

    /** `login`: validation errors, then one and the same reply for an unknown email and
        for a wrong password. Reading only, it changes nothing. */
    function Login(email: Option<string>, password: Option<string>, fault: Fault): (r: Response)
      requires Valid()
      reads this
      ensures LoginErrors(email, password, isEmail) != [] ==>
                r == Response(400, Errors(LoginErrors(email, password, isEmail)))
      ensures LoginErrors(email, password, isEmail) == [] && fault == LookupFails ==>
                r == Response(500, Message("Login failed"))
      ensures r == Response(400, Message("Invalid credentials")) <==>
                && LoginErrors(email, password, isEmail) == [] && fault != LookupFails
                && (email.value !in emails || !crypto.compare(password.value, users[emails[email.value]].password))
      ensures r.status == 200 <==>
                && LoginErrors(email, password, isEmail) == [] && fault != LookupFails
                && email.value in emails && crypto.compare(password.value, users[emails[email.value]].password)
      ensures r.status == 200 ==> r.body == Token("Logged in successfully", crypto.sign(emails[email.value]))
    {
      var errs := LoginErrors(email, password, isEmail);
      if errs != [] then Response(400, Errors(errs))
      else if fault == LookupFails then Response(500, Message("Login failed"))
      else if email.value !in emails then Response(400, Message("Invalid credentials"))
      else
        var user := users[emails[email.value]];
        assert user.id == emails[email.value];
        if !crypto.compare(password.value, user.password) then Response(400, Message("Invalid credentials"))
        else Response(200, Token("Logged in successfully", crypto.sign(user.id)))
    }

    /** A post with its author and its comments. */
    function View(p: Post): (v: PostView)
      reads this
      ensures v.post == p
      ensures v.author.Some? <==> p.authorId in users
      ensures v.author.Some? ==> v.author.value == users[p.authorId]
      ensures forall c :: c in v.comments <==> c in comments.Values && c.postId == p.id
    {
      PostView(p,
               if p.authorId in users then Some(users[p.authorId]) else None,
               set c | c in comments.Values && c.postId == p.id)
    }

    /** `getPosts`: every post in the store, each with its author and comments. */
    function GetPosts(fault: Fault): (r: Response)
      requires Valid()
      reads this
      ensures fault == LookupFails ==> r == Response(500, Message("Failed to fetch posts"))
      ensures fault != LookupFails ==> r.status == 200 && r.body.Posts?
      ensures r.status == 200 ==>
                && (forall id :: id in posts ==> View(posts[id]) in r.body.views)
                && (forall v :: v in r.body.views ==> v.post.id in posts && v == View(posts[v.post.id]))
    {
      if fault == LookupFails then Response(500, Message("Failed to fetch posts"))
      else Response(200, Posts(set id | id in posts :: View(posts[id])))
    }

    /** `getPostById`: 404 when no post has the id. */
    function GetPostById(id: string, fault: Fault): (r: Response)
      reads this
      ensures IdOf(id).None? || fault == LookupFails ==> r == Response(500, Message("Failed to fetch post"))
      ensures IdOf(id).Some? && fault != LookupFails ==>
                r == if IdOf(id).value in posts then Response(200, OnePost(View(posts[IdOf(id).value])))
                     else Response(404, Message("Post not found"))
    {
      match IdOf(id)
      case None => Response(500, Message("Failed to fetch post"))
      case Some(n) =>
        if fault == LookupFails then Response(500, Message("Failed to fetch post"))
        else if n !in posts then Response(404, Message("Post not found"))
        else Response(200, OnePost(View(posts[n])))
    }

    /** `createPost`: the author is the authenticated user, whatever the body says. */
    method CreatePost(user: User, title: string, content: string, published: bool, fault: Fault)
      returns (r: Response)
      requires Valid() && user.id in users
      modifies this
      ensures Valid()
      ensures fault != NoFault ==> r == Response(500, Message("Failed to create post")) && unchanged(this)
      ensures fault == NoFault ==>
                && r == Response(201, PostBody(Post(old(nextPost), title, content, published, user.id)))
                && State() == old(State()).(
                     posts := old(posts)[old(nextPost) := r.body.post],
                     nextPost := old(nextPost) + 1)
      ensures r.status == 201 && IsInt32(old(nextPost)) ==>
                GetPostById(Show(old(nextPost)), NoFault) == Response(200, OnePost(View(r.body.post)))
    {
      if fault != NoFault {
        return Response(500, Message("Failed to create post"));
      }
      var post := Post(nextPost, title, content, published, user.id);
      posts := posts[nextPost := post];
      nextPost := nextPost + 1;
      r := Response(201, PostBody(post));
      ParseIntShow(post.id, []);
      assert Show(post.id) + [] == Show(post.id);
    }

    /** `updatePost`: 404 when the post is missing, then 403 when it is someone else's;
        only then are `title`, `content` and `published` written. */
    method UpdatePost(user: User, id: string, title: Option<string>, content: Option<string>,
                      published: Option<bool>, fault: Fault)
      returns (r: Response)
      requires Valid()
      modifies this
      ensures Valid()
      ensures r.status != 200 ==> unchanged(this)
      ensures IdOf(id).None? || fault == LookupFails ==> r == Response(500, Message("Failed to update post"))
      ensures IdOf(id).Some? && fault != LookupFails && IdOf(id).value !in old(posts) ==>
                r == Response(404, Message("Post not found"))
      ensures IdOf(id).Some? && fault != LookupFails && IdOf(id).value in old(posts)
              && old(posts)[IdOf(id).value].authorId != user.id ==>
                r == Response(403, Message("Unauthorized: You can only update your own posts"))
      ensures IdOf(id).Some? && IdOf(id).value in old(posts) && old(posts)[IdOf(id).value].authorId == user.id
              && fault == WriteFails ==>
                r == Response(500, Message("Failed to update post"))
      ensures IdOf(id).Some? && IdOf(id).value in old(posts) && old(posts)[IdOf(id).value].authorId == user.id
              && fault == NoFault ==>
                && r == Response(200, PostBody(Patch(old(posts)[IdOf(id).value], title, content, published)))
                && State() == old(State()).(posts := old(posts)[IdOf(id).value := r.body.post])
    {
      var n := IdOf(id);
      if n.None? || fault == LookupFails {
        return Response(500, Message("Failed to update post"));
      }
      if n.value !in posts {
        return Response(404, Message("Post not found"));
      }
      var post := posts[n.value];
      if post.authorId != user.id {
        return Response(403, Message("Unauthorized: You can only update your own posts"));
      }
      if fault == WriteFails {
        return Response(500, Message("Failed to update post"));
      }
      var updated := Patch(post, title, content, published);
      posts := posts[n.value := updated];
      r := Response(200, PostBody(updated));
    }

    /** `deletePost`: 404 when the post is missing, then 403 when it is someone else's;
        only then is that one post removed. */
    method DeletePost(user: User, id: string, fault: Fault) returns (r: Response)
      requires Valid()
      modifies this
      ensures Valid()
      ensures r.status != 200 ==> unchanged(this)
      ensures IdOf(id).None? || fault == LookupFails ==> r == Response(500, Message("Failed to delete post"))
      ensures IdOf(id).Some? && fault != LookupFails && IdOf(id).value !in old(posts) ==>
                r == Response(404, Message("Post not found"))
      ensures IdOf(id).Some? && fault != LookupFails && IdOf(id).value in old(posts)
              && old(posts)[IdOf(id).value].authorId != user.id ==>
                r == Response(403, Message("Unauthorized: You can only delete your own posts"))
      ensures IdOf(id).Some? && IdOf(id).value in old(posts) && old(posts)[IdOf(id).value].authorId == user.id
              && fault == WriteFails ==>
                r == Response(500, Message("Failed to delete post"))
      ensures IdOf(id).Some? && IdOf(id).value in old(posts) && old(posts)[IdOf(id).value].authorId == user.id
              && fault == NoFault ==>
                && r == Response(200, Message("Post deleted successfully"))
                && State() == old(State()).(posts := old(posts) - {IdOf(id).value})
      ensures r.status == 200 ==> GetPostById(id, NoFault) == Response(404, Message("Post not found"))
    {
      var n := IdOf(id);
      if n.None? || fault == LookupFails {
        return Response(500, Message("Failed to delete post"));
      }
      if n.value !in posts {
        return Response(404, Message("Post not found"));
      }
      if posts[n.value].authorId != user.id {
        return Response(403, Message("Unauthorized: You can only delete your own posts"));
      }
      if fault == WriteFails {
        return Response(500, Message("Failed to delete post"));
      }
      posts := posts - {n.value};
      r := Response(200, Message("Post deleted successfully"));
    }

    /** `createComment`: 404 when the post is missing; otherwise the comment is stored
        under that post with the authenticated user as author. */
    method CreateComment(user: User, text: string, postId: string, fault: Fault) returns (r: Response)
      requires Valid() && user.id in users
      modifies this
      ensures Valid()
      ensures r.status != 201 ==> unchanged(this)
      ensures IdOf(postId).None? || fault == LookupFails ==> r == Response(500, Message("Failed to create comment"))
      ensures IdOf(postId).Some? && fault != LookupFails && IdOf(postId).value !in old(posts) ==>
                r == Response(404, Message("Post not found"))
      ensures IdOf(postId).Some? && IdOf(postId).value in old(posts) && fault == WriteFails ==>
                r == Response(500, Message("Failed to create comment"))
      ensures IdOf(postId).Some? && IdOf(postId).value in old(posts) && fault == NoFault ==>
                && r == Response(201, CommentWithAuthor(Comment(old(nextComment), text, IdOf(postId).value, user.id),
                                                        old(users)[user.id]))
                && State() == old(State()).(
                     comments := old(comments)[old(nextComment) := r.body.comment],
                     nextComment := old(nextComment) + 1)
    {
      var n := IdOf(postId);
      if n.None? || fault == LookupFails {
        return Response(500, Message("Failed to create comment"));
      }
      if n.value !in posts {
        return Response(404, Message("Post not found"));
      }
      if fault == WriteFails {
        return Response(500, Message("Failed to create comment"));
      }
      var comment := Comment(nextComment, text, n.value, user.id);
      comments := comments[nextComment := comment];
      nextComment := nextComment + 1;
      r := Response(201, CommentWithAuthor(comment, users[user.id]));
    }

    /** `updateComment`: 404 when the comment is missing, then 403 when it is someone
        else's; only then is `text` written. */
    method UpdateComment(user: User, id: string, text: Option<string>, fault: Fault) returns (r: Response)
      requires Valid()
      modifies this
      ensures Valid()
      ensures r.status != 200 ==> unchanged(this)
      ensures IdOf(id).None? || fault == LookupFails ==> r == Response(500, Message("Failed to update comment"))
      ensures IdOf(id).Some? && fault != LookupFails && IdOf(id).value !in old(comments) ==>
                r == Response(404, Message("Comment not found"))
      ensures IdOf(id).Some? && fault != LookupFails && IdOf(id).value in old(comments)
              && old(comments)[IdOf(id).value].authorId != user.id ==>
                r == Response(403, Message("Unauthorized: You can only update your own comments"))
      ensures IdOf(id).Some? && IdOf(id).value in old(comments) && old(comments)[IdOf(id).value].authorId == user.id
              && fault == WriteFails ==>
                r == Response(500, Message("Failed to update comment"))
      ensures IdOf(id).Some? && IdOf(id).value in old(comments) && old(comments)[IdOf(id).value].authorId == user.id
              && fault == NoFault ==>
                && r == Response(200, CommentBody(PatchComment(old(comments)[IdOf(id).value], text)))
                && State() == old(State()).(comments := old(comments)[IdOf(id).value := r.body.comment])
    {
      var n := IdOf(id);
      if n.None? || fault == LookupFails {
        return Response(500, Message("Failed to update comment"));
      }
      if n.value !in comments {
        return Response(404, Message("Comment not found"));
      }
      var comment := comments[n.value];
      if comment.authorId != user.id {
        return Response(403, Message("Unauthorized: You can only update your own comments"));
      }
      if fault == WriteFails {
        return Response(500, Message("Failed to update comment"));
      }
      var updated := PatchComment(comment, text);
      comments := comments[n.value := updated];
      r := Response(200, CommentBody(updated));
    }

    /** `deleteComment`: 404 when the comment is missing, then 403 when it is someone
        else's; only then is that one comment removed. */
    method DeleteComment(user: User, id: string, fault: Fault) returns (r: Response)
      requires Valid()
      modifies this
      ensures Valid()
      ensures r.status != 200 ==> unchanged(this)
      ensures IdOf(id).None? || fault == LookupFails ==> r == Response(500, Message("Failed to delete comment"))
      ensures IdOf(id).Some? && fault != LookupFails && IdOf(id).value !in old(comments) ==>
                r == Response(404, Message("Comment not found"))
      ensures IdOf(id).Some? && fault != LookupFails && IdOf(id).value in old(comments)
              && old(comments)[IdOf(id).value].authorId != user.id ==>
                r == Response(403, Message("Unauthorized: You can only delete your own comments"))
      ensures IdOf(id).Some? && IdOf(id).value in old(comments) && old(comments)[IdOf(id).value].authorId == user.id
              && fault == WriteFails ==>
                r == Response(500, Message("Failed to delete comment"))
      ensures IdOf(id).Some? && IdOf(id).value in old(comments) && old(comments)[IdOf(id).value].authorId == user.id
              && fault == NoFault ==>
                && r == Response(200, Message("Comment deleted successfully"))
                && State() == old(State()).(comments := old(comments) - {IdOf(id).value})
    {
      var n := IdOf(id);
      if n.None? || fault == LookupFails {
        return Response(500, Message("Failed to delete comment"));
      }
      if n.value !in comments {
        return Response(404, Message("Comment not found"));
      }
      if comments[n.value].authorId != user.id {
        return Response(403, Message("Unauthorized: You can only delete your own comments"));
      }
      if fault == WriteFails {
        return Response(500, Message("Failed to delete comment"));
      }
      comments := comments - {n.value};
      r := Response(200, Message("Comment deleted successfully"));
    }
  }

  /** What `authenticate` hands on: the user for `req.user` (and one call of `next`), or
      the rejection it sends. */
  datatype AuthResult = Proceed(user: User) | Reject(response: Response)

  /** A header "Bearer <t>" whose token verifies to an existing user's id lets that user
      through. */
  lemma AuthenticatesSignedToken(s: Store, t: string, id: int)
    requires ' ' !in t && s.crypto.verify(t) == Claims(id) && IsInt32(id) && id in s.users
    ensures s.Authenticate(Some(BearerPrefix + t), NoFault) == Proceed(s.users[id])
  {
    BearerTokenOf(t);
  }

  /** An unknown email and a wrong password get the very same reply. */
  lemma LoginFailuresAlike(s: Store, e1: string, p1: string, e2: string, p2: string)
    requires s.Valid()
    requires s.isEmail(e1) && s.isEmail(e2)
    requires e1 !in s.emails
    requires e2 in s.emails && !s.crypto.compare(p2, s.users[s.emails[e2]].password)
    ensures s.Login(Some(e1), Some(p1), NoFault) == s.Login(Some(e2), Some(p2), NoFault)
  {
  }
}
