/** The request handlers of the posts app as pure transitions
    `(store, principal, request) -> (store', outcome)`.

    The principal is the authenticated user of the request, or `None` for
    an anonymous visitor. A page is rendered as the data it shows; its
    template, title and layout are not modelled. Listings carry the whole
    ordered result the view hands to the paginator. */
module Views {
  import opened Wrappers
  import opened Seqs
  import opened Models
  import opened Forms

  /** The app's URLs, by route. */
  datatype Url =
    | IndexUrl
    | GroupUrl(slug: string)
    | ProfileUrl(username: string)
    | DetailUrl(postId: PostId)
    | CreateUrl
    | EditUrl(postId: PostId)
    | CommentUrl(postId: PostId)
    | FeedUrl
    | FollowUrl(username: string)
    | UnfollowUrl(username: string)

  /** What a rendered page shows. */
  datatype Page =
    | PostList(posts: seq<Post>)
    | GroupPage(group: Group, posts: seq<Post>)
    | ProfilePage(author: User, posts: seq<Post>, following: bool)
    | DetailPage(post: Post, comments: seq<Comment>)
    | PostFormPage(errors: set<FieldName>, editing: Option<PostId>)

  /** `Error` is an exception the view does not catch (a server error). */
  datatype Outcome =
    | Render(page: Page)
    | Redirect(target: Url)
    | NotFound
    | LoginRedirect(next: Url)
    | Error

  datatype Step = Step(store: Store, outcome: Outcome)

  /** A request as the views see it: the route with its URL arguments and,
      for the form views, `request.POST or None` (`None` for a GET or an
      empty POST). */
  datatype Request =
    | Index
    | GroupPosts(slug: string)
    | Profile(username: string)
    | PostDetail(postId: PostId)
    | PostCreate(postData: Option<PostData>)
    | PostEdit(postId: PostId, postData: Option<PostData>)
    | AddComment(postId: PostId, commentData: Option<CommentData>)
    | FollowIndex
    | ProfileFollow(username: string)
    | ProfileUnfollow(username: string)

  // ---------------------------------------------------------------------
  // Public views

  /** `index`: every post, in the default newest-first order. */
  function IndexView(s: Store): (r: Step)
    ensures r.store == s
    ensures r.outcome.Render? && r.outcome.page.PostList?
    ensures r.outcome.page.posts == s.posts
  {
    Step(s, Render(PostList(s.posts)))
  }

  /** `group_posts`: the posts of the group with the given slug. */
  function GroupPostsView(s: Store, slug: string): (r: Step)
    ensures r.store == s
    ensures r.outcome == NotFound <==> forall g :: g in s.groups ==> g.slug != slug
    ensures r.outcome != NotFound ==> r.outcome.Render? && r.outcome.page.GroupPage?
    ensures r.outcome.Render? ==>
      var page := r.outcome.page;
      && page.group in s.groups && page.group.slug == slug
      && (forall p :: p in page.posts <==> p in s.posts && p.group == Some(page.group.id))
  {
    match FindGroup(s.groups, slug)
    case None => Step(s, NotFound)
    case Some(g) => Step(s, Render(GroupPage(g, Filter(s.posts, (p: Post) => p.group == Some(g.id)))))
  }

  /** `profile`: the author's posts, and whether the viewer follows them
      (never, for an anonymous viewer). */
  function ProfileView(s: Store, viewer: Option<User>, username: string): (r: Step)
    ensures r.store == s
    ensures r.outcome == NotFound <==> forall u :: u in s.users ==> u.username != username
    ensures r.outcome != NotFound ==> r.outcome.Render? && r.outcome.page.ProfilePage?
    ensures r.outcome.Render? ==>
      var page := r.outcome.page;
      && page.author in s.users && page.author.username == username
      && (forall p :: p in page.posts <==> p in s.posts && p.author == page.author.id)
      && (page.following <==> viewer.Some? && Follow(viewer.value.id, page.author.id) in s.follows)
  {
    match FindUser(s.users, username)
    case None => Step(s, NotFound)
    case Some(author) =>
      var posts := Filter(s.posts, (p: Post) => p.author == author.id);
      var following := viewer.Some? && Follow(viewer.value.id, author.id) in s.follows;
      Step(s, Render(ProfilePage(author, posts, following)))
  }

  /** `post_detail`: the post and its comments. */
  function PostDetailView(s: Store, id: PostId): (r: Step)
    ensures r.store == s
    ensures r.outcome == NotFound <==> forall p :: p in s.posts ==> p.id != id
    ensures r.outcome != NotFound ==> r.outcome.Render? && r.outcome.page.DetailPage?
    ensures r.outcome.Render? ==>
      var page := r.outcome.page;
      && page.post in s.posts && page.post.id == id
      && (forall c :: c in page.comments <==> c in s.comments && c.post == id)
      && (forall c :: multiset(page.comments)[c] == if c.post == id then multiset(s.comments)[c] else 0)
  {
    match FindPost(s.posts, id)
    case None => Step(s, NotFound)
    case Some(post) =>
      var onPost := (c: Comment) => c.post == id;
      FilterCounts(s.comments, onPost);
      Step(s, Render(DetailPage(post, Filter(s.comments, onPost))))
  }

  // ---------------------------------------------------------------------
  // Views that need a logged-in user

  /** The errors a form page shows: none for an unbound form. */
  function ErrorsOf<T>(form: FormState<T>): set<FieldName> {
    if form.Invalid? then form.errors else {}
  }

  /** `posts'` is `posts` with `p` inserted at one position. */
  ghost predicate AddsOnePost(posts: seq<Post>, posts': seq<Post>, p: Post) {
    exists k :: 0 <= k <= |posts| && posts' == posts[..k] + [p] + posts[k..]
  }

  /** `post_create`: a valid form saves one new post by `user`, published
      at `now`, and redirects to the user's profile; otherwise the form is
      shown again and nothing is written. */
  function PostCreateView(s: Store, user: User, data: Option<PostData>, now: Time): (r: Step)
    ensures
      var form := ValidatePost(s.groups, data);
      !form.Cleaned? ==>
        && r.store == s
        && r.outcome == Render(PostFormPage(ErrorsOf(form), None))
        && (ErrorsOf(form) == {} <==> data.None?)
    ensures
      var form := ValidatePost(s.groups, data);
      form.Cleaned? ==>
        && r.outcome == Redirect(ProfileUrl(user.username))
        && r.store == s.(posts := r.store.posts, nextPostId := s.nextPostId + 1)
        && AddsOnePost(s.posts, r.store.posts,
             Post(s.nextPostId, form.fields.text, now, user.id, form.fields.group, form.fields.image))
  {
    var form := ValidatePost(s.groups, data);
    if form.Cleaned? then
      var post := ApplyPostForm(Post(s.nextPostId, "", now, user.id, None, None), form.fields);
      var k := InsertionPoint(s.posts, now);
      assert InsertPost(s.posts, post) == s.posts[..k] + [post] + s.posts[k..];
      Step(s.(posts := InsertPost(s.posts, post), nextPostId := s.nextPostId + 1),
           Redirect(ProfileUrl(user.username)))
    else
      Step(s, Render(PostFormPage(ErrorsOf(form), None)))
  }

  /** Every row with the given id takes the edited values. */
  function UpdatePost(posts: seq<Post>, id: PostId, edited: Post): (r: seq<Post>)
    ensures |r| == |posts|
    ensures forall i :: 0 <= i < |posts| && posts[i].id != id ==> r[i] == posts[i]
    ensures forall i :: 0 <= i < |posts| && posts[i].id == id ==> r[i] == edited
  {
    seq(|posts|, i requires 0 <= i < |posts| => if posts[i].id == id then edited else posts[i])
  }

  /** `post_edit`: only the author may edit; anyone else is sent back to
      the edit URL itself and nothing changes. A valid form by the author
      rewrites the form's fields of that post and redirects to it. */
  function PostEditView(s: Store, user: User, id: PostId, data: Option<PostData>): (r: Step)
    ensures FindPost(s.posts, id).None? ==> r == Step(s, NotFound)
    ensures FindPost(s.posts, id).Some? && FindPost(s.posts, id).value.author != user.id ==>
      r == Step(s, Redirect(EditUrl(id)))
    ensures
      var form := ValidatePost(s.groups, data);
      FindPost(s.posts, id).Some? && FindPost(s.posts, id).value.author == user.id && !form.Cleaned? ==>
        && r.store == s
        && r.outcome == Render(PostFormPage(ErrorsOf(form), Some(id)))
        && (ErrorsOf(form) == {} <==> data.None?)
    ensures
      var form := ValidatePost(s.groups, data);
      var found := FindPost(s.posts, id);
      found.Some? && found.value.author == user.id && form.Cleaned? ==>
        && r.outcome == Redirect(DetailUrl(id))
        && r.store == s.(posts := r.store.posts)
        && |r.store.posts| == |s.posts|
        && (forall i :: 0 <= i < |s.posts| && s.posts[i].id != id ==> r.store.posts[i] == s.posts[i])
        && (forall i :: 0 <= i < |s.posts| && s.posts[i].id == id ==>
              r.store.posts[i] == ApplyPostForm(found.value, form.fields))
  {
    match FindPost(s.posts, id)
    case None => Step(s, NotFound)
    case Some(post) =>
      if post.author != user.id then Step(s, Redirect(EditUrl(id)))
      else
        var form := ValidatePost(s.groups, data);
        if form.Cleaned? then
          Step(s.(posts := UpdatePost(s.posts, id, ApplyPostForm(post, form.fields))), Redirect(DetailUrl(id)))
        else
          Step(s, Render(PostFormPage(ErrorsOf(form), Some(id))))
  }

  /** `add_comment`: a valid comment is saved with `user` as author and
      the post as target; valid or not, the user is sent to the post. */
  function AddCommentView(s: Store, user: User, id: PostId, data: Option<CommentData>, now: Time): (r: Step)
    ensures FindPost(s.posts, id).None? ==> r == Step(s, NotFound)
    ensures FindPost(s.posts, id).Some? ==> r.outcome == Redirect(DetailUrl(id))
    ensures FindPost(s.posts, id).Some? && !ValidateComment(data).Cleaned? ==> r.store == s
    ensures FindPost(s.posts, id).Some? && ValidateComment(data).Cleaned? ==>
      r.store == s.(comments := s.comments + [Comment(id, user.id, Strip(data.value.text), now)])
  {
    match FindPost(s.posts, id)
    case None => Step(s, NotFound)
    case Some(post) =>
      var form := ValidateComment(data);
      if form.Cleaned? then
        Step(s.(comments := s.comments + [Comment(post.id, user.id, form.fields, now)]), Redirect(DetailUrl(id)))
      else
        Step(s, Redirect(DetailUrl(id)))
  }

  /** `follow_index`: the posts of every author `user` follows. */
  function FollowIndexView(s: Store, user: User): (r: Step)
    ensures r.store == s
    ensures r.outcome.Render? && r.outcome.page.PostList?
    ensures forall p :: p in r.outcome.page.posts <==> p in s.posts && Follow(user.id, p.author) in s.follows
  {
    Step(s, Render(PostList(Filter(s.posts, (p: Post) => Follow(user.id, p.author) in s.follows))))
  }

  /** `profile_follow`: `get_or_create` of the pair, skipped when the user
      is the author. An unknown username is an uncaught lookup error. */
  function ProfileFollowView(s: Store, user: User, username: string): (r: Step)
    ensures FindUser(s.users, username).None? ==> r == Step(s, Error)
    ensures FindUser(s.users, username).Some? ==>
      var author := FindUser(s.users, username).value;
      && r.outcome == Redirect(ProfileUrl(username))
      && r.store == s.(follows := r.store.follows)
      && (forall f :: f in r.store.follows <==>
            f in s.follows || (f == Follow(user.id, author.id) && user.id != author.id))
      && (user.id == author.id || Follow(user.id, author.id) in s.follows ==> r.store == s)
      && (user.id != author.id && Follow(user.id, author.id) !in s.follows ==>
            r.store.follows == s.follows + [Follow(user.id, author.id)])
  {
    match FindUser(s.users, username)
    case None => Step(s, Error)
    case Some(author) =>
      var pair := Follow(user.id, author.id);
      if user.id != author.id && pair !in s.follows then
        Step(s.(follows := s.follows + [pair]), Redirect(ProfileUrl(username)))
      else
        Step(s, Redirect(ProfileUrl(username)))
  }

  /** `profile_unfollow`: deletes the pair if it is there. An unknown
      username is a 404. */
  function ProfileUnfollowView(s: Store, user: User, username: string): (r: Step)
    ensures FindUser(s.users, username).None? ==> r == Step(s, NotFound)
    ensures FindUser(s.users, username).Some? ==>
      var author := FindUser(s.users, username).value;
      && r.outcome == Redirect(ProfileUrl(author.username))
      && r.store == s.(follows := r.store.follows)
      && (forall f :: f in r.store.follows <==> f in s.follows && f != Follow(user.id, author.id))
      && (Follow(user.id, author.id) !in s.follows ==> r.store == s)
  {
    match FindUser(s.users, username)
    case None => Step(s, NotFound)
    case Some(author) =>
      var keep := (f: Follow) => f != Follow(user.id, author.id);
      FilterKeepsAll(s.follows, keep);
      Step(s.(follows := Filter(s.follows, keep)), Redirect(ProfileUrl(author.username)))
  }

  // ---------------------------------------------------------------------
  // Dispatch

  /** The views decorated with `login_required`. */
  predicate LoginRequired(req: Request) {
    req.PostCreate? || req.PostEdit? || req.AddComment? || req.FollowIndex?
    || req.ProfileFollow? || req.ProfileUnfollow?
  }

  function UrlOf(req: Request): Url {
    match req
    case Index => IndexUrl
    case GroupPosts(slug) => GroupUrl(slug)
    case Profile(username) => ProfileUrl(username)
    case PostDetail(id) => DetailUrl(id)
    case PostCreate(_) => CreateUrl
    case PostEdit(id, _) => EditUrl(id)
    case AddComment(id, _) => CommentUrl(id)
    case FollowIndex => FeedUrl
    case ProfileFollow(username) => FollowUrl(username)
    case ProfileUnfollow(username) => UnfollowUrl(username)
  }

  /** Routes a request to its view. An anonymous request to a view that
      needs a login is sent to the login page with the URL it asked for,
      before the view runs. */
  function Handle(s: Store, viewer: Option<User>, req: Request, now: Time): (r: Step)
    ensures LoginRequired(req) && viewer.None? ==> r == Step(s, LoginRedirect(UrlOf(req)))
  {
    if LoginRequired(req) && viewer.None? then Step(s, LoginRedirect(UrlOf(req)))
    else
      match req
      case Index => IndexView(s)
      case GroupPosts(slug) => GroupPostsView(s, slug)
      case Profile(username) => ProfileView(s, viewer, username)
      case PostDetail(id) => PostDetailView(s, id)
      case PostCreate(data) => PostCreateView(s, viewer.value, data, now)
      case PostEdit(id, data) => PostEditView(s, viewer.value, id, data)
      case AddComment(id, data) => AddCommentView(s, viewer.value, id, data, now)
      case FollowIndex => FollowIndexView(s, viewer.value)
      case ProfileFollow(username) => ProfileFollowView(s, viewer.value, username)
      case ProfileUnfollow(username) => ProfileUnfollowView(s, viewer.value, username)
  }
}
