/** Properties of the views that relate a request to the store before and
    after it, or several requests to one another. */
module Behaviour {
  import opened Wrappers
  import opened Seqs
  import opened Models
  import opened Forms
  import opened Views

  /** The requests that can write: a form view given form data, and the
      follow and unfollow views (which the app routes as GET requests). */
  predicate MayWrite(req: Request) {
    || (req.PostCreate? && req.postData.Some?)
    || (req.PostEdit? && req.postData.Some?)
    || (req.AddComment? && req.commentData.Some?)
    || req.ProfileFollow?
    || req.ProfileUnfollow?
  }

  /** A GET carries no form data, so a GET to any view but follow and
      unfollow leaves the store as it was; so does every anonymous request. */
  lemma OnlyWritingRequestsWrite(s: Store, viewer: Option<User>, req: Request, now: Time)
    requires !MayWrite(req) || viewer.None?
    ensures Handle(s, viewer, req, now).store == s
  {
  }

  /** Creating a post leaves every existing post as it was. */
  lemma CreateKeepsPosts(s: Store, user: User, data: Option<PostData>, now: Time)
    requires Valid(s)
    ensures var s' := PostCreateView(s, user, data, now).store;
      forall p :: p in s.posts ==> p in s'.posts
  {
    var form := ValidatePost(s.groups, data);
    if form.Cleaned? {
      var post := ApplyPostForm(Post(s.nextPostId, "", now, user.id, None, None), form.fields);
      InsertAddsOnlyThePost(s.posts, post);
    }
  }

  /** Editing a post keeps its id, author and publication date. */
  lemma EditKeepsIdentity(s: Store, user: User, id: PostId, data: Option<PostData>)
    requires Valid(s)
    ensures var s' := PostEditView(s, user, id, data).store;
      && |s'.posts| == |s.posts|
      && forall i :: 0 <= i < |s.posts| ==>
           s'.posts[i].id == s.posts[i].id && s'.posts[i].pubDate == s.posts[i].pubDate
           && s'.posts[i].author == s.posts[i].author
  {
    var s' := PostEditView(s, user, id, data).store;
    forall i | 0 <= i < |s.posts| && s.posts[i].id == id
      ensures s'.posts[i].pubDate == s.posts[i].pubDate && s'.posts[i].author == s.posts[i].author
    {
      FindPostUnique(s, s.posts[i]);
    }
  }

  /** Submitting the same edit twice has the effect of submitting it once. */
  lemma EditTwiceIsEditOnce(s: Store, user: User, id: PostId, data: Option<PostData>)
    ensures var once := PostEditView(s, user, id, data);
      PostEditView(once.store, user, id, data) == once
  {
    var once := PostEditView(s, user, id, data);
    var found := FindPost(s.posts, id);
    var form := ValidatePost(s.groups, data);
    if found.Some? && found.value.author == user.id && form.Cleaned? {
      var edited := ApplyPostForm(found.value, form.fields);
      var again := FindPost(once.store.posts, id);
      var i :| 0 <= i < |once.store.posts| && once.store.posts[i] == again.value;
      assert s.posts[i].id == id;
      assert again == Some(edited);
      assert ApplyPostForm(edited, form.fields) == edited;
      assert UpdatePost(once.store.posts, id, edited) == once.store.posts;
    }
  }

  /** Every post of `posts'` that shares an id with a post of `posts`
      has that post's author and publication date. */
  ghost predicate KeepsIdentity(posts: seq<Post>, posts': seq<Post>) {
    forall p, q :: p in posts && q in posts' && p.id == q.id ==>
      q.pubDate == p.pubDate && q.author == p.author
  }

  lemma CreateKeepsIdentity(s: Store, user: User, data: Option<PostData>, now: Time)
    requires Valid(s)
    ensures KeepsIdentity(s.posts, PostCreateView(s, user, data, now).store.posts)
  {
    var s' := PostCreateView(s, user, data, now).store;
    var form := ValidatePost(s.groups, data);
    if form.Cleaned? {
      var post := ApplyPostForm(Post(s.nextPostId, "", now, user.id, None, None), form.fields);
      InsertAddsOnlyThePost(s.posts, post);
      forall p, q | p in s.posts && q in s'.posts && p.id == q.id
        ensures q.pubDate == p.pubDate && q.author == p.author
      {
        if q != p {
          FindPostUnique(s, p);
          if q in s.posts { FindPostUnique(s, q); }
        }
      }
    } else {
      assert s'.posts == s.posts;
      forall p, q | p in s.posts && q in s.posts && p.id == q.id
        ensures q.pubDate == p.pubDate && q.author == p.author
      {
        FindPostUnique(s, p);
        FindPostUnique(s, q);
      }
    }
  }

  lemma EditKeepsPostIdentity(s: Store, user: User, id: PostId, data: Option<PostData>)
    requires Valid(s)
    ensures KeepsIdentity(s.posts, PostEditView(s, user, id, data).store.posts)
  {
    var posts := s.posts;
    var posts' := PostEditView(s, user, id, data).store.posts;
    EditKeepsIdentity(s, user, id, data);
    assert Pairwise(posts, PostIdsDiffer);
    forall p, q | p in posts && q in posts' && p.id == q.id
      ensures q.pubDate == p.pubDate && q.author == p.author
    {
      var i :| 0 <= i < |posts'| && posts'[i] == q;
      SameIdSamePost(posts, p, posts[i]);
    }
  }

  /** No request changes a post's author or publication date: `pub_date`
      is set once, when the post is created. */
  lemma PostIdentityIsKept(s: Store, viewer: Option<User>, req: Request, now: Time)
    requires Valid(s)
    ensures KeepsIdentity(s.posts, Handle(s, viewer, req, now).store.posts)
  {
    var s' := Handle(s, viewer, req, now).store;
    if !(LoginRequired(req) && viewer.None?) && req.PostCreate? {
      CreateKeepsIdentity(s, viewer.value, req.postData, now);
    } else if !(LoginRequired(req) && viewer.None?) && req.PostEdit? {
      EditKeepsPostIdentity(s, viewer.value, req.postId, req.postData);
    } else {
      assert s'.posts == s.posts;
      forall p, q | p in s.posts && q in s.posts && p.id == q.id
        ensures q.pubDate == p.pubDate && q.author == p.author
      {
        FindPostUnique(s, p);
        FindPostUnique(s, q);
      }
    }
  }

  /** A group's page names the group by its display string, its title. */
  lemma GroupPageShowsTitle(s: Store, g: Group)
    requires Valid(s) && g in s.groups
    ensures GroupPostsView(s, g.slug).outcome.Render?
    ensures GroupPostsView(s, g.slug).outcome.page.group == g
    ensures GroupStr(GroupPostsView(s, g.slug).outcome.page.group) == g.title
  {
    FindGroupUnique(s, g);
  }

  /** Following twice is following once, in store and in outcome. */
  lemma FollowIsIdempotent(s: Store, user: User, username: string)
    ensures var once := ProfileFollowView(s, user, username);
      ProfileFollowView(once.store, user, username) == once
  {
    var once := ProfileFollowView(s, user, username);
    assert once.store.users == s.users;
  }

  /** Following oneself writes nothing. */
  lemma SelfFollowIsNoOp(s: Store, user: User)
    requires Valid(s) && user in s.users
    ensures ProfileFollowView(s, user, user.username) == Step(s, Redirect(ProfileUrl(user.username)))
  {
    FindUserUnique(s, user);
  }

  /** Unfollowing right after a new follow restores the store exactly. */
  lemma UnfollowUndoesFollow(s: Store, user: User, username: string)
    requires FindUser(s.users, username).Some?
    requires Follow(user.id, FindUser(s.users, username).value.id) !in s.follows
    ensures ProfileUnfollowView(ProfileFollowView(s, user, username).store, user, username).store == s
  {
    var author := FindUser(s.users, username).value;
    var pair := Follow(user.id, author.id);
    var s1 := ProfileFollowView(s, user, username).store;
    var keep := (f: Follow) => f != pair;
    assert s1.users == s.users;
    if user.id != author.id {
      assert s1.follows == s.follows + [pair];
      FilterAppend(s.follows, [pair], keep);
      assert Filter([pair], keep) == [];
    }
    FilterKeepsAll(s.follows, keep);
    assert ProfileUnfollowView(s1, user, username).store.follows == Filter(s1.follows, keep);
  }

  /** After following an author, their profile shows the viewer as a
      follower; after unfollowing, it does not. */
  lemma ProfileShowsFollowing(s: Store, user: User, author: User)
    requires Valid(s) && author in s.users && user.id != author.id
    ensures var s1 := ProfileFollowView(s, user, author.username).store;
      ProfileView(s1, Some(user), author.username).outcome.page.following
    ensures var s2 := ProfileUnfollowView(s, user, author.username).store;
      !ProfileView(s2, Some(user), author.username).outcome.page.following
  {
    FindUserUnique(s, author);
  }

  /** A user who follows nobody has an empty feed. */
  lemma FeedWithoutFollowsIsEmpty(s: Store, user: User)
    requires forall f :: f in s.follows ==> f.user != user.id
    ensures FollowIndexView(s, user).outcome.page.posts == []
  {
    FilterKeepsNone(s.posts, (p: Post) => Follow(user.id, p.author) in s.follows);
  }

  /** Every listing is in the default newest-first order. */
  lemma ListingsAreNewestFirst(s: Store, viewer: Option<User>, req: Request, now: Time)
    requires Valid(s)
    requires req.Index? || req.GroupPosts? || req.Profile? || req.FollowIndex?
    ensures var out := Handle(s, viewer, req, now).outcome;
      out.Render? && (out.page.PostList? || out.page.GroupPage? || out.page.ProfilePage?) ==>
        NewestFirst(out.page.posts) && Pairwise(out.page.posts, PostIdsDiffer)
  {
    if !(LoginRequired(req) && viewer.None?) {
      match req
      case Index =>
      case GroupPosts(slug) =>
        var g := FindGroup(s.groups, slug);
        if g.Some? {
          FilterKeepsPairwise(s.posts, (p: Post) => p.group == Some(g.value.id), NewerOrSame);
          FilterKeepsPairwise(s.posts, (p: Post) => p.group == Some(g.value.id), PostIdsDiffer);
        }
      case Profile(username) =>
        var a := FindUser(s.users, username);
        if a.Some? {
          FilterKeepsPairwise(s.posts, (p: Post) => p.author == a.value.id, NewerOrSame);
          FilterKeepsPairwise(s.posts, (p: Post) => p.author == a.value.id, PostIdsDiffer);
        }
      case FollowIndex =>
        FilterKeepsPairwise(s.posts, (p: Post) => Follow(viewer.value.id, p.author) in s.follows, NewerOrSame);
        FilterKeepsPairwise(s.posts, (p: Post) => Follow(viewer.value.id, p.author) in s.follows, PostIdsDiffer);
    }
  }

  /** A post created in a group shows up on the index, on that group's page
      and on its author's profile, and on no other group's page. */
  lemma CreatedPostIsListed(s: Store, user: User, data: PostData, now: Time, group: Group, other: Group)
    requires Valid(s) && user in s.users
    requires ValidatePost(s.groups, Some(data)).Cleaned?
    requires group in s.groups && data.group == Some(group.id as int)
    requires other in s.groups && other.id != group.id
    ensures
      var s' := PostCreateView(s, user, Some(data), now).store;
      var post := Post(s.nextPostId, Strip(data.text), now, user.id, Some(group.id), data.image);
      && post in IndexView(s').outcome.page.posts
      && post in GroupPostsView(s', group.slug).outcome.page.posts
      && post in ProfileView(s', None, user.username).outcome.page.posts
      && post !in GroupPostsView(s', other.slug).outcome.page.posts
  {
    var s' := PostCreateView(s, user, Some(data), now).store;
    var post := Post(s.nextPostId, Strip(data.text), now, user.id, Some(group.id), data.image);
    assert AddsOnePost(s.posts, s'.posts, post);
    var k :| 0 <= k <= |s.posts| && s'.posts == s.posts[..k] + [post] + s.posts[k..];
    assert s'.posts[k] == post;
    assert post in s'.posts;
    assert s'.users == s.users && s'.groups == s.groups;
    FindUserUnique(s, user);
    FindGroupUnique(s, group);
    FindGroupUnique(s, other);
  }

  /** A valid comment appears on the post's page; an invalid one does not
      change what the page shows. */
  lemma CommentIsShown(s: Store, user: User, id: PostId, data: Option<CommentData>, now: Time)
    requires FindPost(s.posts, id).Some?
    ensures
      var s' := AddCommentView(s, user, id, data, now).store;
      var form := ValidateComment(data);
      && (form.Cleaned? ==> Comment(id, user.id, form.fields, now) in PostDetailView(s', id).outcome.page.comments)
      && (!form.Cleaned? ==> PostDetailView(s', id) == PostDetailView(s, id))
  {
    var s' := AddCommentView(s, user, id, data, now).store;
    var form := ValidateComment(data);
    if form.Cleaned? {
      assert Comment(id, user.id, form.fields, now) in s'.comments;
    }
  }
}
