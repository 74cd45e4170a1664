/** The store invariant is kept by every write: the views' writes, the
    storage-level group insert, and the three delete policies. */
module Invariants {
  import opened Wrappers
  import opened Seqs
  import opened Models
  import opened Forms
  import opened Views

  /** An authenticated principal is a user of the store. */
  ghost predicate PrincipalOk(s: Store, viewer: Option<User>) {
    viewer.Some? ==> viewer.value in s.users
  }

  /** Rewriting rows in place without touching their ids or dates keeps the
      table's order and key uniqueness. */
  lemma InPlaceKeepsOrderAndKeys(posts: seq<Post>, posts': seq<Post>)
    requires |posts'| == |posts|
    requires forall i :: 0 <= i < |posts| ==>
      posts'[i].id == posts[i].id && posts'[i].pubDate == posts[i].pubDate
    requires NewestFirst(posts) && Pairwise(posts, PostIdsDiffer)
    ensures NewestFirst(posts') && Pairwise(posts', PostIdsDiffer)
    ensures PostIds(posts') == PostIds(posts)
  {
    forall i, j | 0 <= i < j < |posts'|
      ensures NewerOrSame(posts'[i], posts'[j]) && PostIdsDiffer(posts'[i], posts'[j])
    {
      assert NewerOrSame(posts[i], posts[j]) && PostIdsDiffer(posts[i], posts[j]);
    }
    forall x | x in PostIds(posts') ensures x in PostIds(posts) {
      var i :| 0 <= i < |posts'| && posts'[i].id == x;
      assert posts[i] in posts;
    }
    forall x | x in PostIds(posts) ensures x in PostIds(posts') {
      var i :| 0 <= i < |posts| && posts[i].id == x;
      assert posts'[i] in posts';
    }
  }

  // ---------------------------------------------------------------------
  // Views

  lemma CreatePreservesValid(s: Store, user: User, data: Option<PostData>, now: Time)
    requires Valid(s) && user in s.users
    ensures Valid(PostCreateView(s, user, data, now).store)
  {
    var form := ValidatePost(s.groups, data);
    if form.Cleaned? {
      var post := ApplyPostForm(Post(s.nextPostId, "", now, user.id, None, None), form.fields);
      var s' := PostCreateView(s, user, data, now).store;
      var k := InsertionPoint(s.posts, now);
      assert s'.posts == s.posts[..k] + [post] + s.posts[k..];
      InsertKeepsNewestFirst(s.posts, post);
      InsertAddsOnlyThePost(s.posts, post);
      SpliceKeepsPairwise(s.posts, k, post, PostIdsDiffer);
      assert post.author in UserIds(s.users);
      assert PostIds(s.posts) <= PostIds(s'.posts);
    }
  }

  /** Replacing the posts table by a same-shaped one whose rows keep their
      ids and dates and whose foreign keys still resolve keeps the invariant. */
  lemma InPlaceKeepsValid(s: Store, posts': seq<Post>)
    requires Valid(s) && |posts'| == |s.posts|
    requires forall i :: 0 <= i < |s.posts| ==>
      posts'[i].id == s.posts[i].id && posts'[i].pubDate == s.posts[i].pubDate
    requires forall p :: p in posts' ==>
      p.author in UserIds(s.users) && (p.group.Some? ==> p.group.value in GroupIds(s.groups))
    ensures Valid(s.(posts := posts'))
  {
    InPlaceKeepsOrderAndKeys(s.posts, posts');
    forall p | p in posts' ensures p.id < s.nextPostId {
      var i :| 0 <= i < |posts'| && posts'[i] == p;
      assert s.posts[i] in s.posts;
    }
  }

  lemma EditPreservesValid(s: Store, user: User, id: PostId, data: Option<PostData>)
    requires Valid(s)
    ensures Valid(PostEditView(s, user, id, data).store)
  {
    var found := FindPost(s.posts, id);
    var form := ValidatePost(s.groups, data);
    if found.Some? && found.value.author == user.id && form.Cleaned? {
      var s' := PostEditView(s, user, id, data).store;
      var edited := ApplyPostForm(found.value, form.fields);
      assert found.value in s.posts;
      assert edited.author in UserIds(s.users);
      forall i | 0 <= i < |s.posts| && s.posts[i].id == id ensures s.posts[i] == found.value {
        SameIdSamePost(s.posts, s.posts[i], found.value);
      }
      forall p | p in s'.posts
        ensures p.author in UserIds(s.users) && (p.group.Some? ==> p.group.value in GroupIds(s.groups))
      {
        var i :| 0 <= i < |s'.posts| && s'.posts[i] == p;
        assert s.posts[i] in s.posts;
      }
      InPlaceKeepsValid(s, s'.posts);
      assert s' == s.(posts := s'.posts);
    }
  }

  lemma CommentPreservesValid(s: Store, user: User, id: PostId, data: Option<CommentData>, now: Time)
    requires Valid(s) && user in s.users
    ensures Valid(AddCommentView(s, user, id, data, now).store)
  {
    var found := FindPost(s.posts, id);
    if found.Some? {
      assert found.value.id in PostIds(s.posts);
      assert user.id in UserIds(s.users);
    }
  }

  lemma FollowPreservesValid(s: Store, user: User, username: string)
    requires Valid(s) && user in s.users
    ensures Valid(ProfileFollowView(s, user, username).store)
  {
    var found := FindUser(s.users, username);
    if found.Some? {
      var pair := Follow(user.id, found.value.id);
      if user.id != found.value.id && pair !in s.follows {
        assert s.follows[..|s.follows|] + [pair] + s.follows[|s.follows|..] == s.follows + [pair];
        SpliceKeepsPairwise(s.follows, |s.follows|, pair, Differ);
        assert user.id in UserIds(s.users) && found.value.id in UserIds(s.users);
      }
    }
  }

  lemma UnfollowPreservesValid(s: Store, user: User, username: string)
    requires Valid(s)
    ensures Valid(ProfileUnfollowView(s, user, username).store)
  {
    var found := FindUser(s.users, username);
    if found.Some? {
      var keep := (f: Follow) => f != Follow(user.id, found.value.id);
      FilterKeepsPairwise(s.follows, keep, Differ);
      assert ProfileUnfollowView(s, user, username).store.follows == Filter(s.follows, keep);
    }
  }

  /** Every request keeps the store invariant. */
  lemma HandlePreservesValid(s: Store, viewer: Option<User>, req: Request, now: Time)
    requires Valid(s) && PrincipalOk(s, viewer)
    ensures Valid(Handle(s, viewer, req, now).store)
  {
    if !(LoginRequired(req) && viewer.None?) {
      match req
      case PostCreate(data) => CreatePreservesValid(s, viewer.value, data, now);
      case PostEdit(id, data) => EditPreservesValid(s, viewer.value, id, data);
      case AddComment(id, data) => CommentPreservesValid(s, viewer.value, id, data, now);
      case ProfileFollow(username) => FollowPreservesValid(s, viewer.value, username);
      case ProfileUnfollow(username) => UnfollowPreservesValid(s, viewer.value, username);
      case _ =>
    }
  }

  // ---------------------------------------------------------------------
  // Storage-level writes

  lemma CreateGroupPreservesValid(s: Store, title: string, slug: string, description: string)
    requires Valid(s)
    ensures CreateGroup(s, title, slug, description).Some? ==>
      Valid(CreateGroup(s, title, slug, description).value)
  {
    var r := CreateGroup(s, title, slug, description);
    if r.Some? {
      var g := Group(s.nextGroupId, title, slug, description);
      assert r.value.groups == s.groups[..|s.groups|] + [g] + s.groups[|s.groups|..];
      SpliceKeepsPairwise(s.groups, |s.groups|, g, GroupKeysDiffer);
      assert GroupIds(s.groups) <= GroupIds(r.value.groups);
    }
  }

  lemma DeletePostPreservesValid(s: Store, id: PostId)
    requires Valid(s)
    ensures Valid(DeletePost(s, id))
  {
    var s' := DeletePost(s, id);
    FilterKeepsPairwise(s.posts, (p: Post) => p.id != id, NewerOrSame);
    FilterKeepsPairwise(s.posts, (p: Post) => p.id != id, PostIdsDiffer);
    forall c | c in s'.comments ensures c.post in PostIds(s'.posts) {
      var p :| p in s.posts && p.id == c.post;
      assert p in s'.posts;
    }
  }

  lemma DeleteGroupPreservesValid(s: Store, id: GroupId)
    requires Valid(s)
    ensures Valid(DeleteGroup(s, id))
  {
    var s' := DeleteGroup(s, id);
    FilterKeepsPairwise(s.groups, (g: Group) => g.id != id, GroupKeysDiffer);
    InPlaceKeepsOrderAndKeys(s.posts, s'.posts);
    forall p | p in s'.posts && p.group.Some? ensures p.group.value in GroupIds(s'.groups) {
      var i :| 0 <= i < |s'.posts| && s'.posts[i] == p;
      assert s.posts[i] in s.posts;
      var g :| g in s.groups && g.id == p.group.value;
      assert g in s'.groups;
    }
    forall p | p in s'.posts ensures p.author in UserIds(s.users) {
      var i :| 0 <= i < |s'.posts| && s'.posts[i] == p;
      assert s.posts[i] in s.posts;
    }
  }

  lemma DeleteUserPreservesValid(s: Store, id: UserId)
    requires Valid(s)
    ensures Valid(DeleteUser(s, id))
  {
    var s' := DeleteUser(s, id);
    var gone := PostIdsBy(s.posts, id);
    FilterKeepsPairwise(s.users, (u: User) => u.id != id, UserKeysDiffer);
    FilterKeepsPairwise(s.posts, (p: Post) => p.author != id, NewerOrSame);
    FilterKeepsPairwise(s.posts, (p: Post) => p.author != id, PostIdsDiffer);
    FilterKeepsPairwise(s.follows, (f: Follow) => f.user != id && f.author != id, Differ);
    forall x | x in UserIds(s.users) && x != id ensures x in UserIds(s'.users) {
      var u :| u in s.users && u.id == x;
      assert u in s'.users;
    }
    forall c | c in s'.comments ensures c.post in PostIds(s'.posts) {
      var p :| p in s.posts && p.id == c.post;
      assert p.author != id;
      assert p in s'.posts;
    }
  }
}
