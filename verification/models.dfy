/** The entities of the posts app and the store that holds them.

    Each table is a sequence of rows. The posts table is kept in its default
    listing order (newest `pub_date` first), so every query over it returns
    its rows in that order. The users table belongs to the authentication
    system; the model only reads it, except when a user is deleted. */
module Models {
  import opened Wrappers
  import opened Seqs

  type UserId = nat
  type GroupId = nat
  type PostId = nat

  /** A timestamp as the database stores it. The clock that produces it is
      a parameter of the operations that read it. */
  type Time = int

  /** An opaque reference to an image file stored under `posts/`. */
  type ImageRef = nat

  datatype User = User(id: UserId, username: string)

  datatype Group = Group(id: GroupId, title: string, slug: string, description: string)

  /** `group` is a nullable foreign key; `image` is empty when no file was uploaded. */
  datatype Post = Post(
    id: PostId,
    text: string,
    pubDate: Time,
    author: UserId,
    group: Option<GroupId>,
    image: Option<ImageRef>)

  datatype Comment = Comment(post: PostId, author: UserId, text: string, created: Time)

  /** `user` follows `author`. */
  datatype Follow = Follow(user: UserId, author: UserId)

  /** The database. `nextGroupId` and `nextPostId` are the auto-increment
      sequences that hand out primary keys. */
  datatype Store = Store(
    users: seq<User>,
    groups: seq<Group>,
    posts: seq<Post>,
    comments: seq<Comment>,
    follows: seq<Follow>,
    nextGroupId: GroupId,
    nextPostId: PostId)

  // ---------------------------------------------------------------------
  // Display strings

  /** A post displays as the first fifteen characters of its text. */
  function PostStr(p: Post): (r: string)
    ensures |r| == Min(15, |p.text|)
    ensures r <= p.text
  {
    p.text[..Min(15, |p.text|)]
  }

  /** A group displays as its title. */
  function GroupStr(g: Group): string {
    g.title
  }

  // ---------------------------------------------------------------------
  // Keys and lookups

  function UserIds(users: seq<User>): set<UserId> {
    set u | u in users :: u.id
  }

  function GroupIds(groups: seq<Group>): set<GroupId> {
    set g | g in groups :: g.id
  }

  function PostIds(posts: seq<Post>): set<PostId> {
    set p | p in posts :: p.id
  }

  /** The user with the given username (`User.objects.get(username=...)`). */
  function FindUser(users: seq<User>, username: string): (r: Option<User>)
    ensures r.Some? ==> r.value in users && r.value.username == username
    ensures r.None? <==> forall u :: u in users ==> u.username != username
    decreases |users|
  {
    if |users| == 0 then None
    else if users[0].username == username then Some(users[0])
    else FindUser(users[1..], username)
  }

  /** The group with the given slug. */
  function FindGroup(groups: seq<Group>, slug: string): (r: Option<Group>)
    ensures r.Some? ==> r.value in groups && r.value.slug == slug
    ensures r.None? <==> forall g :: g in groups ==> g.slug != slug
    decreases |groups|
  {
    if |groups| == 0 then None
    else if groups[0].slug == slug then Some(groups[0])
    else FindGroup(groups[1..], slug)
  }

  /** The post with the given primary key. */
  function FindPost(posts: seq<Post>, id: PostId): (r: Option<Post>)
    ensures r.Some? ==> r.value in posts && r.value.id == id
    ensures r.None? <==> forall p :: p in posts ==> p.id != id
    decreases |posts|
  {
    if |posts| == 0 then None
    else if posts[0].id == id then Some(posts[0])
    else FindPost(posts[1..], id)
  }

  // ---------------------------------------------------------------------
  // Store invariants

  predicate UserKeysDiffer(a: User, b: User) {
    a.id != b.id && a.username != b.username
  }

  /** `slug` is declared unique. */
  predicate GroupKeysDiffer(a: Group, b: Group) {
    a.id != b.id && a.slug != b.slug
  }

  predicate PostIdsDiffer(a: Post, b: Post) {
    a.id != b.id
  }

  /** The `-pub_date` default ordering between an earlier and a later row. */
  predicate NewerOrSame(a: Post, b: Post) {
    a.pubDate >= b.pubDate
  }

  ghost predicate NewestFirst(posts: seq<Post>) {
    Pairwise(posts, NewerOrSame)
  }

  /** Primary keys, usernames, slugs and `(user, author)` pairs are unique,
      and the key sequences are ahead of every key handed out. */
  ghost predicate UniqueKeys(s: Store) {
    && Pairwise(s.users, UserKeysDiffer)
    && Pairwise(s.groups, GroupKeysDiffer)
    && Pairwise(s.posts, PostIdsDiffer)
    && Pairwise(s.follows, Differ)
    && (forall g :: g in s.groups ==> g.id < s.nextGroupId)
    && (forall p :: p in s.posts ==> p.id < s.nextPostId)
  }

  /** Every foreign key names an existing row. */
  ghost predicate References(s: Store) {
    && (forall p :: p in s.posts ==>
          p.author in UserIds(s.users) && (p.group.Some? ==> p.group.value in GroupIds(s.groups)))
    && (forall c :: c in s.comments ==> c.post in PostIds(s.posts) && c.author in UserIds(s.users))
    && (forall f :: f in s.follows ==> f.user in UserIds(s.users) && f.author in UserIds(s.users))
  }

  ghost predicate Valid(s: Store) {
    UniqueKeys(s) && NewestFirst(s.posts) && References(s)
  }

  /** Two rows of a table with unique post ids that share an id are one row. */
  lemma SameIdSamePost(posts: seq<Post>, p: Post, q: Post)
    requires Pairwise(posts, PostIdsDiffer) && p in posts && q in posts && p.id == q.id
    ensures p == q
  {
    var i :| 0 <= i < |posts| && posts[i] == p;
    var j :| 0 <= j < |posts| && posts[j] == q;
  }

  /** Under the invariant, a lookup by username finds the one user with it. */
  lemma FindUserUnique(s: Store, u: User)
    requires Valid(s) && u in s.users
    ensures FindUser(s.users, u.username) == Some(u)
  {
    var r := FindUser(s.users, u.username);
    var i :| 0 <= i < |s.users| && s.users[i] == u;
    var j :| 0 <= j < |s.users| && s.users[j] == r.value;
  }

  /** Under the invariant, a lookup by id finds the one post with it. */
  lemma FindPostUnique(s: Store, p: Post)
    requires Valid(s) && p in s.posts
    ensures FindPost(s.posts, p.id) == Some(p)
  {
    var r := FindPost(s.posts, p.id);
    var i :| 0 <= i < |s.posts| && s.posts[i] == p;
    var j :| 0 <= j < |s.posts| && s.posts[j] == r.value;
  }

  /** Under the invariant, a lookup by slug finds the one group with it. */
  lemma FindGroupUnique(s: Store, g: Group)
    requires Valid(s) && g in s.groups
    ensures FindGroup(s.groups, g.slug) == Some(g)
  {
    var r := FindGroup(s.groups, g.slug);
    var i :| 0 <= i < |s.groups| && s.groups[i] == g;
    var j :| 0 <= j < |s.groups| && s.groups[j] == r.value;
  }

  // ---------------------------------------------------------------------
  // Inserting a post in listing order

  /** Where a post published at `t` goes in a newest-first table: after
      every strictly newer post, before the first one that is not. */
  function InsertionPoint(posts: seq<Post>, t: Time): (k: nat)
    ensures k <= |posts|
    ensures forall i :: 0 <= i < k ==> posts[i].pubDate > t
    ensures k < |posts| ==> posts[k].pubDate <= t
    decreases |posts|
  {
    if |posts| == 0 || posts[0].pubDate <= t then 0
    else 1 + InsertionPoint(posts[1..], t)
  }

  function InsertPost(posts: seq<Post>, p: Post): seq<Post> {
    var k := InsertionPoint(posts, p.pubDate);
    posts[..k] + [p] + posts[k..]
  }

  /** Inserting at the insertion point keeps the table newest-first. */
  lemma InsertKeepsNewestFirst(posts: seq<Post>, p: Post)
    requires NewestFirst(posts)
    ensures NewestFirst(InsertPost(posts, p))
  {
    var k := InsertionPoint(posts, p.pubDate);
    var r := InsertPost(posts, p);
    forall i, j | 0 <= i < j < |r| ensures NewerOrSame(r[i], r[j]) {
      if j < k {
        assert r[i] == posts[i] && r[j] == posts[j];
      } else if j == k {
        assert r[i] == posts[i];
      } else if i == k {
        assert r[j] == posts[j - 1];
        assert NewerOrSame(posts[k], posts[j - 1]) || k == j - 1;
      } else if i < k {
        assert r[i] == posts[i] && r[j] == posts[j - 1];
      } else {
        assert r[i] == posts[i - 1] && r[j] == posts[j - 1];
      }
    }
  }

  /** A newly inserted post is the only row the insertion adds. */
  lemma InsertAddsOnlyThePost(posts: seq<Post>, p: Post)
    ensures |InsertPost(posts, p)| == |posts| + 1
    ensures forall q :: q in InsertPost(posts, p) <==> q in posts || q == p
    ensures multiset(InsertPost(posts, p)) == multiset(posts) + multiset{p}
  {
    var k := InsertionPoint(posts, p.pubDate);
    assert posts == posts[..k] + posts[k..];
  }

  // ---------------------------------------------------------------------
  // Storage-level writes that no view performs

  /** Creating a group: the unique index on `slug` rejects a duplicate
      (the database raises an integrity error, modelled as `None`). */
  function CreateGroup(s: Store, title: string, slug: string, description: string): (r: Option<Store>)
    ensures r.None? <==> exists g :: g in s.groups && g.slug == slug
    ensures r.Some? ==> r.value == s.(groups := r.value.groups, nextGroupId := s.nextGroupId + 1)
    ensures r.Some? ==> r.value.groups == s.groups + [Group(s.nextGroupId, title, slug, description)]
  {
    if FindGroup(s.groups, slug).Some? then None
    else Some(s.(groups := s.groups + [Group(s.nextGroupId, title, slug, description)],
                 nextGroupId := s.nextGroupId + 1))
  }

  function PostIdsBy(posts: seq<Post>, uid: UserId): set<PostId> {
    set p | p in posts && p.author == uid :: p.id
  }

  /** Deleting a post cascades to its comments. */
  function DeletePost(s: Store, id: PostId): (s': Store)
    ensures forall p :: p in s'.posts <==> p in s.posts && p.id != id
    ensures forall c :: c in s'.comments <==> c in s.comments && c.post != id
    ensures forall c :: multiset(s'.comments)[c] == if c.post != id then multiset(s.comments)[c] else 0
    ensures s' == s.(posts := s'.posts, comments := s'.comments)
  {
    var keep := (c: Comment) => c.post != id;
    FilterCounts(s.comments, keep);
    s.(posts := Filter(s.posts, (p: Post) => p.id != id), comments := Filter(s.comments, keep))
  }

  /** Deleting a group clears the group of its posts (`SET_NULL`); the
      posts themselves survive. */
  function DeleteGroup(s: Store, id: GroupId): (s': Store)
    ensures forall g :: g in s'.groups <==> g in s.groups && g.id != id
    ensures |s'.posts| == |s.posts|
    ensures forall i :: 0 <= i < |s.posts| ==> s'.posts[i].(group := s.posts[i].group) == s.posts[i]
    ensures forall i :: 0 <= i < |s.posts| && s.posts[i].group != Some(id) ==> s'.posts[i] == s.posts[i]
    ensures forall i :: 0 <= i < |s.posts| && s.posts[i].group == Some(id) ==> s'.posts[i].group == None
    ensures forall p :: p in s'.posts ==> p.group != Some(id)
    ensures s' == s.(groups := s'.groups, posts := s'.posts)
  {
    var posts := seq(|s.posts|, i requires 0 <= i < |s.posts| =>
      if s.posts[i].group == Some(id) then s.posts[i].(group := None) else s.posts[i]);
    s.(groups := Filter(s.groups, (g: Group) => g.id != id), posts := posts)
  }

  /** Deleting a user cascades to their posts (and through those to the
      comments on them), their comments, and every follow in which they
      are either the follower or the followed author. */
  function DeleteUser(s: Store, id: UserId): (s': Store)
    ensures forall u :: u in s'.users <==> u in s.users && u.id != id
    ensures forall p :: p in s'.posts <==> p in s.posts && p.author != id
    ensures forall c :: c in s'.comments <==>
      c in s.comments && c.author != id && c.post !in PostIdsBy(s.posts, id)
    ensures forall c :: multiset(s'.comments)[c] ==
                        if c.author != id && c.post !in PostIdsBy(s.posts, id) then multiset(s.comments)[c] else 0
    ensures forall f :: f in s'.follows <==> f in s.follows && f.user != id && f.author != id
    ensures s'.groups == s.groups && s'.nextGroupId == s.nextGroupId && s'.nextPostId == s.nextPostId
  {
    var gone := PostIdsBy(s.posts, id);
    var keepComment := (c: Comment) => c.author != id && c.post !in gone;
    FilterCounts(s.comments, keepComment);
    s.(users := Filter(s.users, (u: User) => u.id != id),
       posts := Filter(s.posts, (p: Post) => p.author != id),
       comments := Filter(s.comments, keepComment),
       follows := Filter(s.follows, (f: Follow) => f.user != id && f.author != id))
  }
}
