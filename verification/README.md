# Yatube posts: a Dafny model of the request handlers

Yatube is a small blog application. Users publish text posts. A post may
belong to a group and may carry an image. Other users comment on posts
and follow authors. This project models the `posts` app's core as a
state machine over an in-memory store:

- the entities (`Group`, `Post`, `Comment`, `Follow`, and the
  authentication system's `User`);
- the two model forms (`PostForm`, `CommentForm`);
- the ten view functions.

Each view becomes a pure transition
`(store, principal, request) -> (store', outcome)` in module `Views`. The
principal is the logged-in user, or `None` for an anonymous visitor. The
outcome is one of:

- `Render(page)`: the data the page shows;
- `Redirect(url)`;
- `NotFound`;
- `LoginRedirect(next)`;
- `Error`: an exception the view does not catch.

Modules, one concept each:

- `Wrappers`: `Option`.
- `Seqs`: `Filter` over a sequence and the `Pairwise` relation between
  earlier and later elements, with their lemmas.
- `Models`: the records and the `Store`.
  - Each table is a sequence of rows.
  - The posts table is kept in its default `-pub_date` order (newest
    first), so every query over it is already in listing order.
  - `Valid` is the store invariant. It covers unique primary keys,
    usernames, slugs and `(user, author)` follow pairs; newest-first post
    order; and every foreign key naming an existing row.
  - Also here: the display strings, lookups, the ordered insert of a new
    post, the unique-slug group insert, and the three delete policies
    (cascade on a post's comments and on everything a user owns; set-null
    on a post's group).
- `Forms`: validation as a function from `request.POST or None` to
  `Unbound`, `Invalid(fields in error)` or `Cleaned(values)`. Also
  `ApplyPostForm`, which writes only `text`, `group` and `image` into a
  post. Text fields follow Django's form `CharField` defaults for a
  required `TextField`:
  - surrounding whitespace (Python's `str.isspace` set) is stripped;
  - an empty result is an error;
  - a null character is an error.
- `Pagination`: pages of ten.
- `Views`: the handlers and the `login_required` dispatch.
- `Invariants`: every write keeps `Valid`.
- `Behaviour`: properties that relate requests to each other. Examples:
  following is idempotent, unfollowing undoes a follow, editing twice
  equals editing once, `pub_date` and author never change, and a request
  without form data writes nothing.

The clock is an input: `now` is the `pub_date` of a new post and the
`created` time of a new comment. A group displays as its title
(`Models.GroupStr`).

Two quirks of the code are kept as written:

- An edit by someone other than the author redirects to the edit URL
  itself.
- Following an unknown username raises an uncaught lookup error (`Error`).
  Unfollowing an unknown username gives `NotFound`.

Follow and unfollow write on GET. "A GET writes nothing" is therefore
stated for every other route (`Behaviour.OnlyWritingRequestsWrite`).

## Model

| member | source | states |
|---|---|---|
| Models.PostStr | yatube/posts/models.py:53-54 | a post displays as the prefix of its text of length min(15, text length) |
| Models.FindUser | yatube/posts/views.py:144 | a lookup by username returns a user of the table with that name, and fails exactly when no user has it |
| Models.FindGroup | yatube/posts/views.py:24 | a lookup by slug returns a group of the table with that slug, and fails exactly when no group has it |
| Models.FindPost | yatube/posts/views.py:58 | a lookup by id returns a post of the table with that id, and fails exactly when no post has it |
| Models.FindUserUnique | yatube/posts/views.py:144 | under the invariant, looking a user up by username yields exactly the user with that name |
| Models.FindGroupUnique | yatube/posts/views.py:24 | under the invariant, looking a group up by slug yields exactly the group with that slug |
| Models.FindPostUnique | yatube/posts/views.py:58 | under the invariant, looking a post up by id yields exactly the post with that id |
| Models.InsertionPoint | yatube/posts/models.py:50-51 | a new post goes after every strictly newer post and before the first post that is not newer |
| Models.InsertKeepsNewestFirst | yatube/posts/models.py:50-51 | inserting a post keeps the table sorted by pub_date, newest first |
| Models.InsertAddsOnlyThePost | yatube/posts/views.py:78-80 | saving a new post adds exactly that row: one more row, same rows otherwise (as a multiset) |
| Models.CreateGroup | yatube/posts/models.py:11 | inserting a group fails exactly when its slug is already taken; otherwise appends it with the next id and changes nothing else |
| Models.DeletePost | yatube/posts/models.py:58-62 | deleting a post removes it and exactly the comments on it; every other comment keeps its number of occurrences; nothing else changes |
| Models.DeleteGroup | yatube/posts/models.py:35-43 | deleting a group removes it; every post survives, and its group is set to none where it named that group and is otherwise unchanged |
| Models.DeleteUser | yatube/posts/models.py:29-81 | deleting a user removes them, their posts, their comments, the comments on their posts, and every follow in which they are either side; every other comment keeps its number of occurrences |
| Forms.StripStart | yatube/posts/forms.py:9 | the text field's cleaning drops leading whitespace: every character before this position is whitespace, the one at it is not |
| Forms.StripEnd | yatube/posts/forms.py:9 | the cleaning drops trailing whitespace: every character from this position on is whitespace, the one before it (if kept) is not |
| Forms.Strip | yatube/posts/forms.py:9 | the stripped text is an infix surrounded only by whitespace that neither starts nor ends with whitespace |
| Forms.StripIdempotent | yatube/posts/forms.py:9 | stripping twice equals stripping once |
| Forms.StripEmptyIffBlank | yatube/posts/forms.py:9 | stripping leaves nothing exactly when the text is all whitespace |
| Forms.StripKeepsNull | yatube/posts/forms.py:9 | a null character is in the stripped text exactly when it is in the raw text |
| Forms.CleanText | yatube/posts/models.py:19-23 | the required text field is in error exactly when the text is blank or holds a null character; otherwise its value is the stripped, non-empty text |
| Forms.ValidatePost | yatube/posts/forms.py:6-9 | no data gives an unbound form; text is required; group may be empty but otherwise must be an existing group's id; image is optional; each error names its field; cleaned values are the stripped text, the chosen group and the upload |
| Forms.ApplyPostForm | yatube/posts/forms.py:9 | saving the form writes text and group, and image only when a file was uploaded; id, author and pub_date stay those of the instance |
| Forms.ValidateComment | yatube/posts/forms.py:22-25 | no data gives an unbound form; the only field is text, in error exactly when blank or holding a null character; the cleaned value is the stripped text |
| Pagination.PageCount | yatube/posts/views.py:11 | the number of pages of ten: at least one, and just enough to hold every item |
| Pagination.PageOf | yatube/posts/views.py:11 | a page is the consecutive run of items starting at (number - 1) * 10; it is full except on the last page, which holds the rest |
| Pagination.PagesFromAreSuffix | yatube/posts/views.py:11 | the pages from a given page on, joined, are the listing from that page's first item on |
| Pagination.PagesCoverListing | yatube/posts/views.py:11 | all pages joined are the whole listing: nothing skipped or repeated |
| Pagination.ThirteenItemsSplitTenAndThree | yatube/posts/tests/test_views.py:284-316 | thirteen items make two pages of ten and three |
| Views.IndexView | yatube/posts/views.py:9-19 | the index lists every post in the default order and writes nothing |
| Views.GroupPostsView | yatube/posts/views.py:22-33 | an unknown slug gives NotFound; otherwise the page lists the posts of that group and no others; nothing is written |
| Views.ProfileView | yatube/posts/views.py:36-53 | an unknown username gives NotFound; otherwise the page lists the author's posts and no others; its following flag is true exactly when the viewer is logged in and follows the author |
| Views.PostDetailView | yatube/posts/views.py:56-68 | an unknown id gives NotFound; otherwise the page shows that post and exactly its comments, each as many times as it is stored |
| Views.PostCreateView | yatube/posts/views.py:71-88 | an unbound or invalid form writes nothing and re-renders with its errors; a valid one adds exactly one post (next id, current user, pub_date now, the cleaned text, group and image), changes nothing else, and redirects to the user's profile |
| Views.UpdatePost | yatube/posts/views.py:103 | the update rewrites exactly the rows with the post's id and leaves the others unchanged |
| Views.PostEditView | yatube/posts/views.py:91-113 | an unknown id gives NotFound; a non-author is redirected to the edit URL and nothing changes; an invalid form by the author writes nothing; a valid one rewrites only that post's form fields and redirects to the post |
| Views.AddCommentView | yatube/posts/views.py:116-125 | an unknown post gives NotFound; otherwise the user is always sent to the post; a valid comment appends exactly one comment by the user on that post, an invalid one writes nothing |
| Views.FollowIndexView | yatube/posts/views.py:128-138 | the feed lists the posts whose author the user follows and no others; nothing is written |
| Views.ProfileFollowView | yatube/posts/views.py:141-147 | an unknown username is an Error; otherwise the follow set gains the pair exactly when the user is not the author; an existing pair or a self-follow writes nothing |
| Views.ProfileUnfollowView | yatube/posts/views.py:150-155 | an unknown username gives NotFound; otherwise exactly the pair is removed, other follows stay, and an absent pair writes nothing |
| Views.Handle | yatube/posts/views.py:71-72 | an anonymous request to a login-only view is sent to login with its own URL and writes nothing |
| Invariants.CreatePreservesValid | yatube/posts/views.py:77-81 | creating a post keeps the store invariant |
| Invariants.EditPreservesValid | yatube/posts/views.py:102-103 | editing a post keeps the store invariant, in particular the newest-first order |
| Invariants.CommentPreservesValid | yatube/posts/views.py:120-124 | adding a comment keeps the store invariant |
| Invariants.FollowPreservesValid | yatube/posts/models.py:83-88 | following keeps every (user, author) pair unique |
| Invariants.UnfollowPreservesValid | yatube/posts/views.py:153-154 | unfollowing keeps the store invariant |
| Invariants.HandlePreservesValid | yatube/posts/views.py:71-155 | every request by a known or anonymous principal keeps the store invariant |
| Invariants.CreateGroupPreservesValid | yatube/posts/models.py:11 | inserting a group keeps slugs unique |
| Invariants.DeletePostPreservesValid | yatube/posts/models.py:58-62 | deleting a post leaves no comment pointing at a missing post |
| Invariants.DeleteGroupPreservesValid | yatube/posts/models.py:35-43 | deleting a group leaves no post pointing at a missing group |
| Invariants.DeleteUserPreservesValid | yatube/posts/models.py:29-34 | deleting a user leaves no post, comment or follow pointing at a missing user or post |
| Behaviour.OnlyWritingRequestsWrite | yatube/posts/views.py:71-77 | an anonymous request writes nothing; so does any request without form data, except follow and unfollow |
| Behaviour.CreateKeepsPosts | yatube/posts/views.py:78-80 | creating a post keeps every existing post as it was |
| Behaviour.EditTwiceIsEditOnce | yatube/posts/views.py:97-104 | repeating an edit changes nothing further |
| Behaviour.EditKeepsIdentity | yatube/posts/views.py:97-103 | editing keeps the id, author and pub_date of every post in its place |
| Behaviour.CreateKeepsIdentity | yatube/posts/views.py:77-80 | creating a post leaves the author and pub_date of every existing post as they were |
| Behaviour.EditKeepsPostIdentity | yatube/posts/views.py:97-103 | editing a post leaves the author and pub_date of every post as they were |
| Behaviour.PostIdentityIsKept | yatube/posts/models.py:24-28 | no request changes the pub_date or author of an existing post |
| Behaviour.GroupPageShowsTitle | yatube/posts/models.py:14-15 | the page of an existing group shows that group, and its display string is the group's title |
| Behaviour.FollowIsIdempotent | yatube/posts/views.py:146 | following twice equals following once, in store and outcome |
| Behaviour.SelfFollowIsNoOp | yatube/posts/views.py:145 | following oneself writes nothing and redirects to one's own profile |
| Behaviour.UnfollowUndoesFollow | yatube/posts/views.py:151-154 | unfollowing right after a new follow gives back the original store |
| Behaviour.ProfileShowsFollowing | yatube/posts/views.py:41-45 | after following an author, their profile shows the viewer as following; after unfollowing, it does not |
| Behaviour.FeedWithoutFollowsIsEmpty | yatube/posts/views.py:130 | a user who follows nobody sees an empty feed |
| Behaviour.ListingsAreNewestFirst | yatube/posts/models.py:50-51 | index, group, profile and feed listings are all newest first and list no post twice |
| Behaviour.CreatedPostIsListed | yatube/posts/tests/test_views.py:186-219 | a post created in a group appears on the index, on that group's page and on the author's profile, and on no other group's page |
| Behaviour.CommentIsShown | yatube/posts/tests/test_views.py:221-235 | a valid comment appears on the post's page; an invalid one leaves the page as it was |

## Left out

- Templates, titles and context strings: a page is modelled by the data it shows.
- Authentication and sessions: the principal is a parameter. The login URL behind `LoginRedirect` is not modelled.
- The twenty-second page cache on the index: it is time-based and provided by the framework.
- Image storage and upload bytes: an image is an opaque token. The check that an upload is an image, and the image widget's "clear" checkbox, are not modelled.
- `posts/utils.py` is not part of this model. Pagination assumes Django's `Paginator` with ten items per page.
- Pagination.PageOf: requires a page number between 1 and the page count. Out-of-range or malformed page numbers are decided by the helper, which is not part of this model.
- `core/models.py` is not part of this model. A comment's `created` time is taken as the time it is saved. Comments are listed in the order they were saved.
- Views.PostCreateView: a POST that carries an uploaded file but no form fields is modelled as an unbound form. Django binds that form, which then fails on the missing text. Either way nothing is written; only the errors shown differ. The same applies to Views.PostEditView.
- Forms.ValidatePost: the raw group choice is an integer. A non-numeric choice is refused like an id that no group has.
- Views.FollowIndexView: the feed is a join on the follows table, so duplicate follow rows would repeat posts. The invariant rules duplicates out, and the model states the feed as a filter.
- Behaviour.EditTwiceIsEditOnce: an upload is stored under the reference it arrives with. Django's file storage saves a re-uploaded file under a fresh name, so in the app a repeated edit that uploads an image changes the stored image again. The lemma matches the app only for edits without an upload.
- Comments and follows carry no primary key of their own. Their auto-increment ids are not modelled, so `Behaviour.UnfollowUndoesFollow` can restore the store exactly, although the database's id sequence for follows has moved on.
- A rendered listing (`PostList`, `GroupPage`, `ProfilePage`, and the feed) carries the whole ordered result the view passes to the paginator. The `page` query parameter, and which page is shown, are not part of a view's outcome; `Pagination` states how the listing splits.
- URL routing (for example, a non-numeric post id getting a 404 before any view runs) is not modelled.
- Creating users and groups through the admin or the authentication app is not modelled. So are the group title length limit and the slug character rules.
- The comment form that `post_detail` builds but never saves from.
- `serializers.py`, the `about` app's static pages and the migrations. The migrations only restate constraints already in `models.py`.
- Concurrency and transactions.
