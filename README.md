# Masterblog post store in Dafny

A model of the post collection behind the Flask blog in `app.py`. The blog is a
sequence of posts (`id`, `author`, `title`, `content`, `likes`) kept in a JSON
file. Each request handler reads the whole sequence, changes it and writes it
back:

- **add** gives the new post the last post's ID plus one (`FIRST_ID` = 1 when
  the blog is empty), no likes (`LIKES_AT_START` = 0), and appends it;
- **delete** removes the first post with the given ID; a missing ID changes
  nothing and still redirects;
- **update** overwrites author, title and content of the first post with the
  given ID; a missing ID answers "Post not found" with status 404;
- **like** adds one like to the first post with the given ID; a missing ID
  changes nothing;
- **fetch_post_by_id** returns the first post with the given ID, or nothing.

Files:

- `wrappers.dfy` — module `Wrappers`: the `Option` type.
- `posts.dfy` — module `Posts`: the `Post`, `Form` and `Response` types, the
  constants, and one function per handler giving the sequence it writes back
  (`Created`, `Deleted`, `Updated`, `Liked`) plus `FirstIndex`, `FetchById`
  and the ID predicates `Ordered`, `UniqueIds`, `Numbered`.
- `properties.dfy` — module `PostProperties`: lemmas about those functions.
- `app.dfy` — module `App`: class `PostStore`. Its field `posts` stands for the
  file's contents. `ReadPosts` and `WritePosts` stand for the JSON helper's
  read and write. The handlers are methods with the source's scanning loops;
  each is proved to write back exactly what the matching `Posts` function gives.

The ID rule takes the last post's ID, not the largest one. When the IDs in the
file strictly increase, every handler keeps them strictly increasing, and so
unique (`Add`, `Delete`, `Update` and `Like` all ensure this). A delete keeps
the remaining posts in their order. So deleting a post that is not the last
one cannot lead to a duplicate ID. Two weaknesses of the rule remain, and both
are proved:

- deleting the last post makes the next create reissue its ID
  (`DeleteLastThenCreateReusesId`);
- a file whose IDs are out of order can get a duplicate
  (`CreateOnUnorderedMayDuplicate`).

## Model

| member | source | states |
|---|---|---|
| `Posts.FirstIndex` | app.py:123-125 | the position where a first-match scan stops: every earlier post has another ID, and the post there (if any) has the ID sought |
| `Posts.FetchById` | app.py:120-126 | None exactly when no post has the ID; otherwise the post at the first position carrying the ID |
| `App.PostStore.FetchPostById` | app.py:120-126 | the loop with early return gives the same answer as `FetchById` on the stored posts and changes nothing |
| `App.PostStore.Add` | app.py:47-63 | writes back `Created` of what it read; keeps strictly increasing IDs increasing; redirects to the index |
| `App.PostStore.Delete` | app.py:68-78 | writes back `Deleted` of what it read; keeps strictly increasing IDs increasing; always redirects |
| `App.PostStore.Update` | app.py:82-105 | writes back `Updated` of what it read; redirects when the ID is found and answers "Post not found"/404 otherwise; keeps strictly increasing IDs increasing |
| `App.PostStore.Like` | app.py:109-117 | writes back `Liked` of what it read; keeps strictly increasing IDs increasing; always redirects |
| `PostProperties.CreateAssignsId` | app.py:51-54 | on an empty blog the new post has ID 1; otherwise it has the last post's ID plus one |
| `PostProperties.CreateIgnoresLargerEarlierId` | app.py:52 | the new ID comes from the last post even when an earlier post has a larger ID (posts 5, 2 give new ID 3) |
| `PostProperties.CreateAppends` | app.py:59-60 | create adds exactly one post at the end, with the form's author, title and content and 0 likes; the earlier posts are unchanged and in the same order |
| `PostProperties.CreatePreservesOrdered` | app.py:52 | on strictly increasing IDs the new ID is larger than every stored one, and the IDs stay strictly increasing |
| `PostProperties.CreatePreservesNumbered` | app.py:51-54 | posts numbered 1, 2, ... in order get the next number, and stay numbered |
| `PostProperties.CreatedAllNumbers` | app.py:51-60 | creating posts in sequence after numbered posts keeps the earlier ones, and gives each new post the next number and its own form's fields |
| `PostProperties.CreatesFromEmptyCountUp` | app.py:51-60 | from an empty blog, the n-th created post (counting from 0) has ID 1 + n and its own form's fields |
| `PostProperties.DeleteLastThenCreateReusesId` | app.py:51-54 | after deleting the last of posts numbered 1, 2, ..., the next create gives the deleted post's ID again |
| `PostProperties.CreateOnUnorderedMayDuplicate` | app.py:52 | on a file with IDs 3, 2 the new post gets ID 3, which is already taken |
| `PostProperties.OrderedIsUnique` | app.py:52 | strictly increasing IDs are unique |
| `PostProperties.DeletePresent` | app.py:72-75 | deleting a present ID removes exactly the first post with that ID; the length drops by one, the remaining posts keep their order, and the multiset loses exactly that post |
| `PostProperties.DeleteAbsent` | app.py:72-78 | deleting an absent ID leaves the sequence unchanged |
| `PostProperties.DeletePreservesOrdered` | app.py:72-75 | deleting keeps strictly increasing IDs strictly increasing |
| `PostProperties.DeleteRemovesId` | app.py:72-75 | on strictly increasing IDs no post with the deleted ID remains |
| `PostProperties.UpdatePresent` | app.py:87-98 | updating a present ID answers with a redirect; only the first post with that ID changes; its author, title and content become the form's; its ID and likes stay |
| `PostProperties.UpdateAbsent` | app.py:104-105 | updating an absent ID answers "Post not found" with status 404 and leaves the sequence unchanged |
| `PostProperties.UpdateKeepsIdsAndLikes` | app.py:90-95 | an update never changes an ID or a like count at any position |
| `PostProperties.LikePresent` | app.py:112-116 | liking a present ID adds exactly one like to the first post with that ID and changes nothing else |
| `PostProperties.LikeAbsent` | app.py:112-116 | liking an absent ID leaves the sequence unchanged |
| `PostProperties.LikeKeepsIds` | app.py:112-115 | a like never changes an ID at any position |
| `PostProperties.Session` | app.py:47-117 | starting empty: create gives IDs 1 and 2; like(1) gives post 1 one like; delete(1) leaves only post 2; updating post 2 changes its title; update(99) answers "Post not found"/404 |

## Left out

- Flask routing, template rendering, `redirect`/`url_for` and `app.run`: a redirect is the value `RedirectToIndex`, and the page the index would render is not modelled.
- The GET branches of `add` and `update` only render forms: they are not modelled. An update of an unknown ID answers the same 404 for GET and POST; only the POST path is modelled.
- `request.form.get` can return None for a missing field: form fields are modelled as strings, so a post with a missing author, title or content is not modelled.
- `json_helper.read_json_data` / `write_json_data` and the file path: the file is the `posts` field. Reading returns it and writing replaces it. Serialisation, a missing or corrupt file, and the write/read round trip of the JSON encoding are not modelled.
- In the source a handler changes the dictionaries of the list in place. The model replaces the changed element of a sequence instead. Nothing else holds those dictionaries, so no aliasing is lost.
- `update` reads the file twice: once in `fetch_post_by_id` and once before its loop. Both reads see the same `posts`. Requests that interleave between those reads, and any other concurrency, are not modelled.
- The index handler (`index`) only reads and renders the posts: it is not modelled.
