/**
 * The blog's posts and the rules the request handlers apply to the stored
 * sequence of posts. Each function below gives the sequence a handler writes
 * back, as a function of the sequence it read.
 */
module Posts {
  import opened Wrappers

  /** ID given to a post created in an empty blog. */
  const FIRST_ID: int := 1
  /** Like counter of a freshly created post. */
  const LIKES_AT_START: nat := 0

  /** One stored blog post. */
  datatype Post = Post(id: int, author: string, title: string, content: string, likes: nat)

  /** The author, title and content fields of a submitted form. */
  datatype Form = Form(author: string, title: string, content: string)

  /** A handler's answer: a redirect to the index page, or a plain-text body with a status code. */
  datatype Response = RedirectToIndex | PlainText(body: string, status: int)

  /** The answer to an update of an ID no post carries. */
  const NOT_FOUND: Response := PlainText("Post not found", 404)

  predicate HasId(posts: seq<Post>, id: int) {
    exists i :: 0 <= i < |posts| && posts[i].id == id
  }

  /** Position of the first post carrying `id`, or |posts| when no post does. */
  function FirstIndex(posts: seq<Post>, id: int): (k: nat)
    ensures k <= |posts|
    ensures forall j :: 0 <= j < k ==> posts[j].id != id
    ensures k < |posts| ==> posts[k].id == id
  {
    if posts == [] then 0
    else if posts[0].id == id then 0
    else 1 + FirstIndex(posts[1..], id)
  }

  /** The first post whose ID is `id`, or None when there is none. */
  function FetchById(posts: seq<Post>, id: int): (r: Option<Post>)
    ensures r.None? <==> !HasId(posts, id)
    ensures r.Some? ==>
      exists k :: 0 <= k < |posts| && posts[k] == r.value && r.value.id == id &&
        forall j :: 0 <= j < k ==> posts[j].id != id
  {
    var k := FirstIndex(posts, id);
    if k < |posts| then Some(posts[k]) else None
  }

  /** The ID a new post receives: one more than the last post's, or FIRST_ID. */
  function NextId(posts: seq<Post>): int {
    if |posts| > 0 then posts[|posts| - 1].id + 1 else FIRST_ID
  }

  /** The stored posts after creating a post from `form`. */
  function Created(posts: seq<Post>, form: Form): seq<Post> {
    posts + [Post(NextId(posts), form.author, form.title, form.content, LIKES_AT_START)]
  }

  /** The stored posts after deleting `id`. */
  function Deleted(posts: seq<Post>, id: int): seq<Post> {
    var k := FirstIndex(posts, id);
    if k < |posts| then posts[..k] + posts[k + 1..] else posts
  }

  /** The stored posts after updating `id` with the fields of `form`. */
  function Updated(posts: seq<Post>, id: int, form: Form): seq<Post> {
    var k := FirstIndex(posts, id);
    if k < |posts| then
      posts[k := posts[k].(author := form.author, title := form.title, content := form.content)]
    else posts
  }

  /** The answer to an update of `id`. */
  function UpdateResponse(posts: seq<Post>, id: int): Response {
    if FetchById(posts, id).Some? then RedirectToIndex else NOT_FOUND
  }

  /** The stored posts after liking `id`. */
  function Liked(posts: seq<Post>, id: int): seq<Post> {
    var k := FirstIndex(posts, id);
    if k < |posts| then posts[k := posts[k].(likes := posts[k].likes + 1)] else posts
  }

  /** The stored posts after creating one post per form, in order. */
  function CreatedAll(posts: seq<Post>, forms: seq<Form>): seq<Post>
    decreases |forms|
  {
    if forms == [] then posts
    else CreatedAll(Created(posts, forms[0]), forms[1..])
  }

  /** IDs strictly increase along the sequence. */
  predicate Ordered(posts: seq<Post>) {
    forall i, j :: 0 <= i < j < |posts| ==> posts[i].id < posts[j].id
  }

  /** No two posts share an ID. */
  predicate UniqueIds(posts: seq<Post>) {
    forall i, j :: 0 <= i < |posts| && 0 <= j < |posts| && i != j ==> posts[i].id != posts[j].id
  }

  /** The posts carry IDs FIRST_ID, FIRST_ID + 1, ... in order, as when none was ever deleted. */
  predicate Numbered(posts: seq<Post>) {
    forall i :: 0 <= i < |posts| ==> posts[i].id == FIRST_ID + i
  }

  /** Both sequences carry the same IDs at the same positions. */
  predicate SameIds(a: seq<Post>, b: seq<Post>) {
    |a| == |b| && forall i :: 0 <= i < |a| ==> a[i].id == b[i].id
  }
}
