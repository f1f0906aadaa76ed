/** What creating, deleting, updating and liking do to the stored posts. */
module PostProperties {
  import opened Wrappers
  import opened Posts

  // ----- Create -----

  /** An empty blog gives its first post ID FIRST_ID; otherwise the new ID is the last post's plus one. */
  lemma CreateAssignsId(posts: seq<Post>, form: Form)
    ensures |Created(posts, form)| == |posts| + 1
    ensures posts == [] ==> Created(posts, form)[0].id == FIRST_ID
    ensures posts != [] ==> Created(posts, form)[|posts|].id == posts[|posts| - 1].id + 1
  {
  }

  /** The new ID is the last post's plus one even when an earlier post carries a larger ID. */
  lemma CreateIgnoresLargerEarlierId()
    ensures var posts := [Post(5, "a", "t", "c", 0), Post(2, "b", "u", "d", 0)];
      Created(posts, Form("e", "v", "f"))[2].id == 3
  {
  }

  /** Create appends exactly one post, made of the form's fields and no likes, after the unchanged posts. */
  lemma CreateAppends(posts: seq<Post>, form: Form)
    ensures var r := Created(posts, form);
      |r| == |posts| + 1 && r[..|posts|] == posts &&
      r[|posts|].author == form.author && r[|posts|].title == form.title &&
      r[|posts|].content == form.content && r[|posts|].likes == LIKES_AT_START
  {
  }

  /** On ordered IDs the new ID exceeds every stored ID, so ordering survives a create. */
  lemma CreatePreservesOrdered(posts: seq<Post>, form: Form)
    requires Ordered(posts)
    ensures forall i :: 0 <= i < |posts| ==> posts[i].id < NextId(posts)
    ensures Ordered(Created(posts, form))
  {
    var r := Created(posts, form);
    forall i, j | 0 <= i < j < |r| ensures r[i].id < r[j].id {
      if j == |posts| {
        assert r[j].id == posts[|posts| - 1].id + 1;
      }
    }
  }

  /** Numbered posts stay numbered after a create. */
  lemma CreatePreservesNumbered(posts: seq<Post>, form: Form)
    requires Numbered(posts)
    ensures NextId(posts) == FIRST_ID + |posts|
    ensures Numbered(Created(posts, form))
  {
  }

  /** Creating posts one after another from an empty blog numbers them FIRST_ID, FIRST_ID + 1, ... in creation order. */
  lemma {:induction false} CreatedAllNumbers(posts: seq<Post>, forms: seq<Form>)
    requires Numbered(posts)
    ensures |CreatedAll(posts, forms)| == |posts| + |forms|
    ensures Numbered(CreatedAll(posts, forms))
    ensures CreatedAll(posts, forms)[..|posts|] == posts
    ensures forall i :: 0 <= i < |forms| ==>
      CreatedAll(posts, forms)[|posts| + i] ==
        Post(FIRST_ID + |posts| + i, forms[i].author, forms[i].title, forms[i].content, LIKES_AT_START)
    decreases |forms|
  {
    if forms != [] {
      var next := Created(posts, forms[0]);
      CreatePreservesNumbered(posts, forms[0]);
      CreatedAllNumbers(next, forms[1..]);
      var r := CreatedAll(next, forms[1..]);
      assert r == CreatedAll(posts, forms);
      assert r[..|posts|] == next[..|next|][..|posts|];
      forall i | 0 <= i < |forms|
        ensures r[|posts| + i] ==
          Post(FIRST_ID + |posts| + i, forms[i].author, forms[i].title, forms[i].content, LIKES_AT_START)
      {
        if i == 0 {
          assert r[|posts|] == r[..|next|][|posts|];
        } else {
          assert forms[i] == forms[1..][i - 1];
        }
      }
    }
  }

  /** From an empty blog, the i-th created post (counting from 0) gets ID FIRST_ID + i and its own form's fields. */
  lemma CreatesFromEmptyCountUp(forms: seq<Form>)
    ensures |CreatedAll([], forms)| == |forms|
    ensures forall i :: 0 <= i < |forms| ==>
      CreatedAll([], forms)[i] == Post(FIRST_ID + i, forms[i].author, forms[i].title, forms[i].content, LIKES_AT_START)
  {
    CreatedAllNumbers([], forms);
  }

  /** Deleting the last of numbered posts makes the next create reissue that post's ID. */
  lemma DeleteLastThenCreateReusesId(posts: seq<Post>)
    requires Numbered(posts) && posts != []
    ensures NextId(Deleted(posts, posts[|posts| - 1].id)) == posts[|posts| - 1].id
  {
    var last := |posts| - 1;
    var k := FirstIndex(posts, posts[last].id);
    assert posts[k].id == FIRST_ID + k;
    assert Deleted(posts, posts[last].id) == posts[..last];
  }

  /** On a file whose IDs are out of order, create can hand out an ID that is already taken. */
  lemma CreateOnUnorderedMayDuplicate()
    ensures var posts := [Post(3, "a", "t", "c", 0), Post(2, "b", "u", "d", 0)];
      !UniqueIds(Created(posts, Form("e", "v", "f")))
  {
    var posts := [Post(3, "a", "t", "c", 0), Post(2, "b", "u", "d", 0)];
    var r := Created(posts, Form("e", "v", "f"));
    assert r[0].id == r[2].id;
  }

  // ----- Ordering and uniqueness -----

  /** Strictly increasing IDs are unique. */
  lemma OrderedIsUnique(posts: seq<Post>)
    requires Ordered(posts)
    ensures UniqueIds(posts)
  {
    forall i, j | 0 <= i < |posts| && 0 <= j < |posts| && i != j
      ensures posts[i].id != posts[j].id
    {
      if i < j { assert posts[i].id < posts[j].id; } else { assert posts[j].id < posts[i].id; }
    }
  }

  /** Numbered posts are ordered. */
  lemma NumberedIsOrdered(posts: seq<Post>)
    requires Numbered(posts)
    ensures Ordered(posts)
  {
  }

  /** Any change that keeps every ID in its place keeps the ordering and the numbering. */
  lemma SameIdsPreserve(a: seq<Post>, b: seq<Post>)
    requires SameIds(a, b)
    ensures Ordered(a) ==> Ordered(b)
    ensures Numbered(a) ==> Numbered(b)
  {
  }

  // ----- Delete -----

  /** Deleting a present ID removes exactly the first post carrying it and keeps the others in order. */
  lemma DeletePresent(posts: seq<Post>, id: int)
    requires HasId(posts, id)
    ensures var r := Deleted(posts, id);
      |r| == |posts| - 1 &&
      exists k :: 0 <= k < |posts| && posts[k].id == id &&
        (forall j :: 0 <= j < k ==> posts[j].id != id) &&
        (forall j :: 0 <= j < k ==> r[j] == posts[j]) &&
        (forall j :: k <= j < |r| ==> r[j] == posts[j + 1]) &&
        multiset(posts) == multiset(r) + multiset{posts[k]}
  {
    var k := FirstIndex(posts, id);
    var r := Deleted(posts, id);
    assert posts == posts[..k] + [posts[k]] + posts[k + 1..];
    assert r == posts[..k] + posts[k + 1..];
  }

  /** Deleting an absent ID leaves the posts as they were. */
  lemma DeleteAbsent(posts: seq<Post>, id: int)
    requires !HasId(posts, id)
    ensures Deleted(posts, id) == posts
  {
  }

  /** Deleting keeps IDs in increasing order. */
  lemma DeletePreservesOrdered(posts: seq<Post>, id: int)
    requires Ordered(posts)
    ensures Ordered(Deleted(posts, id))
  {
    var k := FirstIndex(posts, id);
    if k < |posts| {
      var r := Deleted(posts, id);
      forall i, j | 0 <= i < j < |r| ensures r[i].id < r[j].id {
        var i' := if i < k then i else i + 1;
        var j' := if j < k then j else j + 1;
        assert r[i] == posts[i'] && r[j] == posts[j'];
      }
    }
  }

  /** On ordered IDs a delete leaves no post carrying the deleted ID. */
  lemma DeleteRemovesId(posts: seq<Post>, id: int)
    requires Ordered(posts)
    ensures !HasId(Deleted(posts, id), id)
  {
    var k := FirstIndex(posts, id);
    var r := Deleted(posts, id);
    if k < |posts| {
      forall i | 0 <= i < |r| ensures r[i].id != id {
        if i < k {
          assert r[i] == posts[i];
        } else {
          assert r[i] == posts[i + 1];
          assert posts[k].id < posts[i + 1].id;
        }
      }
    }
  }

  // ----- Update -----

  /**
   * Updating a present ID overwrites author, title and content of the first post carrying it,
   * keeps its ID and likes, and leaves every other post alone; the answer redirects.
   */
  lemma UpdatePresent(posts: seq<Post>, id: int, form: Form)
    requires HasId(posts, id)
    ensures UpdateResponse(posts, id) == RedirectToIndex
    ensures var r := Updated(posts, id, form);
      |r| == |posts| &&
      exists k :: 0 <= k < |posts| && posts[k].id == id &&
        (forall j :: 0 <= j < k ==> posts[j].id != id) &&
        r[k] == Post(id, form.author, form.title, form.content, posts[k].likes) &&
        forall j :: 0 <= j < |posts| && j != k ==> r[j] == posts[j]
  {
    var k := FirstIndex(posts, id);
    assert posts[k].id == id;
  }

  /** Updating an absent ID answers "Post not found" with status 404 and changes nothing. */
  lemma UpdateAbsent(posts: seq<Post>, id: int, form: Form)
    requires !HasId(posts, id)
    ensures UpdateResponse(posts, id) == PlainText("Post not found", 404)
    ensures Updated(posts, id, form) == posts
  {
  }

  /** An update never changes an ID or a like counter. */
  lemma UpdateKeepsIdsAndLikes(posts: seq<Post>, id: int, form: Form)
    ensures SameIds(posts, Updated(posts, id, form))
    ensures forall i :: 0 <= i < |posts| ==> Updated(posts, id, form)[i].likes == posts[i].likes
  {
  }

  // ----- Like -----

  /** Liking a present ID adds exactly one like to the first post carrying it and changes nothing else. */
  lemma LikePresent(posts: seq<Post>, id: int)
    requires HasId(posts, id)
    ensures var r := Liked(posts, id);
      |r| == |posts| &&
      exists k :: 0 <= k < |posts| && posts[k].id == id &&
        (forall j :: 0 <= j < k ==> posts[j].id != id) &&
        r[k] == posts[k].(likes := posts[k].likes + 1) &&
        forall j :: 0 <= j < |posts| && j != k ==> r[j] == posts[j]
  {
    var k := FirstIndex(posts, id);
    assert posts[k].id == id;
  }

  /** Liking an absent ID changes nothing. */
  lemma LikeAbsent(posts: seq<Post>, id: int)
    requires !HasId(posts, id)
    ensures Liked(posts, id) == posts
  {
  }

  /** A like never changes an ID. */
  lemma LikeKeepsIds(posts: seq<Post>, id: int)
    ensures SameIds(posts, Liked(posts, id))
  {
  }

  // ----- A session -----

  /**
   * Starting empty: create alice's and bob's posts, like post 1, delete post 1,
   * retitle post 2; then an update of post 99 is not found.
   */
  lemma Session()
    ensures var s1 := Created([], Form("alice", "T1", "C1"));
      var s2 := Created(s1, Form("bob", "T2", "C2"));
      var s3 := Liked(s2, 1);
      var s4 := Deleted(s3, 1);
      var s5 := Updated(s4, 2, Form("bob", "T2-edit", "C2"));
      s1 == [Post(1, "alice", "T1", "C1", 0)] &&
      s2[1] == Post(2, "bob", "T2", "C2", 0) &&
      s3[0].likes == 1 &&
      s4 == [Post(2, "bob", "T2", "C2", 0)] &&
      s5 == [Post(2, "bob", "T2-edit", "C2", 0)] &&
      UpdateResponse(s5, 99) == NOT_FOUND
  {
    var s1 := Created([], Form("alice", "T1", "C1"));
    var s2 := Created(s1, Form("bob", "T2", "C2"));
    assert s2 == [Post(1, "alice", "T1", "C1", 0), Post(2, "bob", "T2", "C2", 0)];
    assert FirstIndex(s2, 1) == 0;
    var s3 := Liked(s2, 1);
    assert s3 == [Post(1, "alice", "T1", "C1", 1), Post(2, "bob", "T2", "C2", 0)];
    assert FirstIndex(s3, 1) == 0;
    var s4 := Deleted(s3, 1);
    assert s4 == [Post(2, "bob", "T2", "C2", 0)];
    assert FirstIndex(s4, 2) == 0;
    var s5 := Updated(s4, 2, Form("bob", "T2-edit", "C2"));
    assert s5 == [Post(2, "bob", "T2-edit", "C2", 0)];
    assert FirstIndex(s5, 99) == 1;
  }
}
