/**
 * The request handlers of the blog. A PostStore holds the sequence of posts
 * that the JSON file contains; every handler reads it, changes the copy it
 * read and writes the copy back.
 */
module App {
  import opened Wrappers
  import opened Posts
  import PostProperties

  class PostStore {
    /** The posts as the file currently holds them, in file order. */
    var posts: seq<Post>

    constructor (initial: seq<Post>)
      ensures posts == initial
    {
      posts := initial;
    }

    /** Reading the file gives the stored posts. */
    method ReadPosts() returns (s: seq<Post>)
      ensures s == posts
    {
      s := posts;
    }

    /** Writing the file replaces the stored posts. */
    method WritePosts(s: seq<Post>)
      modifies this
      ensures posts == s
    {
      posts := s;
    }

    /** Submitting the add form: append a post with the next ID and no likes. */
    method Add(form: Form) returns (response: Response)
      modifies this
      ensures posts == Created(old(posts), form)
      ensures Ordered(old(posts)) ==> Ordered(posts)
      ensures response == RedirectToIndex
    {
      var blogPosts := ReadPosts();
      var postId;
      if |blogPosts| > 0 {
        postId := blogPosts[|blogPosts| - 1].id + 1;
      } else {
        postId := FIRST_ID;
      }
      blogPosts := blogPosts + [Post(postId, form.author, form.title, form.content, LIKES_AT_START)];
      WritePosts(blogPosts);
      response := RedirectToIndex;
      if Ordered(old(posts)) {
        PostProperties.CreatePreservesOrdered(old(posts), form);
      }
    }

    /** Deleting a post: remove the first post carrying `id`, if any; always redirect. */
    method Delete(id: int) returns (response: Response)
      modifies this
      ensures posts == Deleted(old(posts), id)
      ensures Ordered(old(posts)) ==> Ordered(posts)
      ensures response == RedirectToIndex
    {
      var blogPosts := ReadPosts();
      var i := 0;
      while i < |blogPosts|
        invariant 0 <= i <= |blogPosts|
        invariant blogPosts == old(posts)
        invariant forall j :: 0 <= j < i ==> blogPosts[j].id != id
      {
        if blogPosts[i].id == id {
          blogPosts := blogPosts[..i] + blogPosts[i + 1..];
          break;
        }
        i := i + 1;
      }
      WritePosts(blogPosts);
      response := RedirectToIndex;
      if Ordered(old(posts)) {
        PostProperties.DeletePreservesOrdered(old(posts), id);
      }
    }

    /** Submitting the update form: overwrite the fields of the first post carrying `id`, or answer 404. */
    method Update(id: int, form: Form) returns (response: Response)
      modifies this
      ensures posts == Updated(old(posts), id, form)
      ensures response == UpdateResponse(old(posts), id)
      ensures Ordered(old(posts)) ==> Ordered(posts)
    {
      var post := FetchPostById(id);
      if post.None? {
        return NOT_FOUND;
      }
      var blogPosts := ReadPosts();
      var i := 0;
      while i < |blogPosts|
        invariant 0 <= i <= |blogPosts|
        invariant blogPosts == old(posts)
        invariant forall j :: 0 <= j < i ==> blogPosts[j].id != id
      {
        if blogPosts[i].id == id {
          blogPosts := blogPosts[i := blogPosts[i].(author := form.author, title := form.title, content := form.content)];
          break;
        }
        i := i + 1;
      }
      WritePosts(blogPosts);
      response := RedirectToIndex;
      PostProperties.UpdateKeepsIdsAndLikes(old(posts), id, form);
      PostProperties.SameIdsPreserve(old(posts), posts);
    }

    /** Liking a post: add one like to the first post carrying `id`, if any; always redirect. */
    method Like(id: int) returns (response: Response)
      modifies this
      ensures posts == Liked(old(posts), id)
      ensures Ordered(old(posts)) ==> Ordered(posts)
      ensures response == RedirectToIndex
    {
      var blogPosts := ReadPosts();
      var i := 0;
      while i < |blogPosts|
        invariant 0 <= i <= |blogPosts|
        invariant blogPosts == old(posts)
        invariant forall j :: 0 <= j < i ==> blogPosts[j].id != id
      {
        if blogPosts[i].id == id {
          blogPosts := blogPosts[i := blogPosts[i].(likes := blogPosts[i].likes + 1)];
          break;
        }
        i := i + 1;
      }
      WritePosts(blogPosts);
      response := RedirectToIndex;
      PostProperties.LikeKeepsIds(old(posts), id);
      PostProperties.SameIdsPreserve(old(posts), posts);
    }

    /** The first stored post carrying `id`, or None. */
    method FetchPostById(id: int) returns (post: Option<Post>)
      ensures post == FetchById(posts, id)
    {
      var blogPosts := ReadPosts();
      var i := 0;
      while i < |blogPosts|
        invariant 0 <= i <= |blogPosts|
        invariant blogPosts == posts
        invariant forall j :: 0 <= j < i ==> blogPosts[j].id != id
      {
        if blogPosts[i].id == id {
          return Some(blogPosts[i]);
        }
        i := i + 1;
      }
      return None;
    }
  }
}
