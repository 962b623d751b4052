/**
 * The blog management page's post list. A delete asks for confirmation,
 * calls the blog service and, when the call succeeds, drops the posts with
 * that id; a publish toggle calls the service and, when it succeeds, sets
 * the flag on the posts with that id. Either way a notification reports the
 * outcome. Whether the user confirms and whether the service call succeeds
 * are parameters.
 */
module BlogManagement {
  import opened Js

  /** The fields of a post the list logic reads; the rest travel unchanged. */
  datatype Post = Post(id: string, title: string, published: bool)

  datatype NoticeKind = Success | Failure
  datatype Notice = Notice(message: string, kind: NoticeKind)

  const DeletedMessage: string := "Blog post deleted successfully"
  const DeleteFailedMessage: string := "Failed to delete blog post"
  const PublishedMessage: string := "Blog post published successfully"
  const UnpublishedMessage: string := "Blog post unpublished successfully"
  const ToggleFailedMessage: string := "Failed to update publish state"

  /** `prevPosts.filter((post) => post.id !== postId)`. */
  function WithoutPost(posts: seq<Post>, postId: string): (r: seq<Post>)
    ensures |r| <= |posts|
  {
    if posts == [] then []
    else if posts[0].id != postId then [posts[0]] + WithoutPost(posts[1..], postId)
    else WithoutPost(posts[1..], postId)
  }

  /** A post survives the delete exactly when it was listed and has another id. */
  lemma {:induction false} WithoutPostHas(posts: seq<Post>, postId: string, p: Post)
    ensures p in WithoutPost(posts, postId) <==> p in posts && p.id != postId
  {
    if posts != [] {
      WithoutPostHas(posts[1..], postId, p);
      assert p in posts <==> p == posts[0] || p in posts[1..];
    }
  }

  /** The filter keeps the order: it works piecewise on the two halves of a list. */
  lemma {:induction false} WithoutPostAppend(a: seq<Post>, b: seq<Post>, postId: string)
    ensures WithoutPost(a + b, postId) == WithoutPost(a, postId) + WithoutPost(b, postId)
  {
    if a == [] {
      assert a + b == b;
    } else {
      var ab := a + b;
      assert ab[0] == a[0] && ab[1..] == a[1..] + b;
      WithoutPostAppend(a[1..], b, postId);
      var tail := WithoutPost(a[1..], postId) + WithoutPost(b, postId);
      if a[0].id != postId {
        assert WithoutPost(ab, postId) == [a[0]] + tail;
        assert WithoutPost(a, postId) == [a[0]] + WithoutPost(a[1..], postId);
      } else {
        assert WithoutPost(ab, postId) == tail;
      }
    }
  }

  /** A list without the id is left as it is; so deleting twice is deleting once. */
  lemma {:induction false} WithoutAbsentPost(posts: seq<Post>, postId: string)
    requires forall i :: 0 <= i < |posts| ==> posts[i].id != postId
    ensures WithoutPost(posts, postId) == posts
  {
    if posts != [] {
      WithoutAbsentPost(posts[1..], postId);
      assert posts == [posts[0]] + posts[1..];
    }
  }

  /** Deleting the same id a second time changes nothing. */
  lemma DeleteTwice(posts: seq<Post>, postId: string)
    ensures WithoutPost(WithoutPost(posts, postId), postId) == WithoutPost(posts, postId)
  {
    var r := WithoutPost(posts, postId);
    forall i | 0 <= i < |r| ensures r[i].id != postId {
      WithoutPostHas(posts, postId, r[i]);
    }
    WithoutAbsentPost(r, postId);
  }

  /** `prevPosts.map((post) => post.id === postId ? { ...post, published } : post)`. */
  function SetPublished(posts: seq<Post>, postId: string, published: bool): (r: seq<Post>)
    ensures |r| == |posts|
    ensures forall i :: 0 <= i < |r| ==> r[i].id == posts[i].id && r[i].title == posts[i].title
    ensures forall i :: 0 <= i < |r| ==> r[i].published == (if posts[i].id == postId then published else posts[i].published)
  {
    seq(|posts|, i requires 0 <= i < |posts| => Flagged(posts[i], postId, published))
  }

  /** One post of the map. */
  function Flagged(p: Post, postId: string, published: bool): Post {
    if p.id == postId then p.(published := published) else p
  }

  /** Every post with the id has the flag. */
  predicate AllFlagged(posts: seq<Post>, postId: string, published: bool) {
    forall i :: 0 <= i < |posts| && posts[i].id == postId ==> posts[i].published == published
  }

  /** Toggling a post and toggling it back restores the list. */
  lemma ToggleBack(posts: seq<Post>, postId: string, current: bool)
    requires AllFlagged(posts, postId, current)
    ensures SetPublished(SetPublished(posts, postId, !current), postId, current) == posts
  {
    var r := SetPublished(SetPublished(posts, postId, !current), postId, current);
    assert forall i :: 0 <= i < |r| ==> r[i] == posts[i];
  }

  class BlogManagement {
    var blogPosts: seq<Post>
    var notification: Option<Notice>
    var showEditor: bool
    var editingPost: Option<Post>

    constructor()
      ensures blogPosts == [] && notification == None && !showEditor && editingPost == None
    {
      blogPosts := [];
      notification := None;
      showEditor := false;
      editingPost := None;
    }

    /** `handleCreatePost`: the editor opens on a blank post. */
    method HandleCreatePost()
      modifies this
      ensures showEditor && editingPost == None
      ensures blogPosts == old(blogPosts) && notification == old(notification)
    {
      editingPost := None;
      showEditor := true;
    }

    /** `handleEditPost`: the editor opens on the post. */
    method HandleEditPost(post: Post)
      modifies this
      ensures showEditor && editingPost == Some(post)
      ensures blogPosts == old(blogPosts) && notification == old(notification)
    {
      editingPost := Some(post);
      showEditor := true;
    }

    /** `handleEditorClose`: the editor closes; `refetch` says whether the list is loaded again. */
    method HandleEditorClose(postSaved: bool) returns (refetch: bool)
      modifies this
      ensures !showEditor && refetch == postSaved
      ensures blogPosts == old(blogPosts) && editingPost == old(editingPost) && notification == old(notification)
    {
      showEditor := false;
      refetch := postSaved;
    }

    /**
     * `handleDeletePost`: nothing happens unless the user confirms; a failed
     * service call leaves the list and reports the failure; a successful one
     * drops exactly the posts with that id, the others keeping their order.
     */
    method HandleDeletePost(postId: string, confirmed: bool, deleteSucceeds: bool)
      modifies this
      ensures !confirmed ==> blogPosts == old(blogPosts) && notification == old(notification)
      ensures confirmed && !deleteSucceeds ==>
        blogPosts == old(blogPosts) && notification == Some(Notice(DeleteFailedMessage, Failure))
      ensures confirmed && deleteSucceeds ==>
        blogPosts == WithoutPost(old(blogPosts), postId) && notification == Some(Notice(DeletedMessage, Success))
      ensures showEditor == old(showEditor) && editingPost == old(editingPost)
    {
      if !confirmed {
        return;
      }
      if deleteSucceeds {
        blogPosts := WithoutPost(blogPosts, postId);
        notification := Some(Notice(DeletedMessage, Success));
      } else {
        notification := Some(Notice(DeleteFailedMessage, Failure));
      }
    }

    /**
     * `handleTogglePublish`: when the service call succeeds, the posts with
     * that id get the opposite of the flag shown, and the rest stay; a failed
     * call leaves the list and reports the failure.
     */
    method HandleTogglePublish(postId: string, currentPublishState: bool, toggleSucceeds: bool)
      modifies this
      ensures !toggleSucceeds ==>
        blogPosts == old(blogPosts) && notification == Some(Notice(ToggleFailedMessage, Failure))
      ensures toggleSucceeds ==>
        && blogPosts == SetPublished(old(blogPosts), postId, !currentPublishState)
        && notification == Some(Notice(if currentPublishState then UnpublishedMessage else PublishedMessage, Success))
      ensures showEditor == old(showEditor) && editingPost == old(editingPost)
    {
      if !toggleSucceeds {
        notification := Some(Notice(ToggleFailedMessage, Failure));
        return;
      }
      blogPosts := SetPublished(blogPosts, postId, !currentPublishState);
      notification := Some(Notice(if !currentPublishState then PublishedMessage else UnpublishedMessage, Success));
    }
  }
}
