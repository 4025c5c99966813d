/**
  The admin list of blog posts (`PostsList`): the local list of posts, the
  status filter, and the delete dialog. Toggling a post's status and deleting
  a post first ask the backend (a parameter) and rebuild the local list only
  when it accepts.
*/
module AdminPosts {
  import opened Common

  const Published := "published"
  const Draft := "draft"

  /** The columns of a post the list shows. */
  datatype Post = Post(id: string, title: string, status: string, createdAt: string,
                       publishedAt: Option<string>)

  /** The filter buttons: all posts, or those with one status. */
  datatype Filter = All | Only(status: string)

  /** `posts.filter(keep)`: the posts for which `keep` holds, in their order. */
  function Select(posts: seq<Post>, keep: Post -> bool): (r: seq<Post>)
    ensures |r| <= |posts|
    ensures forall p :: p in r <==> p in posts && keep(p)
  {
    if posts == [] then []
    else (if keep(posts[0]) then [posts[0]] else []) + Select(posts[1..], keep)
  }

  /** Selecting from a concatenation concatenates the selections: the order is kept. */
  lemma {:induction false} SelectAppend(a: seq<Post>, b: seq<Post>, keep: Post -> bool)
    ensures Select(a + b, keep) == Select(a, keep) + Select(b, keep)
  {
    if a == [] {
      assert a + b == b;
    } else {
      assert (a + b)[1..] == a[1..] + b;
      SelectAppend(a[1..], b, keep);
    }
  }

  /** Selecting everything is the identity. */
  lemma {:induction false} SelectAll(posts: seq<Post>, keep: Post -> bool)
    requires forall p :: p in posts ==> keep(p)
    ensures Select(posts, keep) == posts
  {
    if posts != [] {
      assert forall p :: p in posts[1..] ==> p in posts;
      SelectAll(posts[1..], keep);
    }
  }

  /** `filteredPosts`: 'all' keeps every post; otherwise exactly the posts whose status
      is the filter's, in order. */
  function FilteredPosts(posts: seq<Post>, filter: Filter): (r: seq<Post>)
    ensures filter.All? ==> r == posts
    ensures filter.Only? ==> forall p :: p in r <==> p in posts && p.status == filter.status
    ensures filter.Only? ==> r == Select(posts, (p: Post) => p.status == filter.status)
  {
    if filter.All? then posts else Select(posts, (p: Post) => p.status == filter.status)
  }

  /** The status a toggle writes: a published post becomes a draft, anything else is
      published. */
  function NewStatus(status: string): (s: string)
    ensures status == Published ==> s == Draft
    ensures status != Published ==> s == Published
  {
    if status == Published then Draft else Published
  }

  /** A post given a status: the publication time is set when the status is 'published'
      and cleared otherwise; every other column is kept. */
  function WithStatus(p: Post, status: string, now: string): (q: Post)
    ensures q.status == status
    ensures q.publishedAt == (if status == Published then Some(now) else None)
    ensures q.id == p.id && q.title == p.title && q.createdAt == p.createdAt
  {
    p.(status := status, publishedAt := if status == Published then Some(now) else None)
  }

  /** The post after a toggle of itself. */
  function Toggled(p: Post, now: string): (q: Post)
    ensures q.status == NewStatus(p.status)
    ensures p.status == Published ==> q.status == Draft && q.publishedAt == None
    ensures p.status != Published ==> q.status == Published && q.publishedAt == Some(now)
  {
    WithStatus(p, NewStatus(p.status), now)
  }

  /** Toggling twice restores a draft or published status. */
  lemma ToggleTwiceRestoresStatus(p: Post, now: string, later: string)
    requires p.status == Published || p.status == Draft
    ensures Toggled(Toggled(p, now), later).status == p.status
  {
  }

  /** `posts.map(p => p.id === id ? { ...p, status, published_at } : p)`: the new status is
      the one computed from the post the user clicked, given to every entry with its id. */
  function ToggledIn(posts: seq<Post>, id: string, status: string, now: string): (r: seq<Post>)
    ensures |r| == |posts|
    ensures forall i :: 0 <= i < |posts| && posts[i].id == id ==> r[i] == WithStatus(posts[i], status, now)
    ensures forall i :: 0 <= i < |posts| && posts[i].id != id ==> r[i] == posts[i]
  {
    if posts == [] then []
    else [if posts[0].id == id then WithStatus(posts[0], status, now) else posts[0]]
         + ToggledIn(posts[1..], id, status, now)
  }

  /** When the list holds the clicked post itself, that entry becomes its toggle. */
  lemma ToggledInHoldsToggle(posts: seq<Post>, post: Post, now: string, i: nat)
    requires i < |posts| && posts[i] == post
    ensures ToggledIn(posts, post.id, NewStatus(post.status), now)[i] == Toggled(post, now)
  {
  }

  /** `posts.filter(p => p.id !== id)`. */
  function Without(posts: seq<Post>, id: string): (r: seq<Post>)
    ensures forall p :: p in r <==> p in posts && p.id != id
    ensures r == Select(posts, (p: Post) => p.id != id)
  {
    Select(posts, (p: Post) => p.id != id)
  }

  /** Deleting an id that no post has leaves the list as it is. */
  lemma WithoutAbsent(posts: seq<Post>, id: string)
    requires forall p :: p in posts ==> p.id != id
    ensures Without(posts, id) == posts
  {
    SelectAll(posts, (p: Post) => p.id != id);
  }

  /** Two deletes started from the same render overwrite each other: the list the later
      one sets still holds the post the earlier one deleted, although both rows are gone
      from the table. */
  lemma {:induction false} OverlappingDeletesLoseOne(rendered: seq<Post>, first: Post, second: Post)
    requires first in rendered && first.id != second.id
    ensures first in Without(rendered, second.id)
    ensures first !in Without(Without(rendered, first.id), second.id)
  {
  }

  /** The state of the page. */
  class PostsPage {
    var posts: seq<Post>
    var filter: Filter
    var deleteDialogOpen: bool
    var postToDelete: Option<Post>

    /** The page as first rendered, once the posts have been fetched. */
    constructor (fetched: seq<Post>)
      ensures posts == fetched && filter == All && !deleteDialogOpen && postToDelete == None
    {
      posts := fetched;
      filter := All;
      deleteDialogOpen := false;
      postToDelete := None;
    }

    /** What the list shows. */
    function Shown(): (r: seq<Post>)
      reads this
      ensures filter.All? ==> r == posts
    {
      FilteredPosts(posts, filter)
    }

    /** A filter button. */
    method SetFilter(f: Filter)
      modifies this
      ensures filter == f && posts == old(posts)
      ensures deleteDialogOpen == old(deleteDialogOpen) && postToDelete == old(postToDelete)
    {
      filter := f;
    }

    /** `deletePost(post)`: when the backend deletes the row, the list becomes the list of
        the render that created the handler (`rendered`) without that post, and the dialog
        closes; when it refuses, nothing changes. When no other handler changed the list
        since that render, `rendered` is the current list. */
    method DeletePost(post: Post, rendered: seq<Post>, backend: Outcome)
      modifies this
      ensures backend.Success? ==> posts == Without(rendered, post.id)
                                   && !deleteDialogOpen && postToDelete == None
      ensures backend.Failure? ==> posts == old(posts) && deleteDialogOpen == old(deleteDialogOpen)
                                   && postToDelete == old(postToDelete)
      ensures filter == old(filter)
    {
      if backend.Success? {
        posts := Without(rendered, post.id);
        deleteDialogOpen := false;
        postToDelete := None;
      }
    }

    /** `togglePostStatus(post)`: the status written is computed from the post passed in;
        when the backend accepts, the list becomes the list of the render that created the
        handler (`rendered`) with every post of that id toggled, at its place; when it
        refuses, nothing changes. */
    method TogglePostStatus(post: Post, rendered: seq<Post>, now: string, backend: Outcome)
      returns (written: string)
      modifies this
      ensures written == NewStatus(post.status)
      ensures backend.Success? ==> posts == ToggledIn(rendered, post.id, NewStatus(post.status), now)
      ensures backend.Failure? ==> posts == old(posts)
      ensures filter == old(filter) && deleteDialogOpen == old(deleteDialogOpen)
      ensures postToDelete == old(postToDelete)
    {
      written := NewStatus(post.status);
      if backend.Success? {
        posts := ToggledIn(rendered, post.id, written, now);
      }
    }
  }
}
