/**
 * The optimistic post list (src/components/optimistic.tsx): the submit
 * handler's validation, the cache write made before the server answers and
 * the rollback made when it fails. The query cache is reduced to its one
 * entry for the key `['posts']`, where `None` is `undefined` (never loaded).
 */
module Optimistic {
  import opened Wrappers
  import opened JsText

  datatype Post = Post(id: int, title: string)

  /** `old || []`: a missing list counts as empty. */
  function OrEmpty(cached: Option<seq<Post>>): (r: seq<Post>)
    ensures cached.Some? ==> r == cached.value
    ensures cached.None? ==> r == []
  {
    cached.GetOr([])
  }

  /** The list the optimistic write stores: the new post in front of the cached list, or alone when nothing is cached. */
  function Prepended(newPost: Post, cached: Option<seq<Post>>): (r: seq<Post>)
    ensures |r| == |OrEmpty(cached)| + 1
    ensures r[0] == newPost && r[1..] == OrEmpty(cached)
  {
    [newPost] + OrEmpty(cached)
  }

  /**
   * The post `handleSubmit` builds from the input `title` at time `now`
   * (`Date.now()`), or `None` when the title is blank and it only alerts.
   */
  function NewPost(title: string, now: int): (r: Option<Post>)
    ensures r.None? <==> AllWhiteSpace(title)
    ensures r.Some? ==> r.value.id == now && r.value.title == Trim(title)
    ensures r.Some? ==> r.value.title != "" && Trim(r.value.title) == r.value.title
  {
    var trimmed := Trim(title);
    TrimIdempotent(title);
    if trimmed == "" then None else Some(Post(now, trimmed))
  }

  /** The cache after the optimistic write of `onMutate`: loaded, one post longer, the new post first and the old list after it. */
  function AfterMutate(cached: Option<seq<Post>>, newPost: Post): (r: Option<seq<Post>>)
    ensures r.Some? && |r.value| == |OrEmpty(cached)| + 1
    ensures r.value[0] == newPost && r.value[1..] == OrEmpty(cached)
  {
    Some(Prepended(newPost, cached))
  }

  /**
   * The cache after `onError` with the snapshot `previousPosts`: a present
   * snapshot (even an empty list, which JavaScript counts as truthy) is put
   * back; an absent one leaves the cache as it is.
   */
  function AfterError(cached: Option<seq<Post>>, previousPosts: Option<seq<Post>>): (r: Option<seq<Post>>)
    ensures previousPosts.Some? ==> r == previousPosts
    ensures previousPosts.None? ==> r == cached
  {
    if previousPosts.Some? then previousPosts else cached
  }

  /** Rollback round trip: `onError` with the snapshot `onMutate` took undoes the optimistic write over a loaded list. */
  lemma RollbackRestores(cached: Option<seq<Post>>, newPost: Post)
    requires cached.Some?
    ensures AfterError(AfterMutate(cached, newPost), cached) == cached
  {
  }

  /**
   * The cache once a mutation of `newPost` has run, before `onSettled`'s
   * refetch. A success keeps the new post in front of the old list. A failure
   * over a loaded list restores it. A failure with nothing cached has no
   * snapshot, so the optimistic post stays as the only entry.
   */
  function AfterMutation(cached: Option<seq<Post>>, newPost: Post, serverFails: bool): (r: Option<seq<Post>>)
    ensures !serverFails ==> r.Some? && |r.value| == |OrEmpty(cached)| + 1 && r.value[0] == newPost && r.value[1..] == OrEmpty(cached)
    ensures serverFails && cached.Some? ==> r == cached
    ensures serverFails && cached.None? ==> r == Some([newPost])
  {
    var optimistic := AfterMutate(cached, newPost);
    if !serverFails then optimistic
    else if cached.Some? then RollbackRestores(cached, newPost); AfterError(optimistic, cached)
    else assert OrEmpty(cached) == []; assert Prepended(newPost, cached) == [newPost]; AfterError(optimistic, cached)
  }

  /** The query client's entry for `['posts']`. */
  class PostsCache {
    var posts: Option<seq<Post>>

    constructor (initial: Option<seq<Post>>)
      ensures posts == initial
    {
      posts := initial;
    }

    /** `onMutate`: snapshots the entry (`getQueryData`), then writes the optimistic list (`setQueryData`). */
    method OnMutate(newPost: Post) returns (previousPosts: Option<seq<Post>>)
      modifies this
      ensures previousPosts == old(posts)
      ensures posts == AfterMutate(old(posts), newPost)
    {
      previousPosts := posts;
      posts := Some(Prepended(newPost, posts));
    }

    /** `onError`: restores the snapshot the context carries, if there is one. */
    method OnError(previousPosts: Option<seq<Post>>)
      modifies this
      ensures posts == AfterError(old(posts), previousPosts)
    {
      if previousPosts.Some? {
        posts := previousPosts;
      }
    }

    /**
     * What `mutate(newPost)` does to the entry: `onMutate`, then the POST
     * request, whose failure is the parameter `serverFails`, then `onError`
     * with the context `onMutate` returned if it failed.
     */
    method RunMutation(newPost: Post, serverFails: bool)
      modifies this
      ensures posts == AfterMutation(old(posts), newPost, serverFails)
    {
      var previousPosts := OnMutate(newPost);
      if serverFails {
        OnError(previousPosts);
      }
    }
  }

  /** The form's controlled `title` input. */
  class PostForm {
    var title: string

    constructor ()
      ensures title == ""
    {
      title := "";
    }

    /** The input's `onChange`. */
    method SetTitle(value: string)
      modifies this
      ensures title == value
    {
      title := value;
    }

    /**
     * `handleSubmit` at time `now`: a blank title changes nothing; otherwise
     * the trimmed post is sent through the mutation and the input is cleared.
     */
    method HandleSubmit(now: int, cache: PostsCache, serverFails: bool) returns (sent: Option<Post>)
      modifies this, cache
      ensures sent == NewPost(old(title), now)
      ensures sent.None? ==> title == old(title) && cache.posts == old(cache.posts)
      ensures sent.Some? ==> title == "" && cache.posts == AfterMutation(old(cache.posts), sent.value, serverFails)
    {
      if Trim(title) == "" {
        sent := None;
        return;
      }
      var newPost := Post(now, Trim(title));
      sent := Some(newPost);
      cache.RunMutation(newPost, serverFails);
      title := "";
    }
  }
}
