/**
 * The post-deploy migration that clears stale `bookmarked` flags on
 * topic_users
 * (db/post_migrate/20251226143117_fix_stale_topic_user_bookmarked_data.rb).
 *
 * The topic_users table is an array updated in place; the bookmarks and
 * posts tables are read-only sequences. The query for the id range and each
 * batched UPDATE are evaluated against them as the database would.
 */
module BookmarkMigration {
  import opened Wrappers

  const BATCH_SIZE: int := 10000

  /** A topic_users row: the columns the UPDATE reads, the flag it writes,
      and the rest of the row. */
  datatype TopicUser = TopicUser(id: int, userId: int, topicId: int, bookmarked: bool,
                                 otherColumns: map<string, string>)

  datatype BookmarkableType = TopicBookmark | PostBookmark | OtherBookmark(typeName: string)

  datatype Bookmark = Bookmark(userId: int, bookmarkableType: BookmarkableType, bookmarkableId: int)

  /** A posts row; `deleted` is `deleted_at IS NOT NULL`. */
  datatype Post = Post(id: int, topicId: int, deleted: bool)

  /** A live post of the topic with that id: the LEFT JOIN's match. */
  predicate LivePostOfTopic(posts: seq<Post>, postId: int, topicId: int) {
    exists k :: 0 <= k < |posts| && posts[k].id == postId && posts[k].topicId == topicId && !posts[k].deleted
  }

  /** The subquery's condition for one bookmark: the row's own user, and a
      topic bookmark on its topic or a post bookmark on a live post of it. */
  predicate Supports(b: Bookmark, posts: seq<Post>, tu: TopicUser): (s: bool)
    ensures s ==> b.userId == tu.userId && !b.bookmarkableType.OtherBookmark?
    ensures b.bookmarkableType == TopicBookmark ==> (s <==> b.userId == tu.userId && b.bookmarkableId == tu.topicId)
    ensures b.bookmarkableType == PostBookmark ==>
              (s <==> b.userId == tu.userId && LivePostOfTopic(posts, b.bookmarkableId, tu.topicId))
  {
    && b.userId == tu.userId
    && ((b.bookmarkableType == TopicBookmark && b.bookmarkableId == tu.topicId)
        || (b.bookmarkableType == PostBookmark && LivePostOfTopic(posts, b.bookmarkableId, tu.topicId)))
  }

  /** The `EXISTS` subquery: only the row user's own bookmarks count. */
  predicate HasBookmark(tu: TopicUser, bookmarks: seq<Bookmark>, posts: seq<Post>): (b: bool)
    ensures bookmarks == [] ==> !b
    ensures b ==> exists i :: 0 <= i < |bookmarks| && bookmarks[i].userId == tu.userId
  {
    exists i :: 0 <= i < |bookmarks| && Supports(bookmarks[i], posts, tu)
  }

  /** What the migration as a whole does to one row. */
  function Fix(tu: TopicUser, bookmarks: seq<Bookmark>, posts: seq<Post>): (r: TopicUser)
    ensures r.bookmarked <==> tu.bookmarked && HasBookmark(tu, bookmarks, posts)
    ensures r.(bookmarked := tu.bookmarked) == tu
  {
    if tu.bookmarked && !HasBookmark(tu, bookmarks, posts) then tu.(bookmarked := false) else tu
  }

  /** Whether an id is in the batch window starting at `start`. */
  predicate InWindow(id: int, start: int) {
    start <= id < start + BATCH_SIZE
  }

  /** What the UPDATE for the batch starting at `start` does to one row. */
  function BatchRow(tu: TopicUser, start: int, bookmarks: seq<Bookmark>, posts: seq<Post>): (r: TopicUser)
    ensures r == if InWindow(tu.id, start) then Fix(tu, bookmarks, posts) else tu
  {
    if InWindow(tu.id, start) && tu.bookmarked && !HasBookmark(tu, bookmarks, posts)
    then tu.(bookmarked := false)
    else tu
  }

  /** Whether a bookmark exists does not depend on the flag being fixed. */
  lemma HasBookmarkIgnoresFlag(tu: TopicUser, flag: bool, bookmarks: seq<Bookmark>, posts: seq<Post>)
    ensures HasBookmark(tu.(bookmarked := flag), bookmarks, posts) == HasBookmark(tu, bookmarks, posts)
  {
    forall i | 0 <= i < |bookmarks|
      ensures Supports(bookmarks[i], posts, tu.(bookmarked := flag)) <==> Supports(bookmarks[i], posts, tu)
    {
    }
  }

  /** A row already fixed stays as it is. */
  lemma FixIdempotent(tu: TopicUser, bookmarks: seq<Bookmark>, posts: seq<Post>)
    ensures Fix(Fix(tu, bookmarks, posts), bookmarks, posts) == Fix(tu, bookmarks, posts)
  {
    HasBookmarkIgnoresFlag(tu, false, bookmarks, posts);
  }

  /** The batch starts `(min_id..max_id).step(BATCH_SIZE)` produces. */
  function BatchStarts(minId: int, maxId: int): (starts: seq<int>)
    ensures minId <= maxId ==> |starts| == (maxId - minId) / BATCH_SIZE + 1
    ensures minId > maxId ==> starts == []
    ensures forall k :: 0 <= k < |starts| ==> starts[k] == minId + k * BATCH_SIZE && starts[k] <= maxId
    decreases maxId - minId
  {
    if minId > maxId then [] else [minId] + BatchStarts(minId + BATCH_SIZE, maxId)
  }

  /** The windows of the batches are disjoint and every id from `min_id`
      to `max_id` lies in exactly one of them. */
  lemma WindowsPartition(minId: int, maxId: int, id: int)
    requires minId <= id <= maxId
    ensures var starts := BatchStarts(minId, maxId);
            var k := (id - minId) / BATCH_SIZE;
            && 0 <= k < |starts| && InWindow(id, starts[k])
            && forall j :: 0 <= j < |starts| && j != k ==> !InWindow(id, starts[j])
  {
    var starts := BatchStarts(minId, maxId);
    var k := (id - minId) / BATCH_SIZE;
    assert k * BATCH_SIZE <= id - minId < k * BATCH_SIZE + BATCH_SIZE;
    assert k <= (maxId - minId) / BATCH_SIZE;
    forall j | 0 <= j < |starts| && j != k
      ensures !InWindow(id, starts[j])
    {
      if j < k {
        assert starts[j] + BATCH_SIZE <= minId + k * BATCH_SIZE;
      } else {
        assert starts[j] >= minId + k * BATCH_SIZE + BATCH_SIZE;
      }
    }
  }

  /** `SELECT MIN(id), MAX(id) FROM topic_users WHERE bookmarked = true`:
      nothing when no row is bookmarked. */
  method BookmarkedBounds(rows: array<TopicUser>) returns (bounds: Option<(int, int)>)
    ensures bounds.None? <==> forall i :: 0 <= i < rows.Length ==> !rows[i].bookmarked
    ensures bounds.Some? ==>
              && (exists i :: 0 <= i < rows.Length && rows[i].bookmarked && rows[i].id == bounds.value.0)
              && (exists i :: 0 <= i < rows.Length && rows[i].bookmarked && rows[i].id == bounds.value.1)
              && forall i :: 0 <= i < rows.Length && rows[i].bookmarked ==> bounds.value.0 <= rows[i].id <= bounds.value.1
  {
    bounds := None;
    for n := 0 to rows.Length
      invariant bounds.None? <==> forall i :: 0 <= i < n ==> !rows[i].bookmarked
      invariant bounds.Some? ==>
                  && (exists i :: 0 <= i < n && rows[i].bookmarked && rows[i].id == bounds.value.0)
                  && (exists i :: 0 <= i < n && rows[i].bookmarked && rows[i].id == bounds.value.1)
                  && forall i :: 0 <= i < n && rows[i].bookmarked ==> bounds.value.0 <= rows[i].id <= bounds.value.1
    {
      var row := rows[n];
      if row.bookmarked {
        if bounds.None? {
          bounds := Some((row.id, row.id));
        } else {
          var lo := if row.id < bounds.value.0 then row.id else bounds.value.0;
          var hi := if row.id > bounds.value.1 then row.id else bounds.value.1;
          bounds := Some((lo, hi));
        }
      }
    }
  }

  /** One batch: the UPDATE restricted to the window starting at `start`. */
  method UpdateBatch(rows: array<TopicUser>, start: int, bookmarks: seq<Bookmark>, posts: seq<Post>)
    modifies rows
    ensures forall i :: 0 <= i < rows.Length ==> rows[i] == BatchRow(old(rows[i]), start, bookmarks, posts)
  {
    for n := 0 to rows.Length
      invariant forall i :: 0 <= i < n ==> rows[i] == BatchRow(old(rows[i]), start, bookmarks, posts)
      invariant forall i :: n <= i < rows.Length ==> rows[i] == old(rows[i])
    {
      var tu := rows[n];
      if InWindow(tu.id, start) && tu.bookmarked && !HasBookmark(tu, bookmarks, posts) {
        rows[n] := tu.(bookmarked := false);
      }
    }
  }

  /** `up`: every row ends up as `Fix` makes it, whatever the batching. */
  method Up(rows: array<TopicUser>, bookmarks: seq<Bookmark>, posts: seq<Post>)
    modifies rows
    ensures forall i :: 0 <= i < rows.Length ==> rows[i] == Fix(old(rows[i]), bookmarks, posts)
  {
    var bounds := BookmarkedBounds(rows);
    if bounds.None? {
      return;
    }
    var (minId, maxId) := bounds.value;
    ghost var starts := BatchStarts(minId, maxId);
    var start := minId;
    ghost var k := 0;
    while start <= maxId
      invariant 0 <= k <= |starts| && start == minId + k * BATCH_SIZE
      invariant k < |starts| <==> start <= maxId
      invariant k < |starts| ==> start == starts[k]
      invariant forall i :: 0 <= i < rows.Length ==>
                  rows[i] == if minId <= old(rows[i]).id < start then Fix(old(rows[i]), bookmarks, posts) else old(rows[i])
      decreases maxId - start
    {
      UpdateBatch(rows, start, bookmarks, posts);
      start := start + BATCH_SIZE;
      k := k + 1;
    }
  }
}
