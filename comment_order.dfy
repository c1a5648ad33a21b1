/**
 * `comments.order(created_at: :desc)`: the database returns a post's
 * comments newest first. The order among comments with the same timestamp
 * is left to the database; the insertion sort below fixes one such order,
 * and only what every such order shares (newest first, the same comments) is
 * stated about it.
 */
module CommentOrder {
  import opened Records

  /** No comment is older than one after it. */
  predicate NewestFirst(cs: seq<Comment>)
  {
    forall i, j :: 0 <= i < j < |cs| ==> cs[i].createdAt >= cs[j].createdAt
  }

  /** Puts `c` into a newest-first list, ahead of the first comment that is not newer. */
  function Insert(c: Comment, sorted: seq<Comment>): (r: seq<Comment>)
    requires NewestFirst(sorted)
    ensures NewestFirst(r)
    ensures |r| == |sorted| + 1
    ensures r[0] == c || (sorted != [] && r[0] == sorted[0])
  {
    if sorted == [] || c.createdAt >= sorted[0].createdAt then
      [c] + sorted
    else
      var rest := Insert(c, sorted[1..]);
      assert forall k :: 0 <= k < |rest| ==> rest[0].createdAt >= rest[k].createdAt;
      [sorted[0]] + rest
  }

  lemma {:induction false} InsertAddsOne(c: Comment, sorted: seq<Comment>)
    requires NewestFirst(sorted)
    ensures multiset(Insert(c, sorted)) == multiset(sorted) + multiset{c}
  {
    if sorted == [] || c.createdAt >= sorted[0].createdAt {
    } else {
      InsertAddsOne(c, sorted[1..]);
      assert sorted == [sorted[0]] + sorted[1..];
    }
  }

  /** The comments in the order the query returns them. */
  function OrderByCreatedAtDesc(cs: seq<Comment>): (r: seq<Comment>)
    ensures NewestFirst(r)
  {
    if cs == [] then [] else Insert(cs[0], OrderByCreatedAtDesc(cs[1..]))
  }

  /** The ordered list holds the same comments, each as often, as the post has. */
  lemma {:induction false} OrderIsPermutation(cs: seq<Comment>)
    ensures multiset(OrderByCreatedAtDesc(cs)) == multiset(cs)
    ensures |OrderByCreatedAtDesc(cs)| == |cs|
  {
    if cs != [] {
      OrderIsPermutation(cs[1..]);
      InsertAddsOne(cs[0], OrderByCreatedAtDesc(cs[1..]));
      assert cs == [cs[0]] + cs[1..];
    }
    assert |multiset(OrderByCreatedAtDesc(cs))| == |OrderByCreatedAtDesc(cs)|;
  }

  /** The ordering neither loses nor invents comments. */
  lemma OrderedSameComments(cs: seq<Comment>, c: Comment)
    ensures c in OrderByCreatedAtDesc(cs) <==> c in cs
  {
    OrderIsPermutation(cs);
    var r := OrderByCreatedAtDesc(cs);
    assert c in r <==> c in multiset(r);
    assert c in cs <==> c in multiset(cs);
  }
}
