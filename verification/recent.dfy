/**
 * The recently-accessed list (src/hooks/useRecentlyAccessed.ts): the state
 * updaters over the previous list of issue ids.
 */
module RecentlyAccessed {
  const MaxRecentItems: nat := 5

  /** The previous ids with every copy of `id` removed, the others in their order. */
  function Without(ids: seq<string>, id: string): (r: seq<string>)
    ensures |r| <= |ids|
    ensures forall x :: x in r <==> x in ids && x != id
  {
    if |ids| == 0 then []
    else (if ids[0] == id then [] else [ids[0]]) + Without(ids[1..], id)
  }

  /** Removal works piecewise, so the remaining ids keep their relative order. */
  lemma {:induction false} WithoutConcat(a: seq<string>, b: seq<string>, id: string)
    ensures Without(a + b, id) == Without(a, id) + Without(b, id)
  {
    if |a| == 0 {
      assert a + b == b;
    } else {
      var ab := a + b;
      assert ab[0] == a[0];
      assert ab[1..] == a[1..] + b;
      var head := if a[0] == id then [] else [a[0]];
      WithoutConcat(a[1..], b, id);
      calc {
        Without(ab, id);
        head + Without(a[1..] + b, id);
        head + (Without(a[1..], id) + Without(b, id));
        (head + Without(a[1..], id)) + Without(b, id);
        Without(a, id) + Without(b, id);
      }
    }
  }

  /** Every copy of the removed id goes, and every other id keeps its number of copies. */
  lemma {:induction false} WithoutCount(ids: seq<string>, id: string, x: string)
    ensures multiset(Without(ids, id))[x] == if x == id then 0 else multiset(ids)[x]
  {
    if |ids| > 0 {
      WithoutCount(ids[1..], id, x);
      assert ids == [ids[0]] + ids[1..];
      assert multiset(ids) == multiset([ids[0]]) + multiset(ids[1..]);
    }
  }

  /** Removing an id that is absent changes nothing. */
  lemma {:induction false} WithoutAbsent(ids: seq<string>, id: string)
    requires id !in ids
    ensures Without(ids, id) == ids
  {
    if |ids| > 0 {
      WithoutAbsent(ids[1..], id);
      assert ids == [ids[0]] + ids[1..];
    }
  }

  /**
   * Opening an issue: its id goes to the front, ahead of the other ids in
   * their previous order, and the list is cut to its first five entries.
   */
  function AddRecentIssue(prev: seq<string>, id: string): (r: seq<string>)
    ensures 0 < |r| <= MaxRecentItems
    ensures |r| == if 1 + |Without(prev, id)| <= MaxRecentItems then 1 + |Without(prev, id)| else MaxRecentItems
    ensures r[0] == id
    ensures id !in r[1..]
    ensures multiset(r)[id] == 1
    ensures r[1..] == Without(prev, id)[..|r| - 1]
  {
    // Prepending one id and keeping the first five keeps at most four of the others.
    var others := Without(prev, id);
    var kept := if |others| < MaxRecentItems then |others| else MaxRecentItems - 1;
    var tail := others[..kept];
    assert forall x :: x in tail ==> x in others;
    assert id !in tail;
    assert id !in multiset(tail);
    assert ([id] + tail)[1..] == tail;
    [id] + tail
  }

  /** Opening the same issue twice in a row leaves the list as opening it once. */
  lemma AddRecentIssueIdempotent(prev: seq<string>, id: string)
    ensures AddRecentIssue(AddRecentIssue(prev, id), id) == AddRecentIssue(prev, id)
  {
    var r := AddRecentIssue(prev, id);
    WithoutAbsent(r[1..], id);
    assert r == [id] + r[1..];
    assert Without(r, id) == Without(r[1..], id);
  }

  /** `clearRecentIssues`: the list becomes empty, whatever it held. */
  function ClearRecentIssues(prev: seq<string>): (r: seq<string>)
    ensures |r| == 0
  {
    []
  }
}
