/**
 * Priority ranking (src/utils/priorityCalculator.ts): an integer score per
 * issue and the stable descending order the board displays.
 * The clock is the parameter `now`, fixed for a whole sort.
 */
module Priority {
  import opened Types

  /** One day in milliseconds. */
  const MillisPerDay: int := 86400000

  /**
   * Whole days since creation, rounded down like `Math.floor`; an issue
   * created in the future has a negative age.
   */
  function DaysSinceCreated(createdAt: int, now: int): (days: int)
    ensures days * MillisPerDay <= now - createdAt < (days + 1) * MillisPerDay
  {
    (now - createdAt) / MillisPerDay
  }

  /** Ten points per severity level, minus one per whole day of age, plus the user's rank; not clamped. */
  function CalculatePriority(issue: Issue, now: int): int
  {
    issue.severity * 10 + DaysSinceCreated(issue.createdAt, now) * -1 + issue.userDefinedRank
  }

  /** The priority of an issue whose age is `days` whole days plus a part of a day. */
  lemma PriorityOfAge(issue: Issue, now: int, days: int)
    requires days * MillisPerDay <= now - issue.createdAt < (days + 1) * MillisPerDay
    ensures CalculatePriority(issue, now) == issue.severity * 10 - days + issue.userDefinedRank
  {
  }

  /** Severity 5, rank 10, created three days ago: priority 57. */
  lemma ThreeDaysOldExample(issue: Issue, now: int)
    requires issue.severity == 5 && issue.userDefinedRank == 10
    requires issue.createdAt == now - 3 * MillisPerDay
    ensures CalculatePriority(issue, now) == 57
  {
    PriorityOfAge(issue, now, 3);
  }

  /** Zero severity and rank, created now: priority 0; severity 5 and rank -10: priority 40. */
  lemma CreatedNowExamples(issue: Issue, now: int)
    requires issue.createdAt == now
    ensures issue.severity == 0 && issue.userDefinedRank == 0 ==> CalculatePriority(issue, now) == 0
    ensures issue.severity == 5 && issue.userDefinedRank == -10 ==> CalculatePriority(issue, now) == 40
    ensures issue.severity == 5 && issue.userDefinedRank == 0 ==> CalculatePriority(issue, now) == 50
  {
    PriorityOfAge(issue, now, 0);
  }

  /** Severity 5, rank 0, a year old: priority -315 (no clamping). */
  lemma YearOldExample(issue: Issue, now: int)
    requires issue.severity == 5 && issue.userDefinedRank == 0
    requires issue.createdAt == now - 365 * MillisPerDay
    ensures CalculatePriority(issue, now) == -315
  {
    PriorityOfAge(issue, now, 365);
  }

  /** Raising the rank by `k` raises the priority by exactly `k`. */
  lemma RankShiftsPriority(issue: Issue, k: int, now: int)
    ensures CalculatePriority(issue.(userDefinedRank := issue.userDefinedRank + k), now)
            == CalculatePriority(issue, now) + k
  {
  }

  /** A higher severity gives a strictly higher priority, by ten per level. */
  lemma SeverityRaisesPriority(issue: Issue, severity: int, now: int)
    requires severity > issue.severity
    ensures CalculatePriority(issue.(severity := severity), now) > CalculatePriority(issue, now)
    ensures CalculatePriority(issue.(severity := severity), now)
            == CalculatePriority(issue, now) + 10 * (severity - issue.severity)
  {
  }

  /**
   * An earlier creation instant never gives a higher priority, and gives a
   * strictly lower one as soon as it adds a whole day of age.
   */
  lemma OlderIsNotHigher(issue: Issue, createdAt: int, now: int)
    requires createdAt <= issue.createdAt
    ensures DaysSinceCreated(createdAt, now) >= DaysSinceCreated(issue.createdAt, now)
    ensures CalculatePriority(issue.(createdAt := createdAt), now) <= CalculatePriority(issue, now)
    ensures DaysSinceCreated(createdAt, now) > DaysSinceCreated(issue.createdAt, now) ==>
              CalculatePriority(issue.(createdAt := createdAt), now) < CalculatePriority(issue, now)
  {
  }

  /**
   * The comparator handed to `Array.prototype.sort`: negative when `a` goes
   * first, positive when `b` goes first.
   */
  function Compare(a: Issue, b: Issue, now: int): (c: int)
    ensures c < 0 <==> Outranks(a, b, now)
    ensures c > 0 <==> Outranks(b, a, now)
    ensures c == 0 <==> Tied(a, b, now)
  {
    var pa, pb := CalculatePriority(a, now), CalculatePriority(b, now);
    if pb != pa then pb - pa else b.createdAt - a.createdAt
  }

  /** `a` sorts strictly before `b`: higher priority, or equal priority and more recent creation. */
  predicate Outranks(a: Issue, b: Issue, now: int)
  {
    var pa, pb := CalculatePriority(a, now), CalculatePriority(b, now);
    pa > pb || (pa == pb && a.createdAt > b.createdAt)
  }

  /** Neither sorts before the other: equal priority and equal creation instant. */
  predicate Tied(a: Issue, b: Issue, now: int)
  {
    CalculatePriority(a, now) == CalculatePriority(b, now) && a.createdAt == b.createdAt
  }

  /** No entry is outranked by a later one. */
  predicate Ranked(s: seq<Issue>, now: int)
  {
    forall i, j :: 0 <= i < j < |s| ==> !Outranks(s[j], s[i], now)
  }

  /** The entries of `s` tied with `p`, in the order of `s`. */
  function TiesOf(s: seq<Issue>, p: Issue, now: int): seq<Issue>
  {
    if |s| == 0 then []
    else (if Tied(s[0], p, now) then [s[0]] else []) + TiesOf(s[1..], p, now)
  }

  /** Places `x` before the first entry of `t` that does not outrank it. */
  function Insert(x: Issue, t: seq<Issue>, now: int): seq<Issue>
  {
    if |t| == 0 then [x]
    else if Compare(x, t[0], now) > 0 then [t[0]] + Insert(x, t[1..], now)
    else [x] + t
  }

  /**
   * `sortIssuesByPriority`: a fresh sequence, highest priority first, newer
   * first among equal priorities, input order among full ties (the sort is
   * stable). The argument is a value and is left as it was.
   */
  function SortIssuesByPriority(issues: seq<Issue>, now: int): seq<Issue>
  {
    if |issues| == 0 then []
    else Insert(issues[0], SortIssuesByPriority(issues[1..], now), now)
  }

  lemma {:induction false} InsertPermutes(x: Issue, t: seq<Issue>, now: int)
    ensures multiset(Insert(x, t, now)) == multiset(t) + multiset{x}
  {
    if |t| > 0 && Compare(x, t[0], now) > 0 {
      InsertPermutes(x, t[1..], now);
      assert t == [t[0]] + t[1..];
    }
  }

  /** Putting in front an entry that no entry of a ranked list outranks keeps it ranked. */
  lemma RankedCons(h: Issue, r: seq<Issue>, now: int)
    requires Ranked(r, now)
    requires forall j :: 0 <= j < |r| ==> !Outranks(r[j], h, now)
    ensures Ranked([h] + r, now)
  {
    var s := [h] + r;
    forall i, j | 0 <= i < j < |s|
      ensures !Outranks(s[j], s[i], now)
    {
      assert s[j] == r[j - 1];
      if i > 0 {
        assert s[i] == r[i - 1];
      }
    }
  }

  /** What an insertion holds besides `x` comes from `t`. */
  lemma InsertFrom(x: Issue, t: seq<Issue>, now: int, y: Issue)
    requires y in Insert(x, t, now) && y != x
    ensures y in t
  {
    InsertPermutes(x, t, now);
    assert y in multiset(Insert(x, t, now));
  }

  lemma {:induction false} InsertRanked(x: Issue, t: seq<Issue>, now: int)
    requires Ranked(t, now)
    ensures Ranked(Insert(x, t, now), now)
  {
    if |t| == 0 {
      assert Insert(x, t, now) == [x] + [];
      RankedCons(x, [], now);
    } else if Compare(x, t[0], now) > 0 {
      var rest := Insert(x, t[1..], now);
      assert Ranked(t[1..], now) by {
        forall i, j | 0 <= i < j < |t[1..]|
          ensures !Outranks(t[1..][j], t[1..][i], now)
        {
          assert t[1..][j] == t[j + 1] && t[1..][i] == t[i + 1];
        }
      }
      InsertRanked(x, t[1..], now);
      forall j | 0 <= j < |rest|
        ensures !Outranks(rest[j], t[0], now)
      {
        if rest[j] != x {
          InsertFrom(x, t[1..], now, rest[j]);
          var k :| 0 <= k < |t[1..]| && t[1..][k] == rest[j];
          assert t[k + 1] == rest[j];
        }
      }
      RankedCons(t[0], rest, now);
    } else {
      forall j | 0 <= j < |t|
        ensures !Outranks(t[j], x, now)
      {
        if j > 0 {
          assert !Outranks(t[j], t[0], now);
        }
      }
      RankedCons(x, t, now);
    }
  }

  lemma {:induction false} InsertTies(x: Issue, t: seq<Issue>, p: Issue, now: int)
    ensures TiesOf(Insert(x, t, now), p, now)
            == (if Tied(x, p, now) then [x] else []) + TiesOf(t, p, now)
  {
    var r := Insert(x, t, now);
    if |t| == 0 {
      assert r[1..] == [];
    } else if Compare(x, t[0], now) > 0 {
      InsertTies(x, t[1..], p, now);
      assert r[0] == t[0] && r[1..] == Insert(x, t[1..], now);
      // Tied is an equivalence and x is not tied with t[0], so at most one of them ties with p.
      assert !(Tied(x, p, now) && Tied(t[0], p, now));
    } else {
      assert r[0] == x && r[1..] == t;
    }
  }

  /** The sort returns a permutation of its input. */
  lemma {:induction false} SortPermutes(issues: seq<Issue>, now: int)
    ensures multiset(SortIssuesByPriority(issues, now)) == multiset(issues)
    ensures |SortIssuesByPriority(issues, now)| == |issues|
  {
    if |issues| > 0 {
      SortPermutes(issues[1..], now);
      InsertPermutes(issues[0], SortIssuesByPriority(issues[1..], now), now);
      assert issues == [issues[0]] + issues[1..];
    }
    assert |multiset(SortIssuesByPriority(issues, now))| == |SortIssuesByPriority(issues, now)|;
  }

  /**
   * The output never lets a later entry outrank an earlier one: priority does
   * not increase, and among equal priorities creation time does not increase.
   */
  lemma {:induction false} SortRanked(issues: seq<Issue>, now: int)
    ensures Ranked(SortIssuesByPriority(issues, now), now)
    ensures forall i, j :: 0 <= i < j < |SortIssuesByPriority(issues, now)| ==>
              CalculatePriority(SortIssuesByPriority(issues, now)[i], now)
              >= CalculatePriority(SortIssuesByPriority(issues, now)[j], now)
  {
    if |issues| > 0 {
      SortRanked(issues[1..], now);
      InsertRanked(issues[0], SortIssuesByPriority(issues[1..], now), now);
    }
  }

  /** Stability: the entries tied with any `p` keep their input order. */
  lemma {:induction false} SortStable(issues: seq<Issue>, p: Issue, now: int)
    ensures TiesOf(SortIssuesByPriority(issues, now), p, now) == TiesOf(issues, p, now)
  {
    if |issues| > 0 {
      SortStable(issues[1..], p, now);
      InsertTies(issues[0], SortIssuesByPriority(issues[1..], now), p, now);
    }
  }

  /** Empty input gives empty output; a single issue comes back unchanged. */
  lemma SortSmallInputs(x: Issue, now: int)
    ensures SortIssuesByPriority([], now) == []
    ensures SortIssuesByPriority([x], now) == [x]
  {
    assert [x][1..] == [];
  }

  /**
   * Three issues of equal priority created 3, 1 and 2 seconds ago come out
   * newest first.
   */
  lemma EqualPriorityNewestFirst(a: Issue, b: Issue, c: Issue, now: int)
    requires a.severity == 5 && b.severity == 5 && c.severity == 5
    requires a.userDefinedRank == 0 && b.userDefinedRank == 0 && c.userDefinedRank == 0
    requires a.createdAt == now - 3000 && b.createdAt == now - 1000 && c.createdAt == now - 2000
    ensures SortIssuesByPriority([a, b, c], now) == [b, c, a]
  {
    PriorityOfAge(a, now, 0);
    PriorityOfAge(b, now, 0);
    PriorityOfAge(c, now, 0);
    assert [a, b, c][1..] == [b, c] && [b, c][1..] == [c] && [c][1..] == [];
    assert SortIssuesByPriority([c], now) == [c];
    assert Insert(b, [c], now) == [b, c];
    assert Insert(a, [c], now) == [c, a];
    assert Insert(a, [b, c], now) == [b] + Insert(a, [c], now);
  }
}
