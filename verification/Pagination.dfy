/** Reading the whole job listing page by page (app/queue.py, `list_jobs`; app/admin.py, `list_jobs`):
    the answer to one request carries the last job's id as the next cursor when the page is full. */
module Pagination {
  import opened Basics
  import opened JobTable

  function NextCursor(page: seq<JobId>, limit: int): Option<JobId>
    requires limit != 0
  {
    if |page| == limit then Some(page[limit - 1]) else None
  }

  /** Pages got one after another from an unchanging table, each with the cursor the previous one gave. */
  ghost predicate Follows(jobs: Jobs, status: Option<Status>, limit: int, cursor: Option<JobId>, pages: seq<seq<JobId>>)
    requires limit != 0
    decreases |pages|
  {
    pages != [] ==>
      && IsPage(jobs, status, cursor, limit, pages[0])
      && (|pages| > 1 ==>
            && NextCursor(pages[0], limit).Some?
            && Follows(jobs, status, limit, NextCursor(pages[0], limit), pages[1..]))
  }

  /** The last page gave no cursor. */
  predicate Ended(pages: seq<seq<JobId>>, limit: int)
    requires limit != 0
  {
    pages != [] && NextCursor(pages[|pages| - 1], limit).None?
  }

  function Joined(pages: seq<seq<JobId>>): seq<JobId> {
    if pages == [] then [] else pages[0] + Joined(pages[1..])
  }

  ghost predicate NewestFirst(jobs: Jobs, ids: seq<JobId>) {
    && (forall i :: 0 <= i < |ids| ==> ids[i] in jobs)
    && (forall i, k :: 0 <= i < k < |ids| ==> jobs[ids[i]].createdAt > jobs[ids[k]].createdAt)
  }

  /** No two of the jobs were created at the same instant. */
  ghost predicate DistinctTimes(jobs: Jobs, ids: set<JobId>)
    requires ids <= jobs.Keys
  {
    forall a, b :: a in ids && b in ids && a != b ==> jobs[a].createdAt != jobs[b].createdAt
  }

  // ---------------------------------------------------------------- one page

  function Ids(page: seq<JobId>): set<JobId> {
    set j | j in page
  }

  lemma {:induction false} IdsCounted(page: seq<JobId>)
    requires forall i, k :: 0 <= i < k < |page| ==> page[i] != page[k]
    ensures |Ids(page)| == |page|
  {
    if page == [] {
      assert Ids(page) == {};
    } else {
      IdsCounted(page[1..]);
      assert Ids(page) == {page[0]} + Ids(page[1..]);
    }
  }

  lemma SubsetOfSameSize<T>(a: set<T>, b: set<T>)
    requires a <= b && |a| == |b|
    ensures a == b
  {
    assert |b - a| == |b| - |a|;
    assert b - a == {};
  }

  /** A page lists a subset; what it leaves is exactly what its next cursor selects, or nothing. */
  lemma PageSplits(jobs: Jobs, status: Option<Status>, limit: nat, cursor: Option<JobId>, page: seq<JobId>)
    requires limit >= 1 && IsPage(jobs, status, cursor, limit, page)
    requires DistinctTimes(jobs, Listed(jobs, status, cursor))
    ensures NewestFirst(jobs, page) && Ids(page) <= Listed(jobs, status, cursor) && |Ids(page)| == |page|
    ensures match NextCursor(page, limit)
            case None => Ids(page) == Listed(jobs, status, cursor)
            case Some(last) => Listed(jobs, status, Some(last)) == Listed(jobs, status, cursor) - Ids(page)
  {
    var chosen := Listed(jobs, status, cursor);
    IdsCounted(page);
    if |page| != limit {
      SubsetOfSameSize(Ids(page), chosen);
    } else {
      var last := page[limit - 1];
      assert last in chosen;
      forall j | j in chosen && j !in page
        ensures j in Listed(jobs, status, Some(last))
      {
        assert NewerFirst(jobs[last], jobs[j]);
      }
      forall j | j in Listed(jobs, status, Some(last))
        ensures j in chosen && j !in page
      {
      }
    }
  }

  // ---------------------------------------------------------------- the whole walk

  /** n jobs fill every page but the last of an ended walk, and all the pages of one that goes on. */
  predicate Fills(n: nat, pages: nat, limit: nat, ended: bool) {
    (pages - 1) * limit <= n && (ended <==> n < pages * limit)
  }

  lemma FillsOneMore(n: nat, pages: nat, limit: nat, ended: bool)
    requires Fills(n, pages, limit, ended)
    ensures Fills(n + limit, pages + 1, limit, ended)
  {
    assert (pages + 1) * limit == pages * limit + limit && (pages - 1) * limit == pages * limit - limit;
  }

  /** What a walk started at a cursor has listed, and in how many pages. */
  ghost predicate Lists(jobs: Jobs, chosen: set<JobId>, ids: seq<JobId>, ended: bool) {
    NewestFirst(jobs, ids) && Ids(ids) <= chosen && (ended ==> Ids(ids) == chosen)
  }

  ghost predicate Covers(jobs: Jobs, chosen: set<JobId>, limit: nat, pages: seq<seq<JobId>>)
    requires limit >= 1
  {
    && Lists(jobs, chosen, Joined(pages), Ended(pages, limit))
    && Fills(|chosen|, |pages|, limit, Ended(pages, limit))
  }

  lemma LastPageCovers(jobs: Jobs, status: Option<Status>, limit: nat, cursor: Option<JobId>, page: seq<JobId>)
    requires limit >= 1 && IsPage(jobs, status, cursor, limit, page)
    requires DistinctTimes(jobs, Listed(jobs, status, cursor))
    ensures Covers(jobs, Listed(jobs, status, cursor), limit, [page])
  {
    PageSplits(jobs, status, limit, cursor, page);
    assert Joined([page]) == page + Joined([page][1..]) == page;
  }

  lemma JoinedStep(page: seq<JobId>, rest: seq<seq<JobId>>)
    ensures Joined([page] + rest) == page + Joined(rest)
  {
    assert ([page] + rest)[1..] == rest;
  }

  lemma FullPageLists(jobs: Jobs, chosen: set<JobId>, page: seq<JobId>, more: seq<JobId>, ended: bool)
    requires page != [] && NewestFirst(jobs, page) && Ids(page) <= chosen
    requires Lists(jobs, chosen - Ids(page), more, ended)
    requires forall j :: j in chosen - Ids(page) ==> j in jobs && jobs[j].createdAt < jobs[page[|page| - 1]].createdAt
    ensures Lists(jobs, chosen, page + more, ended)
  {
    WalkJoins(jobs, page, more, chosen - Ids(page));
    assert Ids(page + more) == Ids(page) + Ids(more);
  }

  lemma FullPageCovers(jobs: Jobs, chosen: set<JobId>, limit: nat, page: seq<JobId>, rest: seq<seq<JobId>>)
    requires limit >= 1 && rest != [] && |page| == limit && NewestFirst(jobs, page)
    requires Ids(page) <= chosen && |Ids(page)| == limit && Covers(jobs, chosen - Ids(page), limit, rest)
    requires forall j :: j in chosen - Ids(page) ==> j in jobs && jobs[j].createdAt < jobs[page[limit - 1]].createdAt
    ensures Covers(jobs, chosen, limit, [page] + rest)
  {
    var ended := Ended(rest, limit);
    assert Ended([page] + rest, limit) == ended;
    FullPageLists(jobs, chosen, page, Joined(rest), ended);
    JoinedStep(page, rest);
    FillsOneMore(|chosen - Ids(page)|, |rest|, limit, ended);
  }

  lemma {:induction false} WalkFrom(jobs: Jobs, status: Option<Status>, limit: nat, cursor: Option<JobId>,
                                    pages: seq<seq<JobId>>)
    requires limit >= 1 && pages != [] && Follows(jobs, status, limit, cursor, pages)
    requires DistinctTimes(jobs, Listed(jobs, status, cursor))
    ensures Covers(jobs, Listed(jobs, status, cursor), limit, pages)
    decreases |pages|
  {
    var page, rest := pages[0], pages[1..];
    if rest == [] {
      assert pages == [page];
      LastPageCovers(jobs, status, limit, cursor, page);
    } else {
      PageSplits(jobs, status, limit, cursor, page);
      WalkFrom(jobs, status, limit, NextCursor(page, limit), rest);
      FullPageCovers(jobs, Listed(jobs, status, cursor), limit, page, rest);
      assert pages == [page] + rest;
    }
  }

  lemma WalkJoins(jobs: Jobs, page: seq<JobId>, more: seq<JobId>, left: set<JobId>)
    requires page != [] && NewestFirst(jobs, page) && NewestFirst(jobs, more) && Ids(more) <= left
    requires forall j :: j in left ==> j in jobs && jobs[j].createdAt < jobs[page[|page| - 1]].createdAt
    ensures NewestFirst(jobs, page + more)
  {
    forall i, k | 0 <= i < k < |page + more|
      ensures jobs[(page + more)[i]].createdAt > jobs[(page + more)[k]].createdAt
    {
      if i < |page| <= k {
        assert more[k - |page|] in Ids(more);
      }
    }
  }

  /** Following the cursors lists every selected job exactly once, strictly newest first, for any page
      size and status filter; the walk ends, having filled every page but its last. */
  lemma WalkListsAll(jobs: Jobs, status: Option<Status>, limit: nat, pages: seq<seq<JobId>>)
    requires limit >= 1 && pages != [] && Follows(jobs, status, limit, None, pages)
    requires DistinctTimes(jobs, Listed(jobs, status, None))
    ensures NewestFirst(jobs, Joined(pages))
    ensures (|pages| - 1) * limit <= |Listed(jobs, status, None)|
    ensures Ended(pages, limit) <==> |Listed(jobs, status, None)| < |pages| * limit
    ensures Ended(pages, limit) ==> Ids(Joined(pages)) == Listed(jobs, status, None)
    ensures Ended(pages, limit) ==> |Joined(pages)| == |Listed(jobs, status, None)|
  {
    WalkFrom(jobs, status, limit, None, pages);
    IdsCounted(Joined(pages));
  }

  // ---------------------------------------------------------------- equal creation times

  function Newer(jobs: Jobs, chosen: set<JobId>, t: Instant): set<JobId>
    requires chosen <= jobs.Keys
  {
    set j | j in chosen && jobs[j].createdAt > t
  }

  function NotOlder(jobs: Jobs, chosen: set<JobId>, t: Instant): set<JobId>
    requires chosen <= jobs.Keys
  {
    set j | j in chosen && jobs[j].createdAt >= t
  }

  /** The end of the k-th page falls inside the jobs created at instant t. */
  predicate CutAt(jobs: Jobs, chosen: set<JobId>, limit: int, k: nat, t: Instant)
    requires chosen <= jobs.Keys
  {
    k >= 1 && |Newer(jobs, chosen, t)| < k * limit < |NotOlder(jobs, chosen, t)|
  }

  /** Some page ends between two jobs created at the same instant. */
  ghost predicate TieCut(jobs: Jobs, chosen: set<JobId>, limit: int)
    requires chosen <= jobs.Keys
  {
    exists k: nat, t: Instant :: CutAt(jobs, chosen, limit, k, t)
  }

  /** What a full page takes: everything newer than its last job, some of those created with it, and
      nothing older; and the next page starts strictly after that instant. */
  lemma FullPage(jobs: Jobs, status: Option<Status>, limit: int, cursor: Option<JobId>, page: seq<JobId>)
    requires limit != 0 && IsPage(jobs, status, cursor, limit, page) && |page| == limit
    ensures page[limit - 1] in jobs && |Ids(page)| == limit
    ensures var chosen, t := Listed(jobs, status, cursor), jobs[page[limit - 1]].createdAt;
            && Newer(jobs, chosen, t) < Ids(page) <= NotOlder(jobs, chosen, t)
            && Listed(jobs, status, Some(page[limit - 1])) == chosen - NotOlder(jobs, chosen, t)
  {
    var chosen, last := Listed(jobs, status, cursor), page[limit - 1];
    IdsCounted(page);
    assert last in chosen && last in Ids(page);
    forall j | j in Newer(jobs, chosen, jobs[last].createdAt)
      ensures j in page
    {
      assert j !in page ==> NewerFirst(jobs[last], jobs[j]);
    }
    forall j | j in page
      ensures jobs[j].createdAt >= jobs[last].createdAt
    {
      var i :| 0 <= i < |page| && page[i] == j;
      assert i < limit - 1 ==> NewerFirst(jobs[page[i]], jobs[page[limit - 1]]);
    }
  }

  lemma ShortPage(jobs: Jobs, status: Option<Status>, limit: int, cursor: Option<JobId>, page: seq<JobId>)
    requires limit != 0 && IsPage(jobs, status, cursor, limit, page) && |page| != limit
    ensures Ids(page) == Listed(jobs, status, cursor) && !TieCut(jobs, Listed(jobs, status, cursor), limit)
  {
    var chosen := Listed(jobs, status, cursor);
    IdsCounted(page);
    SubsetOfSameSize(Ids(page), chosen);
    forall k: nat, t: Instant
      ensures !CutAt(jobs, chosen, limit, k, t)
    {
      Fewer(NotOlder(jobs, chosen, t), chosen);
      assert k >= 1 && limit >= 1 ==> k * limit >= limit;
      assert limit < 0 ==> k * limit <= 0;
    }
  }

  lemma Fewer(a: set<JobId>, b: set<JobId>)
    requires a <= b
    ensures |a| <= |b|
  {
    assert b == a + (b - a);
  }

  lemma StrictlyFewer(a: set<JobId>, b: set<JobId>)
    requires a < b
    ensures |a| < |b|
  {
    var x :| x in b && x !in a;
    Fewer(a + {x}, b);
  }

  /** Counting from the next page on: every count is less by what was not older than t. */
  lemma CountsShift(jobs: Jobs, chosen: set<JobId>, t: Instant, t': Instant)
    requires chosen <= jobs.Keys && t' < t
    ensures var top := NotOlder(jobs, chosen, t);
            && |Newer(jobs, chosen, t')| == |top| + |Newer(jobs, chosen - top, t')|
            && |NotOlder(jobs, chosen, t')| == |top| + |NotOlder(jobs, chosen - top, t')|
  {
    var top := NotOlder(jobs, chosen, t);
    assert Newer(jobs, chosen, t') == top + Newer(jobs, chosen - top, t');
    assert NotOlder(jobs, chosen, t') == top + NotOlder(jobs, chosen - top, t');
  }

  lemma CutBefore(jobs: Jobs, chosen: set<JobId>, limit: nat, t: Instant, k: nat, t': Instant)
    requires chosen <= jobs.Keys && |NotOlder(jobs, chosen, t)| == limit
    requires CutAt(jobs, chosen - NotOlder(jobs, chosen, t), limit, k, t')
    ensures CutAt(jobs, chosen, limit, k + 1, t')
  {
    var j :| j in NotOlder(jobs, chosen - NotOlder(jobs, chosen, t), t');
    CountsShift(jobs, chosen, t, t');
    assert (k + 1) * limit == k * limit + limit;
  }

  lemma CutsAreOlder(jobs: Jobs, chosen: set<JobId>, limit: nat, t: Instant, k: nat, t': Instant)
    requires chosen <= jobs.Keys && |NotOlder(jobs, chosen, t)| == limit
    ensures CutAt(jobs, chosen, limit, k, t') ==> t' < t
  {
    if t' >= t {
      Fewer(NotOlder(jobs, chosen, t'), NotOlder(jobs, chosen, t));
      assert k >= 1 ==> k * limit >= limit;
    }
  }

  lemma CutAfter(jobs: Jobs, chosen: set<JobId>, limit: nat, t: Instant, k: nat, t': Instant)
    requires chosen <= jobs.Keys && |NotOlder(jobs, chosen, t)| == limit && CutAt(jobs, chosen, limit, k, t') && t' < t
    ensures k >= 2 && CutAt(jobs, chosen - NotOlder(jobs, chosen, t), limit, k - 1, t')
  {
    CountsShift(jobs, chosen, t, t');
    assert k == 1 ==> k * limit == limit;
    assert (k - 1) * limit == k * limit - limit;
  }

  /** A tie is cut at the end of this page or at the end of a later one. */
  lemma CutHereOrLater(jobs: Jobs, chosen: set<JobId>, limit: nat, t: Instant)
    requires chosen <= jobs.Keys && limit >= 1
    requires |Newer(jobs, chosen, t)| < limit <= |NotOlder(jobs, chosen, t)|
    ensures TieCut(jobs, chosen, limit)
       <==> |NotOlder(jobs, chosen, t)| > limit || TieCut(jobs, chosen - NotOlder(jobs, chosen, t), limit)
  {
    var rest := chosen - NotOlder(jobs, chosen, t);
    if |NotOlder(jobs, chosen, t)| > limit {
      assert CutAt(jobs, chosen, limit, 1, t);
    } else {
      if TieCut(jobs, chosen, limit) {
        var k: nat, t' :| CutAt(jobs, chosen, limit, k, t');
        CutsAreOlder(jobs, chosen, limit, t, k, t');
        CutAfter(jobs, chosen, limit, t, k, t');
      }
      if TieCut(jobs, rest, limit) {
        var k: nat, t' :| CutAt(jobs, rest, limit, k, t');
        CutBefore(jobs, chosen, limit, t, k, t');
      }
    }
  }

  /** No job twice, and never a newer one after an older. */
  ghost predicate InOrder(jobs: Jobs, ids: seq<JobId>) {
    && (forall i :: 0 <= i < |ids| ==> ids[i] in jobs)
    && (forall i, k :: 0 <= i < k < |ids| ==> ids[i] != ids[k] && jobs[ids[i]].createdAt >= jobs[ids[k]].createdAt)
  }

  lemma PageWithin(jobs: Jobs, status: Option<Status>, limit: int, cursor: Option<JobId>, page: seq<JobId>)
    requires IsPage(jobs, status, cursor, limit, page)
    ensures InOrder(jobs, page) && Ids(page) <= Listed(jobs, status, cursor)
  {
    forall i, k | 0 <= i < k < |page|
      ensures page[i] != page[k] && jobs[page[i]].createdAt >= jobs[page[k]].createdAt
    {
      assert NewerFirst(jobs[page[i]], jobs[page[k]]);
    }
  }

  lemma OrderJoins(jobs: Jobs, page: seq<JobId>, more: seq<JobId>, left: set<JobId>)
    requires page != [] && InOrder(jobs, page) && InOrder(jobs, more) && Ids(more) <= left
    requires forall j :: j in left ==> j in jobs && jobs[j].createdAt < jobs[page[|page| - 1]].createdAt
    ensures InOrder(jobs, page + more)
  {
    forall i, k | 0 <= i < k < |page + more|
      ensures (page + more)[i] != (page + more)[k]
              && jobs[(page + more)[i]].createdAt >= jobs[(page + more)[k]].createdAt
    {
      if i < |page| <= k {
        assert more[k - |page|] in Ids(more);
      }
    }
  }

  /** Ties or not, a walk lists only selected jobs, none of them twice, newest first. */
  lemma {:induction false} WalkWithin(jobs: Jobs, status: Option<Status>, limit: int, cursor: Option<JobId>,
                                      pages: seq<seq<JobId>>)
    requires limit != 0 && Follows(jobs, status, limit, cursor, pages)
    ensures Ids(Joined(pages)) <= Listed(jobs, status, cursor) && InOrder(jobs, Joined(pages))
    decreases |pages|
  {
    if pages != [] {
      var page, rest := pages[0], pages[1..];
      PageWithin(jobs, status, limit, cursor, page);
      if rest == [] {
        assert Joined(pages) == page + Joined(rest) == page;
      } else {
        FullPage(jobs, status, limit, cursor, page);
        WalkWithin(jobs, status, limit, NextCursor(page, limit), rest);
        OrderJoins(jobs, page, Joined(rest), Listed(jobs, status, NextCursor(page, limit)));
        assert Ids(page + Joined(rest)) == Ids(page) + Ids(Joined(rest));
      }
    }
  }

  lemma {:induction false} CompleteFrom(jobs: Jobs, status: Option<Status>, limit: int, cursor: Option<JobId>,
                                        pages: seq<seq<JobId>>)
    requires limit != 0 && Follows(jobs, status, limit, cursor, pages) && Ended(pages, limit)
    ensures Ids(Joined(pages)) == Listed(jobs, status, cursor) <==> !TieCut(jobs, Listed(jobs, status, cursor), limit)
    decreases |pages|
  {
    var page, rest, chosen := pages[0], pages[1..], Listed(jobs, status, cursor);
    if |page| != limit {
      ShortPage(jobs, status, limit, cursor, page);
      assert Joined(pages) == page + Joined(rest) == page;
    } else {
      var last := page[limit - 1];
      FullPage(jobs, status, limit, cursor, page);
      WalkWithin(jobs, status, limit, Some(last), rest);
      CompleteFrom(jobs, status, limit, Some(last), rest);
      PageAndRest(jobs, chosen, limit, page, Joined(rest), jobs[last].createdAt);
    }
  }

  /** A full page and what follows it are complete exactly when both are. */
  lemma PageAndRest(jobs: Jobs, chosen: set<JobId>, limit: nat, page: seq<JobId>, more: seq<JobId>, t: Instant)
    requires chosen <= jobs.Keys && limit >= 1 && |Ids(page)| == limit
    requires Newer(jobs, chosen, t) < Ids(page) <= NotOlder(jobs, chosen, t)
    requires Ids(more) <= chosen - NotOlder(jobs, chosen, t)
    requires Ids(more) == chosen - NotOlder(jobs, chosen, t)
        <==> !TieCut(jobs, chosen - NotOlder(jobs, chosen, t), limit)
    ensures Ids(page + more) == chosen <==> !TieCut(jobs, chosen, limit)
  {
    var top := NotOlder(jobs, chosen, t);
    StrictlyFewer(Newer(jobs, chosen, t), Ids(page));
    Fewer(Ids(page), top);
    CutHereOrLater(jobs, chosen, limit, t);
    assert Ids(page + more) == Ids(page) + Ids(more);
    assert Ids(page + more) == chosen <==> Ids(page) == top && Ids(more) == chosen - top;
    if |top| == limit {
      SubsetOfSameSize(Ids(page), top);
    }
  }

  /** For every page size (a negative one asks for everything) and status filter, a walk to its end lists
      every selected job exactly when no page ends between two jobs created at the same instant: that is,
      when no k-th page's last place falls inside a group of equal creation times. */
  lemma CompleteExactly(jobs: Jobs, status: Option<Status>, limit: int, pages: seq<seq<JobId>>)
    requires limit != 0 && Follows(jobs, status, limit, None, pages) && Ended(pages, limit)
    ensures Ids(Joined(pages)) == Listed(jobs, status, None) <==> !TieCut(jobs, Listed(jobs, status, None), limit)
  {
    CompleteFrom(jobs, status, limit, None, pages);
  }

  /** With one job a page that is exactly when all instants are distinct. */
  lemma OneAPage(jobs: Jobs, chosen: set<JobId>)
    requires chosen <= jobs.Keys
    ensures TieCut(jobs, chosen, 1) <==> !DistinctTimes(jobs, chosen)
  {
    if a, b :| a in chosen && b in chosen && a != b && jobs[a].createdAt == jobs[b].createdAt {
      var t := jobs[a].createdAt;
      assert NotOlder(jobs, chosen, t) >= Newer(jobs, chosen, t) + {a, b};
      Fewer(Newer(jobs, chosen, t) + {a, b}, NotOlder(jobs, chosen, t));
      assert |Newer(jobs, chosen, t) + {a, b}| == |Newer(jobs, chosen, t)| + 2;
      assert CutAt(jobs, chosen, 1, |Newer(jobs, chosen, t)| + 1, t);
    } else {
      forall k: nat, t: Instant
        ensures !CutAt(jobs, chosen, 1, k, t)
      {
        AtMostOneAt(jobs, chosen, t);
      }
    }
  }

  lemma AtMostOneAt(jobs: Jobs, chosen: set<JobId>, t: Instant)
    requires chosen <= jobs.Keys && DistinctTimes(jobs, chosen)
    ensures |NotOlder(jobs, chosen, t)| <= |Newer(jobs, chosen, t)| + 1
  {
    var newer := Newer(jobs, chosen, t);
    if a :| a in chosen && jobs[a].createdAt == t {
      assert NotOlder(jobs, chosen, t) == newer + {a};
    } else {
      assert NotOlder(jobs, chosen, t) == newer;
    }
  }
}
