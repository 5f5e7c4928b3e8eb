/** GET / of server/routes/timer.js: a user's sessions, optionally filtered by
    type and by a `startTime` range, newest first, one page at a time. */
module Listing {
  import opened Base
  import opened TimerSession
  import opened Sorting

  /** The values the handler uses when the query string omits `page` or `limit`. */
  const DefaultPage: int := 1
  const DefaultLimit: int := 20

  /** The filtering part of the query string, already read as instants; an
      empty `type` string filters nothing, as in the source. */
  datatype ListFilter = ListFilter(typeName: Option<string>, startDate: Option<int>, endDate: Option<int>)

  /** `totalPages` is absent when `limit` is 0 (the source divides by zero). */
  datatype ListReply =
    | ListPage(sessions: seq<Session>, totalPages: Option<int>, currentPage: int, total: nat)
    | ListServerError

  /** The query filter: this user's records, of the requested type, with
      `startTime` within the requested bounds (both inclusive). */
  predicate Matches(s: Session, user: UserId, f: ListFilter)
  {
    && s.user == user
    && (f.typeName.Some? && f.typeName.value != "" ==> TypeName(s.kind) == f.typeName.value)
    && (f.startDate.Some? ==> s.startTime >= f.startDate.value)
    && (f.endDate.Some? ==> s.startTime <= f.endDate.value)
  }

  /** `sort({ startTime: -1 })`. */
  function NewestFirst(ss: seq<Session>): (r: seq<Session>)
    ensures multiset(r) == multiset(ss)
    ensures forall i, j :: 0 <= i < j < |r| ==> r[i].startTime >= r[j].startTime
  {
    var r := SortBy(ss, (s: Session) => -s.startTime);
    assert SortedBy(r, (s: Session) => -s.startTime);
    r
  }

  /** The matching records in the order the listing pages through them. */
  function Listed(ss: seq<Session>, user: UserId, f: ListFilter): seq<Session>
  {
    NewestFirst(Filter(ss, (s: Session) => Matches(s, user, f)))
  }

  /** `Math.ceil(total / limit)` for a non-zero integer `limit`: the least
      integer at or above the quotient. */
  function CeilDiv(total: nat, limit: int): (r: int)
    requires limit != 0
    ensures limit > 0 ==> r >= 0 && (r - 1) * limit < total <= r * limit
    ensures limit < 0 ==> r * limit <= total < (r - 1) * limit
  {
    if limit > 0 then (total + limit - 1) / limit else -(total / -limit)
  }

  lemma PageStep(p: int, limit: int)
    requires p >= 1 && limit >= 1
    ensures 0 <= (p - 1) * limit && p * limit == (p - 1) * limit + limit
  {
  }

  /** `.skip((page - 1) * limit).limit(limit)`: a negative skip is refused
      (absent result); a `limit` of 0 takes everything after the skip and a
      negative one takes `|limit|`. */
  function SkipLimit(sorted: seq<Session>, page: int, limit: int): (r: Option<seq<Session>>)
    ensures r.None? <==> (page - 1) * limit < 0
    ensures r.Some? ==> |r.value| <= |sorted|
    ensures r.Some? && limit != 0 ==> |r.value| <= Abs(limit)
    ensures r.Some? ==> forall s :: s in r.value ==> s in sorted
  {
    var skip := (page - 1) * limit;
    if skip < 0 then None
    else
      var rest := if skip >= |sorted| then [] else sorted[skip..];
      Some(if limit == 0 || |rest| <= Abs(limit) then rest else rest[..Abs(limit)])
  }

  /** The records skip-then-limit takes for any accepted skip: from position
      `skip` on, all of them when `limit` is 0, otherwise the next `|limit|`. */
  function Taken(sorted: seq<Session>, skip: nat, limit: int): seq<Session>
  {
    if limit == 0 then sorted[Min(skip, |sorted|)..]
    else sorted[Min(skip, |sorted|)..Min(skip + Abs(limit), |sorted|)]
  }

  lemma SkipLimitTakes(sorted: seq<Session>, page: int, limit: int)
    requires (page - 1) * limit >= 0
    ensures SkipLimit(sorted, page, limit) == Some(Taken(sorted, (page - 1) * limit, limit))
  {
    var skip := (page - 1) * limit;
    var n := |sorted|;
    if skip >= n {
      assert Taken(sorted, skip, limit) == [];
    } else if limit != 0 && skip + Abs(limit) < n {
      assert sorted[skip..][..Abs(limit)] == sorted[skip..skip + Abs(limit)];
    } else if limit != 0 {
      assert sorted[skip..] == sorted[skip..n];
    }
  }

  /** The page the handler answers. */
  function ListSessions(ss: seq<Session>, user: UserId, f: ListFilter, page: int, limit: int): (r: ListReply)
    ensures r.ListServerError? <==> (page - 1) * limit < 0
    ensures r.ListPage? ==>
              && r.currentPage == page
              && r.total == |Listed(ss, user, f)|
              && (r.totalPages.Some? <==> limit != 0)
              && (limit != 0 ==> r.totalPages == Some(CeilDiv(r.total, limit)))
              && (limit != 0 ==> |r.sessions| <= Abs(limit))
              && (forall s :: s in r.sessions ==> s in Listed(ss, user, f))
  {
    var sorted := Listed(ss, user, f);
    match SkipLimit(sorted, page, limit)
    case None => ListServerError
    case Some(taken) =>
      ListPage(taken, if limit == 0 then None else Some(CeilDiv(|sorted|, limit)), page, |sorted|)
  }

  /** Any accepted query answers the matches from position `(page-1)*limit`
      on: all of them when `limit` is 0, otherwise at most `|limit|`. */
  lemma ListSessionsTakes(ss: seq<Session>, user: UserId, f: ListFilter, page: int, limit: int)
    requires (page - 1) * limit >= 0
    ensures ListSessions(ss, user, f, page, limit).ListPage?
    ensures ListSessions(ss, user, f, page, limit).sessions == Taken(Listed(ss, user, f), (page - 1) * limit, limit)
  {
    SkipLimitTakes(Listed(ss, user, f), page, limit);
  }

  /** Page `p` (from 1) of `sorted` with `limit` records per page. */
  function PageSlice(sorted: seq<Session>, limit: nat, p: nat): seq<Session>
    requires p >= 1
  {
    sorted[Min((p - 1) * limit, |sorted|)..Min(p * limit, |sorted|)]
  }

  lemma SkipLimitIsPageSlice(sorted: seq<Session>, page: int, limit: int)
    requires page >= 1 && limit >= 1
    ensures SkipLimit(sorted, page, limit) == Some(PageSlice(sorted, limit, page))
  {
    var skip := (page - 1) * limit;
    PageStep(page, limit);
    var n := |sorted|;
    if skip >= n {
      assert PageSlice(sorted, limit, page) == sorted[n..n];
    } else if skip + limit >= n {
      assert PageSlice(sorted, limit, page) == sorted[skip..n];
      assert |sorted[skip..]| <= Abs(limit);
      assert sorted[skip..] == sorted[skip..n];
    } else {
      assert PageSlice(sorted, limit, page) == sorted[skip..skip + limit];
      assert sorted[skip..][..limit] == sorted[skip..skip + limit];
    }
  }

  lemma ListSessionsPage(ss: seq<Session>, user: UserId, f: ListFilter, page: int, limit: int)
    requires page >= 1 && limit >= 1
    ensures ListSessions(ss, user, f, page, limit).ListPage?
    ensures ListSessions(ss, user, f, page, limit).sessions == PageSlice(Listed(ss, user, f), limit, page)
  {
    SkipLimitIsPageSlice(Listed(ss, user, f), page, limit);
  }

  /** A request without `page` or `limit` answers the first page: the 20
      newest matching records (all of them when fewer match). */
  lemma DefaultQueryFirstPage(ss: seq<Session>, user: UserId, f: ListFilter)
    ensures var r := ListSessions(ss, user, f, DefaultPage, DefaultLimit);
            && r.ListPage?
            && r.currentPage == 1
            && r.sessions == Listed(ss, user, f)[..Min(20, |Listed(ss, user, f)|)]
            && r.totalPages == Some(CeilDiv(r.total, 20))
  {
    var sorted := Listed(ss, user, f);
    ListSessionsPage(ss, user, f, DefaultPage, DefaultLimit);
    assert PageSlice(sorted, 20, 1) == sorted[..Min(20, |sorted|)];
  }

  /** The listed records are exactly this user's records that pass the filter. */
  lemma ListedMembers(ss: seq<Session>, user: UserId, f: ListFilter)
    ensures forall s :: s in Listed(ss, user, f) <==> s in ss && Matches(s, user, f)
  {
    var matching := Filter(ss, (s: Session) => Matches(s, user, f));
    var sorted := Listed(ss, user, f);
    forall s ensures s in sorted <==> s in matching {
      assert s in sorted <==> s in multiset(sorted);
      assert s in matching <==> s in multiset(matching);
    }
  }

  /** A page holds only matching records, newest first, at most `limit` of
      them, and reports the number of all matching records. */
  lemma ListPageContents(ss: seq<Session>, user: UserId, f: ListFilter, page: int, limit: int)
    requires page >= 1 && limit >= 1
    ensures var r := ListSessions(ss, user, f, page, limit);
            && r.ListPage?
            && |r.sessions| <= limit
            && (forall s :: s in r.sessions ==> s in ss && Matches(s, user, f))
            && (forall i, j :: 0 <= i < j < |r.sessions| ==> r.sessions[i].startTime >= r.sessions[j].startTime)
            && r.total == |Listed(ss, user, f)|
            && r.totalPages == Some(CeilDiv(r.total, limit))
  {
    var sorted := Listed(ss, user, f);
    SkipLimitIsPageSlice(sorted, page, limit);
    ListedMembers(ss, user, f);
    PageStep(page, limit);
    var a := Min((page - 1) * limit, |sorted|);
    var b := Min(page * limit, |sorted|);
    var taken := sorted[a..b];
    assert forall i :: 0 <= i < |taken| ==> taken[i] == sorted[a + i];
    assert forall s :: s in taken ==> s in sorted;
  }

  lemma PrefixThenSlice(s: seq<Session>, a: int, b: int)
    requires 0 <= a <= b <= |s|
    ensures s[..a] + s[a..b] == s[..b]
  {
  }

  /** Pages 1 to `n`, one after the other. */
  function PagesOf(sorted: seq<Session>, limit: nat, n: nat): seq<Session>
  {
    if n == 0 then [] else PagesOf(sorted, limit, n - 1) + PageSlice(sorted, limit, n)
  }

  lemma {:induction false} PagesOfPrefix(sorted: seq<Session>, limit: nat, n: nat)
    requires limit >= 1
    ensures PagesOf(sorted, limit, n) == sorted[..Min(n * limit, |sorted|)]
  {
    if n > 0 {
      PagesOfPrefix(sorted, limit, n - 1);
      PageStep(n, limit);
      PrefixThenSlice(sorted, Min((n - 1) * limit, |sorted|), Min(n * limit, |sorted|));
    }
  }

  /** Paging through pages 1 to `totalPages` returns every matching record
      exactly once, in newest-first order. */
  lemma PagesCoverListing(ss: seq<Session>, user: UserId, f: ListFilter, limit: int)
    requires limit >= 1
    ensures var sorted := Listed(ss, user, f);
            var n := CeilDiv(|sorted|, limit);
            && (forall p :: 1 <= p <= n ==>
                  ListSessions(ss, user, f, p, limit).ListPage?
                  && ListSessions(ss, user, f, p, limit).sessions == PageSlice(sorted, limit, p))
            && PagesOf(sorted, limit, n) == sorted
  {
    var sorted := Listed(ss, user, f);
    var n := CeilDiv(|sorted|, limit);
    forall p | 1 <= p <= n
      ensures ListSessions(ss, user, f, p, limit).ListPage?
      ensures ListSessions(ss, user, f, p, limit).sessions == PageSlice(sorted, limit, p)
    {
      ListSessionsPage(ss, user, f, p, limit);
    }
    PagesOfPrefix(sorted, limit, n);
  }
}
