/**
 * The issue tracker as the collector sees it: issue records and the logical
 * paging contract of the repository issue listing. The HTTP client itself is
 * replaced by a finite table from page number to the response for that page.
 */
module Tracker {
  import opened Wrappers

  /** The state GitHub reports for a closed issue. */
  const Closed: string := "closed"

  /**
   * One issue record as listed for a repository: its number, its state
   * ("open" or "closed"), the names of its labels in listing order, whether it
   * is a pull request, and its created-at and closed-at times in Unix seconds.
   */
  datatype Issue = Issue(
    number: int,
    state: string,
    labels: seq<string>,
    isPullRequest: bool,
    createdAt: int,
    closedAt: int)

  /** The answer to one page request: an error, or the page's issues and the next page (0 when there is none). */
  datatype PageResult =
    | FetchFailed(error: string)
    | Page(issues: seq<Issue>, nextPage: int)

  /** The issue listing of the configured repository, by page number. */
  type Client = map<int, PageResult>

  /**
   * Following next-page cursors from `page` reaches, within `fuel` requests,
   * a page that fails or that has no next page, and every page on the way is
   * answered.
   */
  ghost predicate Reaches(client: Client, page: int, fuel: nat)
    decreases fuel
  {
    && fuel > 0
    && page in client
    && (client[page].FetchFailed? || client[page].nextPage == 0 || Reaches(client, client[page].nextPage, fuel - 1))
  }

  /**
   * The issues of every page from `page` on, in page order, or the error of
   * the first page that fails.
   */
  ghost function FetchFrom(client: Client, page: int, fuel: nat): Result<seq<Issue>, string>
    requires Reaches(client, page, fuel)
    decreases fuel
  {
    match client[page]
    case FetchFailed(e) => Failure(e)
    case Page(issues, next) =>
      if next == 0 then Success(issues)
      else Prepend(issues, FetchFrom(client, next, fuel - 1))
  }

  /** Issues fetched before a result: kept on success, dropped with the error. */
  function Prepend(issues: seq<Issue>, rest: Result<seq<Issue>, string>): Result<seq<Issue>, string>
  {
    match rest
    case Success(more) => Success(issues + more)
    case Failure(e) => Failure(e)
  }

  /**
   * The pages requested from `page` on, in order: each one after the first is
   * the next-page cursor of the one before, none but the last fails or has no
   * next page, and the last one fails or has no next page.
   */
  ghost function Requests(client: Client, page: int, fuel: nat): (pages: seq<int>)
    requires Reaches(client, page, fuel)
    ensures 1 <= |pages| <= fuel && pages[0] == page
    ensures forall k :: 0 <= k < |pages| ==> pages[k] in client
    ensures forall k :: 0 <= k < |pages| - 1 ==>
      client[pages[k]].Page? && client[pages[k]].nextPage != 0 && client[pages[k]].nextPage == pages[k + 1]
    ensures client[pages[|pages| - 1]].FetchFailed? || client[pages[|pages| - 1]].nextPage == 0
    decreases fuel
  {
    if client[page].FetchFailed? || client[page].nextPage == 0 then [page]
    else [page] + Requests(client, client[page].nextPage, fuel - 1)
  }

  /** One request further: the page's own issues and request come first, then those from its next page on. */
  lemma FollowCursor(client: Client, page: int, fuel: nat)
    requires Reaches(client, page, fuel)
    requires client[page].Page? && client[page].nextPage != 0
    ensures Reaches(client, client[page].nextPage, fuel - 1)
    ensures Requests(client, page, fuel) == [page] + Requests(client, client[page].nextPage, fuel - 1)
    ensures FetchFrom(client, page, fuel) == Prepend(client[page].issues, FetchFrom(client, client[page].nextPage, fuel - 1))
  {
  }

  /** Fetching does not depend on how generous the request bound is. */
  lemma {:induction false} FuelIrrelevant(client: Client, page: int, fuel: nat, other: nat)
    requires Reaches(client, page, fuel) && Reaches(client, page, other)
    ensures FetchFrom(client, page, fuel) == FetchFrom(client, page, other)
    ensures Requests(client, page, fuel) == Requests(client, page, other)
    decreases fuel
  {
    if client[page].Page? && client[page].nextPage != 0 {
      FuelIrrelevant(client, client[page].nextPage, fuel - 1, other - 1);
    }
  }

  /** Some request bound under which paging from page 1 ends. */
  ghost function Bound(client: Client): (fuel: nat)
    requires exists n :: Reaches(client, 1, n)
    ensures Reaches(client, 1, fuel)
  {
    var n :| Reaches(client, 1, n); n
  }

  /** Everything the listing yields, starting at page 1. */
  ghost function AllIssues(client: Client): Result<seq<Issue>, string>
    requires exists n :: Reaches(client, 1, n)
  {
    FetchFrom(client, 1, Bound(client))
  }

  /** The pages requested, starting at page 1. */
  ghost function AllRequests(client: Client): seq<int>
    requires exists n :: Reaches(client, 1, n)
  {
    Requests(client, 1, Bound(client))
  }

  /**
   * Paging fails exactly when one of the requested pages fails, and then it
   * is the first failing page's error; otherwise the issues are those of the
   * requested pages, in order.
   */
  lemma {:induction false} FetchFollowsRequests(client: Client, page: int, fuel: nat)
    requires Reaches(client, page, fuel)
    ensures var pages := Requests(client, page, fuel);
      && (FetchFrom(client, page, fuel).Failure? <==> client[pages[|pages| - 1]].FetchFailed?)
      && (FetchFrom(client, page, fuel).Failure? ==> FetchFrom(client, page, fuel).error == client[pages[|pages| - 1]].error)
      && (FetchFrom(client, page, fuel).Success? ==> FetchFrom(client, page, fuel).value == PagesIssues(client, pages))
    decreases fuel
  {
    var pages := Requests(client, page, fuel);
    if client[page].Page? && client[page].nextPage != 0 {
      var next := client[page].nextPage;
      FetchFollowsRequests(client, next, fuel - 1);
      assert pages[1..] == Requests(client, next, fuel - 1);
      assert pages[|pages| - 1] == pages[1..][|pages[1..]| - 1];
    } else if client[page].Page? {
      assert pages == [page];
      assert PagesIssues(client, pages) == client[page].issues + PagesIssues(client, []);
    }
  }

  /** The issues of the given pages, concatenated in order. */
  ghost function PagesIssues(client: Client, pages: seq<int>): seq<Issue>
    requires forall k :: 0 <= k < |pages| ==> pages[k] in client && client[pages[k]].Page?
  {
    if |pages| == 0 then [] else client[pages[0]].issues + PagesIssues(client, pages[1..])
  }
}
