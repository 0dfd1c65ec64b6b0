/** From search results to items (src/main.rs, `get_prs` and `get_user_items`). The
    remote search is a parameter: `search(query)` is the finite sequence of result
    pages the API hands out for `query`, in the order it hands them out. */
module Fetch {
  import opened Base
  import opened Text
  import opened Model

  /** One search result: the pull request's URL, serialised and as the URL parser
      splits off its path, its number and title, and its author's login and profile URL. */
  datatype Issue = Issue(
    htmlUrl: string,
    htmlPath: string,
    number: nat,
    title: string,
    userLogin: string,
    userUrl: string)

  /** `path_parts[0]` or `path_parts[1]` is out of bounds: the run panics on this URL. */
  datatype FetchError = MissingPathSegment(htmlUrl: string)

  /** The query `get_prs` sends for one user. */
  function Query(user: string, dateSign: string, date: string): string
  {
    "is:pr author:" + user + " created:" + dateSign + date
  }

  /** The non-empty `/`-separated segments of a URL path. */
  function PathSegments(path: string): seq<string>
  {
    NonEmpty(Split(path, '/'))
  }

  /** `Vec::pop`, which leaves an empty vector alone. */
  function Pop(parts: seq<string>): seq<string>
  {
    if |parts| == 0 then parts else parts[..|parts| - 1]
  }

  /** The URL split at `/`, with its last two pieces (pull request number and the
      `pull` segment) dropped, joined again. */
  function RepositoryUrl(url: string): string
  {
    Join(Pop(Pop(Split(url, '/'))), "/")
  }

  /** The item `get_user_items` makes of one search result. */
  function ItemOf(issue: Issue): Result<Item, FetchError>
  {
    var segments := PathSegments(issue.htmlPath);
    if |segments| < 2 then Failure(MissingPathSegment(issue.htmlUrl))
    else Success(Item(
      NatToString(issue.number),
      issue.title,
      issue.htmlUrl,
      segments[0] + "/" + segments[1],
      RepositoryUrl(issue.htmlUrl),
      issue.userLogin,
      issue.userUrl))
  }

  /** A leading piece without the separator comes off whole. */
  lemma SplitCons(x: string, c: char, rest: string)
    requires c !in x
    ensures Split(x + [c] + rest, c) == [x] + Split(rest, c)
  {
    SplitAround(x, c, rest);
    SplitWithoutSeparator(x, c);
  }

  /** The pieces of `/<owner>/<repo>/<tail>` split at `/`. */
  lemma PathSplit(owner: string, repo: string, tail: string)
    requires '/' !in owner && '/' !in repo
    ensures Split("/" + owner + "/" + repo + "/" + tail, '/') == ["", owner, repo] + Split(tail, '/')
  {
    var a := repo + "/" + tail;
    var b := owner + "/" + a;
    assert "/" + owner + "/" + repo + "/" + tail == "" + "/" + b by {
      assert "/" + owner + "/" + repo + "/" + tail == "/" + (owner + "/" + (repo + "/" + tail));
    }
    calc {
      Split("" + "/" + b, '/');
      { SplitCons("", '/', b); }
      [""] + Split(b, '/');
      { SplitCons(owner, '/', a); }
      [""] + ([owner] + Split(a, '/'));
      { SplitCons(repo, '/', tail); }
      [""] + ([owner] + ([repo] + Split(tail, '/')));
      ["", owner, repo] + Split(tail, '/');
    }
  }

  /** A leading empty piece is dropped, two non-empty ones are kept. */
  lemma NonEmptyLead(owner: string, repo: string, pieces: seq<string>)
    requires owner != "" && repo != ""
    ensures NonEmpty(["", owner, repo] + pieces) == [owner, repo] + NonEmpty(pieces)
  {
    var s := ["", owner, repo] + pieces;
    assert s[0] == "" && s[1..] == [owner, repo] + pieces;
    assert NonEmpty(s) == NonEmpty(s[1..]);
    var t := s[1..];
    assert t[0] == owner && t[1..] == [repo] + pieces;
    assert NonEmpty(t) == [owner] + NonEmpty(t[1..]);
    var u := t[1..];
    assert u[0] == repo && u[1..] == pieces;
    assert NonEmpty(u) == [repo] + NonEmpty(pieces);
  }

  /** The segments of a pull request path `/<owner>/<repo>/<kind>/<number>`. */
  lemma PullRequestPath(owner: string, repo: string, kind: string, number: string)
    requires owner != "" && repo != ""
    requires '/' !in owner && '/' !in repo && '/' !in kind && '/' !in number
    ensures var segments := PathSegments("/" + owner + "/" + repo + "/" + kind + "/" + number);
      |segments| >= 2 && segments[0] == owner && segments[1] == repo
  {
    var tail := kind + "/" + number;
    assert "/" + owner + "/" + repo + "/" + kind + "/" + number == "/" + owner + "/" + repo + "/" + tail;
    PathSplit(owner, repo, tail);
    NonEmptyLead(owner, repo, Split(tail, '/'));
  }

  /** Dropping the last two pieces of `<repository>/<kind>/<number>` gives the repository URL. */
  lemma PullRequestRepositoryUrl(repositoryUrl: string, kind: string, number: string)
    requires '/' !in kind && '/' !in number
    ensures RepositoryUrl(repositoryUrl + "/" + kind + "/" + number) == repositoryUrl
  {
    var url := repositoryUrl + "/" + kind + "/" + number;
    var front := Split(repositoryUrl, '/');
    assert Split(url, '/') == front + [kind, number] by {
      assert url == repositoryUrl + "/" + (kind + "/" + number);
      calc {
        Split(repositoryUrl + "/" + (kind + "/" + number), '/');
        { SplitAround(repositoryUrl, '/', kind + "/" + number); }
        front + Split(kind + "/" + number, '/');
        { SplitAround(kind, '/', number); }
        front + (Split(kind, '/') + Split(number, '/'));
        { SplitWithoutSeparator(kind, '/'); SplitWithoutSeparator(number, '/'); }
        front + [kind, number];
      }
    }
    assert Pop(Pop(front + [kind, number])) == front by {
      assert (front + [kind, number])[..|front| + 1] == front + [kind];
      assert (front + [kind])[..|front|] == front;
    }
    JoinSplit(repositoryUrl, '/');
  }

  /** A pull request URL of the usual shape: `<base>/<owner>/<repo>/<kind>/<number>`
      with path `/<owner>/<repo>/<kind>/<number>`. Its item names `owner/repo`, links
      the repository at `<base>/<owner>/<repo>` and keeps the URL unchanged. */
  lemma ItemOfPullRequest(issue: Issue, base: string, owner: string, repo: string, kind: string)
    requires owner != "" && repo != ""
    requires '/' !in owner && '/' !in repo && '/' !in kind
    requires issue.htmlPath == "/" + owner + "/" + repo + "/" + kind + "/" + NatToString(issue.number)
    requires issue.htmlUrl == base + issue.htmlPath
    ensures ItemOf(issue) == Success(Item(
      NatToString(issue.number),
      issue.title,
      issue.htmlUrl,
      owner + "/" + repo,
      base + "/" + owner + "/" + repo,
      issue.userLogin,
      issue.userUrl))
  {
    var number := NatToString(issue.number);
    NatToStringDigits(issue.number);
    assert '/' !in number;
    PullRequestPath(owner, repo, kind, number);
    assert issue.htmlUrl == base + "/" + owner + "/" + repo + "/" + kind + "/" + number;
    PullRequestRepositoryUrl(base + "/" + owner + "/" + repo, kind, number);
  }

  /** All results of a user, page after page. */
  function Flatten(pages: seq<seq<Issue>>): seq<Issue>
  {
    if |pages| == 0 then [] else pages[0] + Flatten(pages[1..])
  }

  /** The results of every user's query, users in the given order. */
  function UserIssues(search: string -> seq<seq<Issue>>, users: seq<string>, dateSign: string, date: string): seq<Issue>
  {
    if |users| == 0 then []
    else Flatten(search(Query(users[0], dateSign, date))) + UserIssues(search, users[1..], dateSign, date)
  }

  /** Appends the items of `rest` to `done` in order, stopping at the first result
      whose path has fewer than two segments. */
  function NormalizeFrom(done: seq<Item>, rest: seq<Issue>): Result<seq<Item>, FetchError>
    decreases |rest|
  {
    if |rest| == 0 then Success(done)
    else
      match ItemOf(rest[0])
      case Failure(e) => Failure(e)
      case Success(item) => NormalizeFrom(done + [item], rest[1..])
  }

  function Normalize(issues: seq<Issue>): Result<seq<Item>, FetchError>
  {
    NormalizeFrom([], issues)
  }

  /** Normalisation succeeds exactly when every result has an item, and then it appends
      the results' items in order; otherwise it reports the first result that has none. */
  lemma NormalizeFromMeaning(done: seq<Item>, rest: seq<Issue>)
    ensures var r := NormalizeFrom(done, rest);
      && (r.Success? <==> forall i :: 0 <= i < |rest| ==> ItemOf(rest[i]).Success?)
      && (r.Success? ==>
            |r.value| == |done| + |rest| && r.value[..|done|] == done
            && forall i :: 0 <= i < |rest| ==> ItemOf(rest[i]) == Success(r.value[|done| + i]))
      && (r.Failure? ==>
            exists i :: 0 <= i < |rest| && ItemOf(rest[i]) == Failure(r.error)
              && forall j :: 0 <= j < i ==> ItemOf(rest[j]).Success?)
  {
    NormalizeFromSuccess(done, rest);
    NormalizeFromFailure(done, rest);
  }

  lemma {:induction false} NormalizeFromSuccess(done: seq<Item>, rest: seq<Issue>)
    decreases |rest|
    ensures var r := NormalizeFrom(done, rest);
      r.Success? ==>
        && |r.value| == |done| + |rest| && r.value[..|done|] == done
        && forall i :: 0 <= i < |rest| ==> ItemOf(rest[i]) == Success(r.value[|done| + i])
  {
    if |rest| > 0 && ItemOf(rest[0]).Success? {
      var item, tail := ItemOf(rest[0]).value, rest[1..];
      var r := NormalizeFrom(done + [item], tail);
      assert NormalizeFrom(done, rest) == r;
      NormalizeFromSuccess(done + [item], tail);
      if r.Success? {
        var v := r.value;
        assert v[..|done|] == done by {
          assert v[..|done|] == v[..|done| + 1][..|done|];
        }
        forall i | 0 <= i < |rest| ensures ItemOf(rest[i]) == Success(v[|done| + i]) {
          if i == 0 {
            assert v[..|done| + 1][|done|] == item;
          } else {
            assert rest[i] == tail[i - 1];
          }
        }
      }
    }
  }

  lemma {:induction false} NormalizeFromFailure(done: seq<Item>, rest: seq<Issue>)
    decreases |rest|
    ensures var r := NormalizeFrom(done, rest);
      r.Failure? ==>
        exists i :: 0 <= i < |rest| && ItemOf(rest[i]) == Failure(r.error)
          && forall j :: 0 <= j < i ==> ItemOf(rest[j]).Success?
  {
    if |rest| > 0 {
      if ItemOf(rest[0]).Failure? {
        assert ItemOf(rest[0]) == Failure(NormalizeFrom(done, rest).error);
      } else {
        var item, tail := ItemOf(rest[0]).value, rest[1..];
        var r := NormalizeFrom(done + [item], tail);
        assert NormalizeFrom(done, rest) == r;
        NormalizeFromFailure(done + [item], tail);
        if r.Failure? {
          var k :| 0 <= k < |tail| && ItemOf(tail[k]) == Failure(r.error)
            && forall j :: 0 <= j < k ==> ItemOf(tail[j]).Success?;
          assert rest[k + 1] == tail[k];
          forall j | 0 <= j < k + 1 ensures ItemOf(rest[j]).Success? {
            if j > 0 {
              assert rest[j] == tail[j - 1];
            }
          }
        }
      }
    }
  }

  /** What `get_user_items` returns: the items of every user's results, or the
      failure of the first result it cannot normalise. */
  function FetchItems(search: string -> seq<seq<Issue>>, users: seq<string>, dateSign: string, date: string): Result<seq<Item>, FetchError>
  {
    Normalize(UserIssues(search, users, dateSign, date))
  }

  lemma FlattenAt(pages: seq<seq<Issue>>, p: nat)
    requires p < |pages|
    ensures Flatten(pages[p..]) == pages[p] + Flatten(pages[p + 1..])
  {
    assert pages[p..][1..] == pages[p + 1..];
  }

  lemma UserIssuesAt(search: string -> seq<seq<Issue>>, users: seq<string>, dateSign: string, date: string, u: nat)
    requires u < |users|
    ensures UserIssues(search, users[u..], dateSign, date)
      == Flatten(search(Query(users[u], dateSign, date))) + UserIssues(search, users[u + 1..], dateSign, date)
  {
    assert users[u..][1..] == users[u + 1..];
  }

  /** One result more: its item is appended, or normalisation stops at it. */
  lemma NormalizeFromStep(items: seq<Item>, rest: seq<Issue>, q: nat, after: seq<Issue>)
    requires q < |rest|
    ensures ItemOf(rest[q]).Failure? ==>
      NormalizeFrom(items, rest[q..] + after) == Failure(ItemOf(rest[q]).error)
    ensures ItemOf(rest[q]).Success? ==>
      NormalizeFrom(items, rest[q..] + after) == NormalizeFrom(items + [ItemOf(rest[q]).value], rest[q + 1..] + after)
  {
    assert (rest[q..] + after)[0] == rest[q];
    assert (rest[q..] + after)[1..] == rest[q + 1..] + after;
  }

  /** The body of `get_user_items`' innermost loop: the URL split at `/` with two
      pieces popped off, the path's first two segments, and the item they make. */
  method ItemFromIssue(issue: Issue) returns (r: Result<Item, FetchError>)
    ensures r == ItemOf(issue)
  {
    var url := issue.htmlUrl;
    var repositoryUrlParts := Split(url, '/');
    var pathParts := PathSegments(issue.htmlPath);
    if |repositoryUrlParts| > 0 {
      repositoryUrlParts := repositoryUrlParts[..|repositoryUrlParts| - 1];  // the number
    }
    if |repositoryUrlParts| > 0 {
      repositoryUrlParts := repositoryUrlParts[..|repositoryUrlParts| - 1];  // `pull`
    }
    if |pathParts| < 2 {
      return Failure(MissingPathSegment(url));
    }
    r := Success(Item(
      NatToString(issue.number),
      issue.title,
      url,
      pathParts[0] + "/" + pathParts[1],
      Join(repositoryUrlParts, "/"),
      issue.userLogin,
      issue.userUrl));
  }

  /** Normalising two runs of results one after the other. */
  lemma {:induction false} NormalizeFromAppend(items: seq<Item>, a: seq<Issue>, b: seq<Issue>)
    ensures NormalizeFrom(items, a + b) ==
      if NormalizeFrom(items, a).Failure? then NormalizeFrom(items, a)
      else NormalizeFrom(NormalizeFrom(items, a).value, b)
    decreases |a|
  {
    if |a| == 0 {
      assert a + b == b;
    } else {
      assert (a + b)[0] == a[0] && (a + b)[1..] == a[1..] + b;
      if ItemOf(a[0]).Success? {
        NormalizeFromAppend(items + [ItemOf(a[0]).value], a[1..], b);
      }
    }
  }

  /** One page more: its items are appended, or normalisation stops on it. */
  lemma PageStep(items: seq<Item>, pages: seq<seq<Issue>>, p: nat, later: seq<Issue>)
    requires p < |pages|
    ensures var r := NormalizeFrom(items, pages[p]);
      NormalizeFrom(items, Flatten(pages[p..]) + later)
        == if r.Failure? then r else NormalizeFrom(r.value, Flatten(pages[p + 1..]) + later)
  {
    FlattenAt(pages, p);
    assert Flatten(pages[p..]) + later == pages[p] + (Flatten(pages[p + 1..]) + later);
    NormalizeFromAppend(items, pages[p], Flatten(pages[p + 1..]) + later);
  }

  /** `for issue in &page`: the page's items appended to `items`, or the failure of
      its first result without one. */
  method AppendPage(items: seq<Item>, page: seq<Issue>) returns (r: Result<seq<Item>, FetchError>)
    ensures r == NormalizeFrom(items, page)
  {
    var collected := items;
    for q := 0 to |page|
      invariant NormalizeFrom(collected, page[q..]) == NormalizeFrom(items, page)
    {
      var issue := page[q];
      assert page[q..][0] == issue && page[q..][1..] == page[q + 1..];
      var next := ItemFromIssue(issue);
      match next
      case Failure(e) => {
        return Failure(e);
      }
      case Success(item) => {
        collected := collected + [item];
      }
    }
    r := Success(collected);
  }

  /** `get_user_items`: for each user in turn, every page of that user's search, every
      result on the page, pushed as an item. */
  method GetUserItems(search: string -> seq<seq<Issue>>, users: seq<string>, dateSign: string, date: string)
    returns (r: Result<seq<Item>, FetchError>)
    ensures r == FetchItems(search, users, dateSign, date)
  {
    ghost var goal := FetchItems(search, users, dateSign, date);
    var items: seq<Item> := [];
    for u := 0 to |users|
      invariant NormalizeFrom(items, UserIssues(search, users[u..], dateSign, date)) == goal
    {
      var pages := search(Query(users[u], dateSign, date));
      ghost var later := UserIssues(search, users[u + 1..], dateSign, date);
      UserIssuesAt(search, users, dateSign, date, u);
      for p := 0 to |pages|
        invariant NormalizeFrom(items, Flatten(pages[p..]) + later) == goal
      {
        PageStep(items, pages, p, later);
        var next := AppendPage(items, pages[p]);
        match next
        case Failure(e) => {
          return Failure(e);
        }
        case Success(more) => {
          items := more;
        }
      }
      assert Flatten(pages[|pages|..]) + later == later;
    }
    assert users[|users|..] == [];
    r := Success(items);
  }
}
