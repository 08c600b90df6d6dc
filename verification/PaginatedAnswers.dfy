/** What loads and answers that count do to a paginated list, up to a whole list loaded page by page. */
module PaginatedAnswers {
  import opened Wrappers
  import opened Paginated

  // ---------------------------------------------------------------- one load, one answer

  /** The latest request has no answer yet. */
  predicate Waiting<T>(s: State<T>) {
    s.latest.Some? && Outstanding(s, s.latest.value)
  }

  /**
   * A load is sent exactly when it replaces the list, or when more is left and no answer is waited for; it asks for the
   * first page or the next one, is the latest request from then on, and takes a shown failure away.
   */
  lemma LoadIsSent<T>(events: seq<Event<T>>, replacing: bool)
    ensures
      var s := Run(Initial<T>(), events);
      var t := Step(s, Load(replacing));
      if replacing || (|s.items| < s.total && !Waiting(s)) then
        && t.requests == s.requests + [Request(replacing, if replacing then 1 else s.page + 1, false, None)]
        && t.latest == Some(|s.requests|) && t.loading && t.failure == None
        && t.items == s.items && t.total == s.total && t.page == s.page
      else t == s
  {
    EveryRunKeepsInv(events);
  }

  /**
   * The answer to the latest request, if it was not cancelled, counts: a page replaces the items or is added to them, a
   * failure is shown and leaves them, a cancellation error leaves them too; and nothing is waited for any more.
   */
  lemma LatestAnswerCounts<T>(events: seq<Event<T>>, k: nat, outcome: Outcome<T>)
    requires
      var s := Run(Initial<T>(), events);
      s.latest == Some(k) && Outstanding(s, k) && !s.requests[k].cancelled
    ensures
      var s := Run(Initial<T>(), events);
      var t := Step(s, Answer(k, outcome));
      && !t.loading && t.latest == s.latest && t.requests == s.requests[k := s.requests[k].(answer := Some(outcome))]
      && (match outcome
          case Page(items, total) =>
            && t.items == (if s.requests[k].replacing then items else s.items + items)
            && t.total == total && t.page == (if s.requests[k].replacing then 1 else s.page + 1) && t.failure == None
          case Fails =>
            && t.items == s.items && t.total == s.total && t.page == s.page
            && t.failure == Some(k) && t.failedReplacement == s.requests[k].replacing
          case CancelError =>
            t.items == s.items && t.total == s.total && t.page == s.page && t.failure == None)
  {
    EveryRunKeepsInv(events);
    AnswerCounts(Run(Initial<T>(), events), k, outcome);
  }

  lemma AnswerCounts<T>(s: State<T>, k: nat, outcome: Outcome<T>)
    requires Inv(s) && s.latest == Some(k) && Outstanding(s, k) && !s.requests[k].cancelled
    ensures
      var t := Step(s, Answer(k, outcome));
      && !t.loading && t.latest == s.latest && t.requests == s.requests[k := s.requests[k].(answer := Some(outcome))]
      && (match outcome
          case Page(items, total) =>
            && t.items == (if s.requests[k].replacing then items else s.items + items)
            && t.total == total && t.page == (if s.requests[k].replacing then 1 else s.page + 1) && t.failure == None
          case Fails =>
            && t.items == s.items && t.total == s.total && t.page == s.page
            && t.failure == Some(k) && t.failedReplacement == s.requests[k].replacing
          case CancelError =>
            t.items == s.items && t.total == s.total && t.page == s.page && t.failure == None)
  {
  }

  /** An invalidation leaves an empty list with nothing waited for, from which a retry loads the first page anew. */
  lemma InvalidateStartsOver<T>(events: seq<Event<T>>)
    ensures
      var s := Run(Initial<T>(), events);
      var t := Step(s, Invalidate);
      && t.items == [] && t.total == 0 && t.page == 0 && !t.loading && t.failure == None && t.latest == None
      && Step(t, Retry).requests == s.requests + [Request(true, 1, false, None)]
      && Step(t, Load(false)) == t
  {
  }

  // ---------------------------------------------------------------- the total

  /** The total is the one the last committed page came with. */
  predicate TotalKnown<T>(s: State<T>) {
    if s.committed == [] then s.total == 0
    else
      var k := s.committed[|s.committed| - 1];
      && k < |s.requests| && s.requests[k].answer.Some? && s.requests[k].answer.value.Page?
      && s.requests[k].answer.value.total == s.total
  }

  lemma StepKeepsTotal<T>(s: State<T>, e: Event<T>)
    requires Inv(s) && TotalKnown(s)
    ensures TotalKnown(Step(s, e))
  {
    if s.committed != [] { assert s.requests[s.committed[|s.committed| - 1]].answer.Some?; }
  }

  lemma {:induction false} RunKeepsTotal<T>(s: State<T>, events: seq<Event<T>>)
    requires Inv(s) && TotalKnown(s)
    ensures TotalKnown(Run(s, events))
    decreases |events|
  {
    if events != [] {
      StepKeepsTotal(s, events[0]);
      StepKeepsInv(s, events[0]);
      RunKeepsTotal(Step(s, events[0]), events[1..]);
    }
  }

  /** In every run the total is that of the last committed page, and zero before the first. */
  lemma TotalIsTheLastAnswers<T>(events: seq<Event<T>>)
    ensures TotalKnown(Run(Initial<T>(), events))
  {
    InitialInv<T>();
    RunKeepsTotal(Initial<T>(), events);
  }

  // ---------------------------------------------------------------- a whole list

  function Flat<T>(pages: seq<seq<T>>): seq<T> {
    if pages == [] then [] else Flat(pages[..|pages| - 1]) + pages[|pages| - 1]
  }

  /** Load after load from page `k` on, each answered by its page; requests are numbered from `n`. */
  function Fetches<T>(pages: seq<seq<T>>, total: int, n: nat, k: nat): seq<Event<T>>
    requires k <= |pages|
    decreases |pages| - k
  {
    if k == |pages| then []
    else [Load(k == 0), Answer(n + k, Page(pages[k], total))] + Fetches(pages, total, n, k + 1)
  }

  /** The first `k` pages are there, and nothing is under way. */
  ghost predicate Holds<T>(s: State<T>, pages: seq<seq<T>>, total: int, n: nat, k: nat)
    requires k <= |pages|
  {
    |s.requests| == n + k && (k > 0 ==> s.items == Flat(pages[..k]) && s.total == total && !s.loading && s.page == k)
  }

  /** Every page but the first has something on it. */
  ghost predicate NoEmptyPage<T>(pages: seq<seq<T>>) {
    forall k :: 0 < k < |pages| ==> pages[k] != []
  }

  lemma {:induction false} LaterPagesAdd<T>(pages: seq<seq<T>>, k: nat)
    requires NoEmptyPage(pages) && 0 < k <= |pages|
    ensures k < |pages| ==> |Flat(pages[..k])| < |Flat(pages)|
    ensures |Flat(pages[..k])| <= |Flat(pages)|
    decreases |pages| - k
  {
    if k < |pages| {
      LaterPagesAdd(pages, k + 1);
      assert pages[..k + 1][..k] == pages[..k];
    } else {
      assert pages[..k] == pages;
    }
  }

  /** The load of page `k` is sent. */
  lemma PageIsAsked<T>(s: State<T>, pages: seq<seq<T>>, n: nat, k: nat)
    requires Inv(s) && NoEmptyPage(pages) && k < |pages| && Holds(s, pages, |Flat(pages)|, n, k)
    ensures
      var u := Step(s, Load(k == 0));
      && Inv(u) && u.latest == Some(n + k) && Outstanding(u, n + k) && |u.requests| == n + k + 1
      && !u.requests[n + k].cancelled && u.requests[n + k].replacing == (k == 0)
      && u.items == s.items && u.page == s.page
  {
    if k > 0 { LaterPagesAdd(pages, k); }
    StepKeepsInv(s, Load(k == 0));
  }

  lemma OnePageMore<T>(pages: seq<seq<T>>, k: nat)
    requires k < |pages|
    ensures Flat(pages[..k + 1]) == Flat(pages[..k]) + pages[k] && (k == 0 ==> Flat(pages[..1]) == pages[0])
  {
    assert pages[..k + 1][..k] == pages[..k];
    if k == 0 { assert Flat(pages[..0]) == [] && [] + pages[0] == pages[0]; }
  }

  lemma FetchOne<T>(s: State<T>, pages: seq<seq<T>>, n: nat, k: nat)
    requires Inv(s) && NoEmptyPage(pages) && k < |pages| && Holds(s, pages, |Flat(pages)|, n, k)
    ensures
      var t := Step(Step(s, Load(k == 0)), Answer(n + k, Page(pages[k], |Flat(pages)|)));
      Inv(t) && Holds(t, pages, |Flat(pages)|, n, k + 1)
  {
    var u := Step(s, Load(k == 0));
    PageIsAsked(s, pages, n, k);
    OnePageMore(pages, k);
    PageArrives(s, u, pages, n, k);
  }

  lemma PageArrives<T>(s: State<T>, u: State<T>, pages: seq<seq<T>>, n: nat, k: nat)
    requires k < |pages| && Holds(s, pages, |Flat(pages)|, n, k)
    requires Inv(u) && u.latest == Some(n + k) && Outstanding(u, n + k) && |u.requests| == n + k + 1
    requires !u.requests[n + k].cancelled && u.requests[n + k].replacing == (k == 0)
    requires u.items == s.items && u.page == s.page
    requires Flat(pages[..k + 1]) == if k == 0 then pages[0] else Flat(pages[..k]) + pages[k]
    ensures
      var t := Step(u, Answer(n + k, Page(pages[k], |Flat(pages)|)));
      Inv(t) && Holds(t, pages, |Flat(pages)|, n, k + 1)
  {
    StepKeepsInv(u, Answer(n + k, Page(pages[k], |Flat(pages)|)));
    AnswerCounts(u, n + k, Page(pages[k], |Flat(pages)|));
  }

  lemma {:induction false} FetchRest<T>(s: State<T>, pages: seq<seq<T>>, n: nat, k: nat)
    requires Inv(s) && NoEmptyPage(pages) && k <= |pages| && Holds(s, pages, |Flat(pages)|, n, k)
    ensures Holds(Run(s, Fetches(pages, |Flat(pages)|, n, k)), pages, |Flat(pages)|, n, |pages|)
    decreases |pages| - k
  {
    if k < |pages| {
      var total := |Flat(pages)|;
      var a: Event<T>, b := Load(k == 0), Answer(n + k, Page(pages[k], total));
      var rest := Fetches(pages, total, n, k + 1);
      FetchOne(s, pages, n, k);
      FetchRest(Step(Step(s, a), b), pages, n, k + 1);
      assert ([a, b] + rest)[1..] == [b] + rest && ([b] + rest)[1..] == rest;
    }
  }

  /**
   * From any state a list is loaded whole: a replacing load and then load after load, each answered by its page, give
   * all items in order, and then there is no more to load.
   */
  lemma WholeListLoads<T>(events: seq<Event<T>>, pages: seq<seq<T>>)
    requires pages != [] && NoEmptyPage(pages)
    ensures
      var s := Run(Initial<T>(), events);
      var t := Run(s, Fetches(pages, |Flat(pages)|, |s.requests|, 0));
      && t.items == Flat(pages) && t.page == |pages| && !t.loading
      && Step(t, Load(false)) == t
  {
    var s := Run(Initial<T>(), events);
    EveryRunKeepsInv(events);
    FetchRest(s, pages, |s.requests|, 0);
    assert pages[..|pages|] == pages;
  }
}
