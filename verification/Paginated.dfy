/**
 * A list loaded page by page: only the answer to the latest request is committed. Loads, retries, invalidations,
 * cancellations and answers may come in any order; an event that cannot happen in a state leaves it unchanged.
 */
module Paginated {
  import opened Wrappers

  /** What a fetch comes to. */
  datatype Outcome<T> = Page(items: seq<T>, total: int) | Fails | CancelError

  /** A load: the page it asked for, and its answer once it has ended. */
  datatype Request<T> = Request(replacing: bool, page: nat, cancelled: bool, answer: Option<Outcome<T>>)

  /** A request is named by its position; `latest` is none when the last name was given by an invalidation. */
  datatype State<T> = State(
    items: seq<T>, total: int, page: nat, loading: bool, failure: Option<nat>, latest: Option<nat>,
    failedReplacement: bool, requests: seq<Request<T>>, committed: seq<nat>)

  function Initial<T>(): State<T> {
    State([], 0, 0, false, None, None, true, [], [])
  }

  datatype Event<T> =
    | Invalidate
    | Retry
    | Load(replacing: bool)
    | Cancel(request: nat)
    | Answer(request: nat, outcome: Outcome<T>)

  predicate HasMore<T>(s: State<T>) {
    |s.items| < s.total
  }

  function Invalidated<T>(s: State<T>): State<T> {
    s.(items := [], total := 0, page := 0, loading := false, failure := None, latest := None, failedReplacement := true,
       committed := [])
  }

  function Loaded<T>(s: State<T>, replacing: bool): State<T> {
    if !replacing && (!HasMore(s) || s.loading) then s
    else
      var request := Request(replacing, if replacing then 1 else s.page + 1, false, None);
      s.(latest := Some(|s.requests|), loading := true, failure := None, requests := s.requests + [request])
  }

  function Retried<T>(s: State<T>): State<T> {
    if s.loading then s else Loaded(s, s.failedReplacement)
  }

  /** The fetch of request `k` has ended; if it was the latest, nothing is loading any more. */
  function Ended<T>(s: State<T>, k: nat, outcome: Outcome<T>): State<T>
    requires k < |s.requests|
  {
    s.(requests := s.requests[k := s.requests[k].(answer := Some(outcome))],
       loading := s.latest != Some(k) && s.loading)
  }

  function Committed<T>(s: State<T>, k: nat, items: seq<T>, total: int): State<T>
    requires k < |s.requests|
  {
    var r := s.requests[k];
    s.(items := if r.replacing then items else s.items + items, total := total, page := r.page,
       committed := if r.replacing then [k] else s.committed + [k])
  }

  function Failed<T>(s: State<T>, k: nat): State<T>
    requires k < |s.requests|
  {
    s.(failedReplacement := s.requests[k].replacing, failure := Some(k))
  }

  /** Only the latest request, if it was not cancelled, has an effect on the list. */
  function Answered<T>(s: State<T>, k: nat, outcome: Outcome<T>): State<T>
    requires k < |s.requests|
  {
    var t := Ended(s, k, outcome);
    if s.latest != Some(k) || s.requests[k].cancelled then t
    else
      match outcome
      case Page(items, total) => Committed(t, k, items, total)
      case Fails => Failed(t, k)
      case CancelError => t
  }

  function Step<T>(s: State<T>, e: Event<T>): State<T> {
    match e
    case Invalidate => Invalidated(s)
    case Retry => Retried(s)
    case Load(replacing) => Loaded(s, replacing)
    case Cancel(k) => if k < |s.requests| then s.(requests := s.requests[k := s.requests[k].(cancelled := true)]) else s
    case Answer(k, outcome) => if k < |s.requests| && s.requests[k].answer == None then Answered(s, k, outcome) else s
  }

  function Run<T>(s: State<T>, events: seq<Event<T>>): State<T>
    decreases |events|
  {
    if events == [] then s else Run(Step(s, events[0]), events[1..])
  }

  // ---------------------------------------------------------------- what every run keeps

  /** The pages of these requests, one after the other. */
  function Joined<T>(requests: seq<Request<T>>, committed: seq<nat>): seq<T> {
    if committed == [] then []
    else
      var k := committed[|committed| - 1];
      Joined(requests, committed[..|committed| - 1])
      + (if k < |requests| && requests[k].answer.Some? && requests[k].answer.value.Page?
          then requests[k].answer.value.items else [])
  }

  /** Position `i` holds the answer to a request for page `i + 1`, and only page 1 was asked for as a replacement. */
  predicate Commits<T>(requests: seq<Request<T>>, committed: seq<nat>) {
    forall i :: 0 <= i < |committed| ==>
      && committed[i] < |requests| && requests[committed[i]].page == i + 1
          && (i > 0 ==> !requests[committed[i]].replacing)
      && requests[committed[i]].answer.Some? && requests[committed[i]].answer.value.Page?
  }

  /** Later pages come from later requests. */
  predicate Rising(committed: seq<nat>) {
    forall i, j :: 0 <= i < j < |committed| ==> committed[i] < committed[j]
  }

  predicate Outstanding<T>(s: State<T>, k: nat) {
    k < |s.requests| && s.requests[k].answer == None
  }

  /** What a request would be for, asked now. */
  predicate AsksNext<T>(s: State<T>, r: Request<T>) {
    (r.replacing ==> r.page == 1) && (!r.replacing ==> r.page == s.page + 1 && HasMore(s))
  }

  ghost predicate Inv<T>(s: State<T>) {
    && s.page == |s.committed| && Commits(s.requests, s.committed) && Rising(s.committed)
    && s.items == Joined(s.requests, s.committed)
    && (s.loading <==> s.latest.Some? && Outstanding(s, s.latest.value))
    && (s.latest.Some? ==> s.latest.value == |s.requests| - 1)
    && (s.loading ==> AsksNext(s, s.requests[s.latest.value]) && s.failure == None)
    && (s.failure.Some? ==>
          s.latest == s.failure && AsksNext(s, s.requests[s.failure.value])
          && s.failedReplacement == s.requests[s.failure.value].replacing)
  }

  lemma {:induction false} JoinedSame<T>(a: seq<Request<T>>, b: seq<Request<T>>, committed: seq<nat>)
    requires Commits(a, committed) && |a| <= |b|
    requires forall i :: 0 <= i < |a| && a[i].answer.Some? ==>
        b[i].answer == a[i].answer && b[i].page == a[i].page && b[i].replacing == a[i].replacing
    ensures Commits(b, committed) && Joined(b, committed) == Joined(a, committed)
  {
    if committed != [] { JoinedSame(a, b, committed[..|committed| - 1]); }
  }

  lemma LoadKeepsInv<T>(s: State<T>, replacing: bool)
    requires Inv(s)
    ensures Inv(Loaded(s, replacing))
  {
    JoinedSame(s.requests, Loaded(s, replacing).requests, s.committed);
  }

  /** One more committed page: the only one for a replacement, else the next. */
  lemma CommitJoins<T>(s: State<T>, requests: seq<Request<T>>, k: nat, page: seq<T>, total: int)
    requires Commits(requests, s.committed) && Rising(s.committed) && s.page == |s.committed|
    requires s.items == Joined(requests, s.committed)
    requires k < |requests| && requests[k].answer == Some(Page(page, total))
    requires forall i :: 0 <= i < |s.committed| ==> s.committed[i] < k
    requires if requests[k].replacing then requests[k].page == 1 else requests[k].page == s.page + 1
    ensures
      var r := requests[k];
      var committed := if r.replacing then [k] else s.committed + [k];
      && Commits(requests, committed) && Rising(committed) && r.page == |committed|
      && (if r.replacing then page else s.items + page) == Joined(requests, committed)
  {
    var before := if requests[k].replacing then [] else s.committed;
    assert Joined(requests, []) == [];
    JoinedOneMore(requests, before, k, page, total);
    CommitsOneMore(requests, before, k);
  }

  lemma JoinedOneMore<T>(requests: seq<Request<T>>, before: seq<nat>, k: nat, page: seq<T>, total: int)
    requires k < |requests| && requests[k].answer == Some(Page(page, total))
    ensures Joined(requests, before + [k]) == Joined(requests, before) + page
  {
    assert (before + [k])[..|before|] == before;
  }

  lemma CommitsOneMore<T>(requests: seq<Request<T>>, before: seq<nat>, k: nat)
    requires Commits(requests, before) && Rising(before) && forall i :: 0 <= i < |before| ==> before[i] < k
    requires k < |requests| && requests[k].answer.Some? && requests[k].answer.value.Page?
    requires requests[k].page == |before| + 1 && (before != [] ==> !requests[k].replacing)
    ensures Commits(requests, before + [k]) && Rising(before + [k])
  {
  }

  lemma EndKeepsInv<T>(s: State<T>, k: nat, outcome: Outcome<T>)
    requires Inv(s) && Outstanding(s, k)
    ensures Inv(Ended(s, k, outcome))
  {
    JoinedSame(s.requests, Ended(s, k, outcome).requests, s.committed);
  }

  /** Requests that were committed came before the latest. */
  lemma CommittedBefore<T>(s: State<T>, k: nat)
    requires Inv(s) && Outstanding(s, k) && s.latest == Some(k)
    ensures forall i :: 0 <= i < |s.committed| ==> s.committed[i] < k
  {
    forall i | 0 <= i < |s.committed| ensures s.committed[i] < k { assert s.requests[s.committed[i]].answer.Some?; }
  }

  /** Committing the page of the ended latest request. */
  lemma EndedCommit<T>(t: State<T>, k: nat, items: seq<T>, total: int)
    requires Inv(t) && t.latest == Some(k) && k < |t.requests| && t.failure == None && !t.loading
    requires t.requests[k].answer == Some(Page(items, total))
    requires if t.requests[k].replacing then t.requests[k].page == 1 else t.requests[k].page == t.page + 1
    requires forall i :: 0 <= i < |t.committed| ==> t.committed[i] < k
    ensures Inv(Committed(t, k, items, total))
  {
    var u := Committed(t, k, items, total);
    CommitJoins(t, t.requests, k, items, total);
    assert u.page == |u.committed| && u.items == Joined(u.requests, u.committed);
    assert !u.loading && u.failure == None;
  }

  lemma CommitKeepsInv<T>(s: State<T>, k: nat, items: seq<T>, total: int)
    requires Inv(s) && Outstanding(s, k) && s.latest == Some(k)
    ensures Inv(Committed(Ended(s, k, Page(items, total)), k, items, total))
  {
    EndKeepsInv(s, k, Page(items, total));
    CommittedBefore(s, k);
    assert AsksNext(s, s.requests[k]);
    EndedCommit(Ended(s, k, Page(items, total)), k, items, total);
  }

  lemma FailKeepsInv<T>(s: State<T>, k: nat)
    requires Inv(s) && Outstanding(s, k) && s.latest == Some(k)
    ensures Inv(Failed(Ended(s, k, Fails), k))
  {
    EndKeepsInv(s, k, Fails);
  }

  lemma AnswerKeepsInv<T>(s: State<T>, k: nat, outcome: Outcome<T>)
    requires Inv(s) && Outstanding(s, k)
    ensures Inv(Answered(s, k, outcome))
  {
    if s.latest != Some(k) || s.requests[k].cancelled || outcome.CancelError? {
      EndKeepsInv(s, k, outcome);
    } else if outcome.Fails? {
      FailKeepsInv(s, k);
    } else {
      CommitKeepsInv(s, k, outcome.items, outcome.total);
    }
  }

  lemma StepKeepsInv<T>(s: State<T>, e: Event<T>)
    requires Inv(s)
    ensures Inv(Step(s, e))
  {
    match e
    case Invalidate =>
    case Retry => LoadKeepsInv(s, s.failedReplacement);
    case Load(replacing) => LoadKeepsInv(s, replacing);
    case Cancel(k) => JoinedSame(s.requests, Step(s, e).requests, s.committed);
    case Answer(k, outcome) => if Outstanding(s, k) { AnswerKeepsInv(s, k, outcome); }
  }

  lemma {:induction false} RunKeepsInv<T>(s: State<T>, events: seq<Event<T>>)
    requires Inv(s)
    ensures Inv(Run(s, events))
    decreases |events|
  {
    if events != [] {
      StepKeepsInv(s, events[0]);
      RunKeepsInv(Step(s, events[0]), events[1..]);
    }
  }

  lemma InitialInv<T>()
    ensures Inv(Initial<T>())
  {
    assert Joined<T>([], []) == [];
  }

  lemma EveryRunKeepsInv<T>(events: seq<Event<T>>)
    ensures Inv(Run(Initial<T>(), events))
  {
    InitialInv<T>();
    RunKeepsInv(Initial<T>(), events);
  }

  /**
   * In every run the list is, in order, the committed answers to requests for pages 1 to `page`, each made later than
   * the one before; and `loading` holds exactly while the latest request is outstanding.
   */
  lemma ItemsAreTheCommittedPages<T>(events: seq<Event<T>>)
    ensures
      var s := Run(Initial<T>(), events);
      && s.page == |s.committed| && Commits(s.requests, s.committed) && Rising(s.committed)
      && s.items == Joined(s.requests, s.committed)
      && (s.loading <==> s.latest.Some? && Outstanding(s, s.latest.value))
  {
    EveryRunKeepsInv(events);
  }

  /** A request that was replaced, invalidated or cancelled. */
  predicate Stale<T>(s: State<T>, k: nat) {
    k < |s.requests| && (s.latest != Some(k) || s.requests[k].cancelled)
  }

  /** Neither loads nor cancellations nor answers bring a stale request back, and a replaced one stays replaced. */
  lemma {:induction false} StaleStays<T>(s: State<T>, events: seq<Event<T>>, k: nat)
    requires Stale(s, k)
    ensures Stale(Run(s, events), k) && (s.latest != Some(k) ==> Run(s, events).latest != Some(k))
    decreases |events|
  {
    if events != [] { StaleStays(Step(s, events[0]), events[1..], k); }
  }

  /**
   * Once a request was replaced, invalidated or cancelled, its answer leaves the list as it is, whatever happens first;
   * and unless it was only cancelled, `loading` too.
   */
  lemma StaleAnswerChangesNothing<T>(s: State<T>, later: seq<Event<T>>, k: nat, outcome: Outcome<T>)
    requires Stale(s, k)
    ensures
      var m := Run(s, later);
      var t := Step(m, Answer(k, outcome));
      && t.items == m.items && t.total == m.total && t.page == m.page && t.committed == m.committed
      && t.failure == m.failure && t.failedReplacement == m.failedReplacement && t.latest == m.latest
      && (s.latest != Some(k) ==> t.loading == m.loading)
  {
    StaleStays(s, later, k);
  }

  /** After a shown failure, a retry asks again for what failed: the same page, in the same way. */
  lemma RetryAsksAgain<T>(s: State<T>)
    requires Inv(s) && s.failure.Some?
    ensures s.failure.value < |s.requests|
    ensures
      var failed := s.requests[s.failure.value];
      var t := Step(s, Retry);
      t.loading && t.requests == s.requests + [Request(failed.replacing, failed.page, false, None)]
  {
  }

  lemma RetryRepeatsWhatFailed<T>(events: seq<Event<T>>)
    requires Run(Initial<T>(), events).failure.Some?
    ensures
      var s := Run(Initial<T>(), events);
      && s.failure.value < |s.requests|
      && var failed := s.requests[s.failure.value];
         Step(s, Retry).requests == s.requests + [Request(failed.replacing, failed.page, false, None)]
  {
    EveryRunKeepsInv(events);
    RetryAsksAgain(Run(Initial<T>(), events));
  }

  // ---------------------------------------------------------------- the list in place

  class List<T> {
    var items: seq<T>
    var total: int
    var page: nat
    var loading: bool
    var failure: Option<nat>
    var latest: Option<nat>
    var failedReplacement: bool
    var requests: seq<Request<T>>
    ghost var committed: seq<nat>

    ghost function Now(): State<T>
      reads this
    {
      State(items, total, page, loading, failure, latest, failedReplacement, requests, committed)
    }

    ghost predicate Valid()
      reads this
    {
      Inv(Now())
    }

    constructor ()
      ensures Valid() && Now() == Initial<T>()
    {
      items, total, page, loading, failure, latest := [], 0, 0, false, None, None;
      failedReplacement, requests, committed := true, [], [];
      new;
      assert Now() == Initial<T>();
      InitialInv<T>();
    }

    method InvalidateList()
      requires Valid()
      modifies this
      ensures Valid() && Now() == Step(old(Now()), Invalidate)
    {
      latest := None;
      items, total, page, loading, failure, failedReplacement, committed := [], 0, 0, false, None, true, [];
    }

    /** A load up to its fetch; the request it sends, if any. */
    method BeginLoad(replacing: bool) returns (sent: Option<nat>)
      requires Valid()
      modifies this
      ensures Valid() && Now() == Step(old(Now()), Load(replacing))
      ensures sent == if old(replacing || (HasMore(Now()) && !loading)) then Some(old(|requests|)) else None
    {
      LoadKeepsInv(Now(), replacing);
      if !(replacing || (|items| < total && !loading)) { return None; }
      var requestedPage := if replacing then 1 else page + 1;
      sent := Some(|requests|);
      latest := sent;
      requests := requests + [Request(replacing, requestedPage, false, None)];
      loading := true;
      failure := None;
    }

    method BeginRetry() returns (sent: Option<nat>)
      requires Valid()
      modifies this
      ensures Valid() && Now() == Step(old(Now()), Retry)
    {
      if loading { return None; }
      sent := BeginLoad(failedReplacement);
    }

    method End(k: nat, outcome: Outcome<T>)
      requires k < |requests|
      modifies this`requests, this`loading
      ensures Now() == Ended(old(Now()), k, outcome)
    {
      requests := requests[k := requests[k].(answer := Some(outcome))];
      if latest == Some(k) { loading := false; }
    }

    method Commit(k: nat, newItems: seq<T>, newTotal: int)
      requires k < |requests|
      modifies this`items, this`total, this`page, this`committed
      ensures Now() == Committed(old(Now()), k, newItems, newTotal)
    {
      items := if requests[k].replacing then newItems else items + newItems;
      total := newTotal;
      page := requests[k].page;
      committed := if requests[k].replacing then [k] else committed + [k];
    }

    /** The rest of a load, once its fetch has ended. */
    method EndLoad(k: nat, outcome: Outcome<T>)
      requires Valid() && Outstanding(Now(), k)
      modifies this
      ensures Valid() && Now() == Step(old(Now()), Answer(k, outcome))
    {
      AnswerKeepsInv(Now(), k, outcome);
      End(k, outcome);
      if latest != Some(k) || requests[k].cancelled { return; }
      match outcome {
        case Page(newItems, newTotal) => Commit(k, newItems, newTotal);
        case Fails => failedReplacement, failure := requests[k].replacing, Some(k);
        case CancelError =>
      }
    }
  }
}
