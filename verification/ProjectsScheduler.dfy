/**
 * The GitHub refresh scheduler (src/projects/projects_service.cpp): a request queue with at most four requests in
 * flight, callbacks that feed it, and the fan-out and fan-in of a refresh. The network delivers one event at a time.
 */
module ProjectsScheduler {
  import opened Wrappers
  import opened Ordering
  import opened ProjectRows

  const MAXIMUM_CONCURRENT_REQUESTS := 4
  const PAGE_SIZE := 100

  /** Which callbacks a request carries, and what they captured. */
  datatype Purpose =
    | Repositories(page: nat, found: seq<Repository>)
    | PrivateRepositories(page: nat, found: seq<Repository>)
    | Runs(index: nat, repository: Repository)
    | Runners(key: seq<int>)
    | Jobs(key: seq<int>, runId: int)
    | Artifacts(key: seq<int>, runId: int)

  /** `serial` counts all requests ever made; it tells equal-looking requests apart. */
  datatype Request = Request(serial: nat, purpose: Purpose)

  /**
   * What the callbacks make of a reply. `Failed` covers network errors, HTTP errors, bodies over 4 MiB and malformed
   * JSON; the other kinds say whether the document passed validation and what was read from it.
   */
  datatype Reply =
    | RepositoryPage(valid: bool, size: nat, listed: seq<Repository>)
    | RunsPage(valid: bool, latest: Option<Run>)
    | Details(valid: bool, details: map<string, string>)
    | RunnersPage
    | Failed(error: string)

  predicate Fits(p: Purpose, reply: Reply) {
    match p
    case Repositories(_, _) => reply.RepositoryPage? || reply.Failed?
    case PrivateRepositories(_, _) => reply.RepositoryPage? || reply.Failed?
    case Runs(_, _) => reply.RunsPage? || reply.Failed?
    case Runners(_) => reply.RunnersPage? || reply.Failed?
    case Jobs(_, _) => reply.Details? || reply.Failed?
    case Artifacts(_, _) => reply.Details? || reply.Failed?
  }

  predicate IsRefresh(p: Purpose) {
    p.Repositories? || p.PrivateRepositories? || p.Runs?
  }

  datatype Status = Loading | Ready | Empty | Error

  // --- The queue ------------------------------------------------------------

  /** Everything that ever happened to requests, in order. */
  datatype History = History(
    enqueued: seq<Request>, started: seq<Request>, completed: seq<Request>, inFlight: set<Request>)

  ghost function Outstanding(requests: seq<Request>, h: History): set<Request> {
    h.inFlight + set r | r in requests
  }

  /** First in, first out; each started request is either in flight or has had its one callback. */
  ghost predicate QueueSafe(requests: seq<Request>, active: nat, h: History) {
    && h.enqueued == h.started + requests
    && (forall i :: 0 <= i < |h.enqueued| ==> h.enqueued[i].serial == i)
    && |h.inFlight| == active <= MAXIMUM_CONCURRENT_REQUESTS
    && (forall r :: r in h.inFlight <==> r in h.started && r !in h.completed)
    && (forall r :: r in h.completed ==> r in h.started)
    && (forall i, j :: 0 <= i < j < |h.completed| ==> h.completed[i] != h.completed[j])
  }

  /** Nothing waits while there is room. */
  ghost predicate Saturated(requests: seq<Request>, active: nat) {
    requests == [] || active == MAXIMUM_CONCURRENT_REQUESTS
  }

  lemma InFlightIsNotQueued(requests: seq<Request>, active: nat, h: History, r: Request)
    requires QueueSafe(requests, active, h) && r in h.started
    ensures r !in requests && r.serial < |h.enqueued|
  {
    var i :| 0 <= i < |h.started| && h.started[i] == r;
    assert h.enqueued[i] == r;
    forall q | q in requests ensures q.serial >= |h.started| {
      var j :| 0 <= j < |requests| && requests[j] == q;
      assert h.enqueued[|h.started| + j] == q;
    }
  }

  /** When nothing is in flight any more, every request ever made has had exactly one callback. */
  lemma QuiescentMeansAnswered(requests: seq<Request>, h: History)
    requires QueueSafe(requests, 0, h) && Saturated(requests, 0)
    ensures requests == [] && multiset(h.completed) == multiset(h.enqueued)
  {
    assert h.enqueued == h.started;
    forall r ensures multiset(h.completed)[r] == multiset(h.enqueued)[r] {
      assert r in h.started <==> r in h.completed;
      DistinctCount(h.completed, r);
      DistinctCount(h.enqueued, r);
    }
  }

  lemma {:induction false} DistinctCount(s: seq<Request>, r: Request)
    requires forall i, j :: 0 <= i < j < |s| ==> s[i] != s[j]
    ensures multiset(s)[r] == if r in s then 1 else 0
  {
    if s != [] {
      DistinctCount(s[1..], r);
      assert s == [s[0]] + s[1..];
    }
  }

  // --- The refresh ----------------------------------------------------------

  /** How far the current refresh has come. */
  datatype Stage =
    | Idle
    | Discovering(request: Request)
    | LoadingRuns(repositories: seq<Repository>, arrivals: seq<Arrival>)

  ghost predicate NoRefresh(outstanding: set<Request>) {
    forall r :: r in outstanding ==> !IsRefresh(r.purpose)
  }

  /** The outstanding refresh requests are one runs request for each of the first `n` repositories not yet answered. */
  ghost predicate WaitingFor(outstanding: set<Request>, repositories: seq<Repository>, n: nat, answered: set<nat>) {
    && (forall r :: r in outstanding && IsRefresh(r.purpose) ==> Awaited(r.purpose, repositories, n, answered))
    && (forall k: nat :: k < n && k !in answered ==> HasRequest(outstanding, k))
    && (forall r, s :: r in outstanding && s in outstanding && SameIndex(r.purpose, s.purpose) ==> r == s)
  }

  predicate Awaited(p: Purpose, repositories: seq<Repository>, n: nat, answered: set<nat>) {
    p.Runs? && p.index < n && p.index !in answered && p.index < |repositories| && p.repository == repositories[p.index]
  }

  ghost predicate HasRequest(outstanding: set<Request>, k: nat) {
    exists r :: r in outstanding && r.purpose.Runs? && r.purpose.index == k
  }

  predicate SameIndex(p: Purpose, q: Purpose) {
    p.Runs? && q.Runs? && p.index == q.index
  }

  ghost function Answered(arrivals: seq<Arrival>): set<nat> {
    set a | a in arrivals :: a.index
  }

  /** Replies to requests for different repositories of the list. */
  ghost predicate ArrivalsOk(repositories: seq<Repository>, arrivals: seq<Arrival>) {
    && (forall i :: 0 <= i < |arrivals| ==>
          arrivals[i].index < |repositories| && arrivals[i].repository == repositories[arrivals[i].index])
    && (forall i, j :: 0 <= i < j < |arrivals| ==> arrivals[i].index != arrivals[j].index)
  }

  predicate AllValid(arrivals: seq<Arrival>) {
    forall a :: a in arrivals ==> IsValid(a.answer)
  }

  ghost predicate StageOk(stage: Stage, state: Status, pending: int, rows: seq<Row>, failed: bool,
                          outstanding: set<Request>)
  {
    match stage
    case Idle => NoRefresh(outstanding)
    case Discovering(request) =>
      && state == Loading
      && request in outstanding && (request.purpose.Repositories? || request.purpose.PrivateRepositories?)
      && forall r :: r in outstanding && IsRefresh(r.purpose) ==> r == request
    case LoadingRuns(repositories, arrivals) =>
      && state == Loading
      && 0 < pending == |repositories| - |arrivals|
      && rows == Collected(arrivals) && failed == !AllValid(arrivals)
      && ArrivalsOk(repositories, arrivals)
      && WaitingFor(outstanding, repositories, |repositories|, Answered(arrivals))
  }

  /** As many different answered indices below n as there are leave nothing to wait for. */
  lemma AllAnswered(repositories: seq<Repository>, arrivals: seq<Arrival>)
    requires ArrivalsOk(repositories, arrivals)
    ensures |Answered(arrivals)| == |arrivals|
    ensures |arrivals| == |repositories| ==> forall k: nat :: k < |repositories| ==> k in Answered(arrivals)
  {
    AnsweredCount(repositories, arrivals);
    var answered := Answered(arrivals);
    if |arrivals| == |repositories| {
      forall k: nat | k < |repositories| ensures k in answered {
        if k !in answered {
          BoundedCount(answered + {k}, |repositories|);
        }
      }
    }
  }

  lemma {:induction false} AnsweredCount(repositories: seq<Repository>, arrivals: seq<Arrival>)
    requires ArrivalsOk(repositories, arrivals)
    ensures |Answered(arrivals)| == |arrivals|
    ensures forall k :: k in Answered(arrivals) ==> k < |repositories|
  {
    if arrivals != [] {
      var front, last := arrivals[..|arrivals| - 1], arrivals[|arrivals| - 1];
      AnsweredCount(repositories, front);
      assert Answered(arrivals) == Answered(front) + {last.index};
      assert last.index !in Answered(front);
    }
  }

  lemma {:induction false} BoundedCount(s: set<nat>, n: nat)
    requires forall k :: k in s ==> k < n
    ensures |s| <= n
  {
    if n == 0 {
      assert s == {};
    } else {
      BoundedCount(s - {n - 1}, n - 1);
    }
  }

  // --- The service ----------------------------------------------------------

  /** The same repositories with the same latest runs; only loaded details may differ. */
  predicate SameRows(a: seq<Row>, b: seq<Row>) {
    |a| == |b| && forall i :: 0 <= i < |a| ==> a[i].repository == b[i].repository && a[i].latest == b[i].latest
  }

  function AnswerOf(reply: Reply): Answer
    requires reply.RunsPage? || reply.Failed?
  {
    match reply
    case RunsPage(valid, latest) => RunList(valid, latest)
    case Failed(error) => Failure(error)
  }

  // --- What a reply to a repository page leads to -----------------------------------

  /** How far a refresh has come, and what is published. */
  datatype Screen = Screen(
    stage: Stage, state: Status, stale: bool, projects: seq<Row>, selectedIndex: int, selectedKey: seq<int>)

  predicate SameModel(before: Screen, after: Screen) {
    after.projects == before.projects && after.selectedIndex == before.selectedIndex
    && after.selectedKey == before.selectedKey
  }

  /** The refresh has failed: the rows stay, and are stale if there are any. */
  predicate Fails(before: Screen, after: Screen) {
    after.stage == Idle && SameModel(before, after)
    && after.stale == (before.projects != []) && after.state == if after.stale then Ready else Error
  }

  predicate Discovers(stage: Stage, purpose: Purpose) {
    stage.Discovering? && stage.request.purpose == purpose
  }

  /** The refresh goes on with these repositories, or ends empty when there are none. */
  predicate Loads(after: Screen, repositories: seq<Repository>) {
    if repositories == [] then after.stage == Idle && after.state == Empty && !after.stale && after.projects == []
    else after.stage == LoadingRuns(repositories, [])
  }

  /** What a page leads to: the end of the refresh, another page, or all the repositories there are. */
  datatype Turn = Stop | Another(purpose: Purpose) | Complete(repositories: seq<Repository>)

  /** A full page is followed by the next one; with a token the private repositories follow the public ones. */
  function PageTurn(authenticated: bool, p: Purpose, reply: Reply): Turn
    requires (p.Repositories? || p.PrivateRepositories?) && (reply.RepositoryPage? || reply.Failed?)
  {
    if reply.Failed? then if p.Repositories? then Stop else Complete(p.found)
    else if !reply.valid then Stop
    else if p.Repositories? then
      var all := p.found + reply.listed;
      if reply.size == PAGE_SIZE then Another(Repositories(p.page + 1, all))
      else if authenticated then Another(PrivateRepositories(1, all)) else Complete(all)
    else
      var all := Merged(p.found, reply.listed);
      if reply.size == PAGE_SIZE then Another(PrivateRepositories(p.page + 1, all)) else Complete(all)
  }

  /** The screen after a page; the old rows stay unless there turn out to be no repositories. */
  predicate TurnsPage(before: Screen, after: Screen, authenticated: bool, p: Purpose, reply: Reply)
    requires (p.Repositories? || p.PrivateRepositories?) && (reply.RepositoryPage? || reply.Failed?)
  {
    match PageTurn(authenticated, p, reply)
    case Stop => Fails(before, after)
    case Another(q) => Discovers(after.stage, q) && SameModel(before, after)
    case Complete(all) => Loads(after, all) && (all != [] ==> SameModel(before, after))
  }

  /** The details are added to the row of this key when it still shows this run, and to no other. */
  predicate GoesTo(before: seq<Row>, after: seq<Row>, key: seq<int>, runId: int, details: map<string, string>) {
    |after| == |before| && forall i :: 0 <= i < |after| ==>
      after[i] ==
        if before[i].repository.key == key && before[i].latest.id == runId
          && (forall k :: 0 <= k < i ==> before[k].repository.key != key)
        then before[i].(details := before[i].details + details) else before[i]
  }

  // --- What a reply to a runs request leads to --------------------------------------

  /** The selection shows the wanted key if there is a row with it, and else the first row, if any. */
  predicate Selects(after: Screen, wanted: seq<int>) {
    && (after.projects == [] ==> after.selectedKey == [])
    && (after.projects != [] ==>
          && 0 <= after.selectedIndex < |after.projects|
          && after.selectedKey == after.projects[after.selectedIndex].repository.key)
    && if HasKey(after.projects, wanted) then after.selectedKey == wanted else after.selectedIndex == 0
  }

  /** All replies were valid: the new list is published, and the selected key is kept when it survives. */
  ghost predicate Publishes(before: Screen, after: Screen, arrivals: seq<Arrival>) {
    && after.projects == Published(arrivals, before.projects)
    && after.state == (if after.projects == [] then Empty else Ready) && !after.stale
    && Selects(after, before.selectedKey)
  }

  /** What is asked for once a list is published: the runners of every row, and the details of the selected one. */
  function RunnersAsked(rows: seq<Row>, authenticated: bool): (r: seq<Purpose>) {
    if authenticated then seq(|rows|, i requires 0 <= i < |rows| => Runners(rows[i].repository.key)) else []
  }

  function DetailsAsked(rows: seq<Row>, selected: int): seq<Purpose> {
    if 0 <= selected < |rows|
    then [Jobs(rows[selected].repository.key, rows[selected].latest.id),
          Artifacts(rows[selected].repository.key, rows[selected].latest.id)]
    else []
  }

  /** With a token every row's runners are asked for, in order, and whoever asks, both details of the selected run. */
  lemma RowsAreAskedFor(rows: seq<Row>, selected: int, i: nat)
    requires i < |rows|
    ensures |RunnersAsked(rows, true)| == |rows| && RunnersAsked(rows, true)[i].Runners?
      && RunnersAsked(rows, true)[i].key == rows[i].repository.key
    ensures RunnersAsked(rows, false) == []
    ensures forall p :: p in DetailsAsked(rows, selected) <==>
      && (p.Jobs? || p.Artifacts?) && 0 <= selected < |rows|
      && p.key == rows[selected].repository.key && p.runId == rows[selected].latest.id
    ensures DetailsAsked(rows, i)[0].Jobs? && DetailsAsked(rows, i)[1].Artifacts? && |DetailsAsked(rows, i)| == 2
  {
  }

  function Purposes(requests: seq<Request>): (r: seq<Purpose>)
    ensures |r| == |requests|
  {
    seq(|requests|, i requires 0 <= i < |requests| => requests[i].purpose)
  }

  /** These are the requests made since, in order. */
  ghost predicate Asks(before: seq<Request>, after: seq<Request>, asked: seq<Purpose>) {
    before <= after && Purposes(after) == Purposes(before) + asked
  }

  lemma AsksThen(a: seq<Request>, b: seq<Request>, c: seq<Request>, first: seq<Purpose>, second: seq<Purpose>)
    requires Asks(a, b, first) && Asks(b, c, second)
    ensures Asks(a, c, first + second)
  {
  }

  lemma AsksOne(before: seq<Request>, r: Request)
    ensures Asks(before, before + [r], [r.purpose])
  {
  }

  lemma AsksNothing(before: seq<Request>)
    ensures Asks(before, before, [])
  {
  }

  /** The reply is counted; the last one decides, by the validity of all, whether the list is replaced. */
  ghost predicate TakesRuns(before: Screen, after: Screen, index: nat, repository: Repository, answer: Answer) {
    && before.stage.LoadingRuns?
    && var arrivals := before.stage.arrivals + [Arrival(index, repository, answer)];
    && ArrivalsOk(before.stage.repositories, arrivals)
    && if |arrivals| < |before.stage.repositories| then
         after.stage == LoadingRuns(before.stage.repositories, arrivals) && SameModel(before, after)
       else if AllValid(arrivals) then after.stage == Idle && Publishes(before, after, arrivals)
       else Fails(before, after)
  }

  /** With the last valid reply runners and details are asked for, and otherwise nothing. */
  ghost function AskedAfter(before: Screen, after: Screen, index: nat, repository: Repository, answer: Answer,
                            authenticated: bool): seq<Purpose>
    requires before.stage.LoadingRuns?
  {
    var arrivals := before.stage.arrivals + [Arrival(index, repository, answer)];
    if |arrivals| < |before.stage.repositories| || !AllValid(arrivals) then []
    else RunnersAsked(after.projects, authenticated) + DetailsAsked(after.projects, after.selectedIndex)
  }

  // --- What any reply leads to --------------------------------------------------------

  ghost predicate Leads(before: Screen, after: Screen, authenticated: bool, r: Request, reply: Reply)
    requires Fits(r.purpose, reply)
  {
    match r.purpose
    case Repositories(_, _) =>
      before.stage == Discovering(r) && TurnsPage(before, after, authenticated, r.purpose, reply)
    case PrivateRepositories(_, _) =>
      before.stage == Discovering(r) && TurnsPage(before, after, authenticated, r.purpose, reply)
    case Runs(index, repository) => TakesRuns(before, after, index, repository, AnswerOf(reply))
    case Runners(_) => after == before
    case Jobs(key, runId) => TakesDetails(before, after, key, runId, reply)
    case Artifacts(key, runId) => TakesDetails(before, after, key, runId, reply)
  }

  predicate TakesDetails(before: Screen, after: Screen, key: seq<int>, runId: int, reply: Reply)
    requires reply.Details? || reply.Failed?
  {
    && after == before.(projects := after.projects) && SameRows(before.projects, after.projects)
    && if reply.Details? && reply.valid then GoesTo(before.projects, after.projects, key, runId, reply.details)
       else after == before
  }

  /** What is asked for after a reply to anything but a page. */
  ghost function AskedBy(before: Screen, after: Screen, authenticated: bool, r: Request, reply: Reply): seq<Purpose>
    requires Fits(r.purpose, reply)
  {
    if r.purpose.Runs? && before.stage.LoadingRuns?
    then AskedAfter(before, after, r.purpose.index, r.purpose.repository, AnswerOf(reply), authenticated)
    else []
  }

  class ProjectsService {
    const authenticated: bool
    var requests: seq<Request>
    var activeRequests: nat
    var made: nat // gives every request object its own identity
    var state: Status
    var stale: bool
    var pendingRunRequests: int
    var rows: seq<Row>
    var failed: bool
    var projects: seq<Row>
    var selectedIndex: int
    var selectedKey: seq<int>
    ghost var history: History
    ghost var stage: Stage
    ghost var begun: nat
    ghost var ended: nat

    /** What holds between events. */
    ghost predicate Valid()
      reads this
    {
      && Safe()
      && Saturated(requests, activeRequests)
      && StageOk(stage, state, pendingRunRequests, rows, failed, Outstanding(requests, history))
      && begun == ended + (if stage.Idle? then 0 else 1)
      && (stage.Idle? && state == Loading ==> activeRequests == 0 && projects == [])
    }

    ghost predicate Safe()
      reads this
    {
      QueueSafe(requests, activeRequests, history) && made == |history.enqueued|
    }

    constructor (authenticated: bool)
      ensures Valid() && stage == Idle && begun == 0 && projects == []
    {
      this.authenticated := authenticated;
      requests, activeRequests, made := [], 0, 0;
      state, stale := Loading, false;
      pendingRunRequests, rows, failed := 0, [], false;
      projects, selectedIndex, selectedKey := [], -1, [];
      history := History([], [], [], {});
      stage, begun, ended := Idle, 0, 0;
    }

    // --- The queue ----------------------------------------------------------

    method StartRequests()
      requires Safe()
      modifies `requests, `activeRequests, `history
      ensures Safe() && Saturated(requests, activeRequests)
      ensures Outstanding(requests, history) == old(Outstanding(requests, history))
      ensures history.enqueued == old(history.enqueued) && history.completed == old(history.completed)
      ensures old(history.started) <= history.started
    {
      while activeRequests < MAXIMUM_CONCURRENT_REQUESTS && requests != []
        invariant Safe()
        invariant Outstanding(requests, history) == old(Outstanding(requests, history))
        invariant history.enqueued == old(history.enqueued) && history.completed == old(history.completed)
        invariant old(history.started) <= history.started
        decreases |requests|
      {
        StartKeepsQueue(requests, activeRequests, history);
        var pending := requests[0];
        history := Started(history, pending);
        requests := requests[1..];
        activeRequests := activeRequests + 1;
      }
    }

    /** `request`: join the queue and start whatever there is room for. */
    method Post(purpose: Purpose)
      requires Safe()
      modifies `requests, `activeRequests, `made, `history
      ensures Safe() && Saturated(requests, activeRequests)
      ensures history.enqueued == old(history.enqueued) + [Request(|old(history.enqueued)|, purpose)]
      ensures Outstanding(requests, history)
           == old(Outstanding(requests, history)) + {Request(|old(history.enqueued)|, purpose)}
      ensures history.completed == old(history.completed)
      ensures old(history.started) <= history.started
    {
      var r := Request(made, purpose);
      EnqueueKeepsQueue(requests, activeRequests, history, r);
      requests, made := requests + [r], made + 1;
      history := history.(enqueued := history.enqueued + [r]);
      StartRequests();
    }

    // --- The refresh --------------------------------------------------------

    /** Inside a callback: a refresh has begun and none of its requests is outstanding. */
    ghost predicate Between()
      reads this
    {
      Safe() && NoRefresh(Outstanding(requests, history)) && state == Loading && begun == ended + 1
    }

    /** Valid up to requests that can still be started. */
    ghost predicate Settled()
      reads this
    {
      && Safe()
      && StageOk(stage, state, pendingRunRequests, rows, failed, Outstanding(requests, history))
      && begun == ended + (if stage.Idle? then 0 else 1)
      && (stage.Idle? ==> state != Loading)
    }

    ghost function Shows(): Screen
      reads this
    {
      Screen(stage, state, stale, projects, selectedIndex, selectedKey)
    }

    /** A refresh starts exactly when none is under way; otherwise the call has no effect. */
    method Refresh()
      requires Valid()
      modifies this
      ensures Valid()
      ensures old(stage) != Idle ==> unchanged(this)
      ensures old(stage) == Idle ==> stage.Discovering? && begun == old(begun) + 1 && ended == old(ended)
      ensures SameModel(old(Shows()), Shows()) && history.completed == old(history.completed)
    {
      BusyWhileRefreshing(stage, state, pendingRunRequests, rows, failed, requests, activeRequests, history);
      if state == Loading && activeRequests > 0 {
        return;
      }
      state := Loading;
      begun := begun + 1;
      DiscoverRepositories(1, []);
    }

    method DiscoverRepositories(page: nat, found: seq<Repository>)
      requires Between()
      modifies this
      ensures Settled() && Saturated(requests, activeRequests)
      ensures Discovers(stage, Repositories(page, found)) && begun == old(begun) && ended == old(ended)
      ensures SameModel(old(Shows()), Shows()) && Grown(old(history), history)
    {
      hide QueueSafe;
      Post(Repositories(page, found));
      stage := Discovering(history.enqueued[|history.enqueued| - 1]);
    }

    method DiscoverPrivateRepositories(page: nat, found: seq<Repository>)
      requires Between()
      modifies this
      ensures Settled()
      ensures Discovers(stage, PrivateRepositories(page, found)) && begun == old(begun) && ended == old(ended)
      ensures SameModel(old(Shows()), Shows()) && Grown(old(history), history)
    {
      hide QueueSafe;
      Post(PrivateRepositories(page, found));
      stage := Discovering(history.enqueued[|history.enqueued| - 1]);
    }

    method LoadRuns(repositories: seq<Repository>)
      requires Between()
      modifies this
      ensures Settled()
      ensures Loads(Shows(), repositories) && (repositories != [] ==> SameModel(old(Shows()), Shows()))
      ensures begun == old(begun) && Grown(old(history), history)
    {
      hide QueueSafe, Outstanding, WaitingFor, NoRefresh;
      if repositories == [] {
        projects := [];
        FinishRefresh();
        return;
      }
      pendingRunRequests, rows, failed := |repositories|, [], false;
      PostRuns(repositories);
      stage := LoadingRuns(repositories, []);
      assert Answered([]) == {} && Collected([]) == [];
    }

    method PostRuns(repositories: seq<Repository>)
      requires Safe() && NoRefresh(Outstanding(requests, history))
      modifies `requests, `activeRequests, `made, `history
      ensures Safe() && WaitingFor(Outstanding(requests, history), repositories, |repositories|, {})
      ensures Grown(old(history), history)
    {
      hide QueueSafe, Outstanding, WaitingFor;
      NobodyWaits(Outstanding(requests, history), repositories);
      for i := 0 to |repositories|
        invariant Safe() && WaitingFor(Outstanding(requests, history), repositories, i, {})
        invariant Grown(old(history), history)
      {
        ghost var before, r := Outstanding(requests, history), Request(|history.enqueued|, Runs(i, repositories[i]));
        Post(Runs(i, repositories[i]));
        OneMoreWaiting(before, repositories, i, r);
      }
    }

    method FailRefresh()
      requires Between()
      modifies `state, `stale, `stage, `ended
      ensures Settled() && stage == Idle && ended == old(ended) + 1
      ensures stale == (projects != []) && state == (if stale then Ready else Error) && Fails(old(Shows()), Shows())
    {
      stale := |projects| > 0;
      state := if stale then Ready else Error;
      stage, ended := Idle, ended + 1;
    }

    method FinishRefresh()
      requires Between()
      modifies `state, `stale, `stage, `ended, `requests, `activeRequests, `made, `history
      ensures Settled() && stage == Idle && ended == old(ended) + 1
      ensures !stale && state == if projects == [] then Empty else Ready
      ensures Grown(old(history), history)
        && Asks(old(history.enqueued), history.enqueued, RunnersAsked(projects, authenticated))
    {
      hide QueueSafe, Outstanding, NoRefresh, Asks;
      stale := false;
      state := if |projects| == 0 then Empty else Ready;
      stage, ended := Idle, ended + 1;
      LoadRunners();
    }

    method LoadRunners()
      requires Safe() && NoRefresh(Outstanding(requests, history))
      modifies `requests, `activeRequests, `made, `history
      ensures Safe() && NoRefresh(Outstanding(requests, history))
      ensures Grown(old(history), history)
        && Asks(old(history.enqueued), history.enqueued, RunnersAsked(projects, authenticated))
    {
      hide QueueSafe, Asks;
      AsksNothing(history.enqueued);
      if !authenticated {
        return;
      }
      ghost var asked := RunnersAsked(projects, true);
      for i := 0 to |projects|
        invariant Safe() && NoRefresh(Outstanding(requests, history))
        invariant Grown(old(history), history) && Asks(old(history.enqueued), history.enqueued, asked[..i])
      {
        ghost var before := history.enqueued;
        Post(Runners(projects[i].repository.key));
        AsksOne(before, Request(|before|, Runners(projects[i].repository.key)));
        AsksThen(old(history.enqueued), before, history.enqueued, asked[..i], [asked[i]]);
        assert asked[..i + 1] == asked[..i] + [asked[i]];
      }
      assert asked[..|projects|] == asked;
    }

    method LoadSelectedDetails()
      requires Safe()
      modifies `requests, `activeRequests, `made, `history
      ensures Safe()
      ensures SameRefresh(old(Outstanding(requests, history)), Outstanding(requests, history))
      ensures Saturated(requests, activeRequests) || old(!Saturated(requests, activeRequests))
      ensures Grown(old(history), history)
        && Asks(old(history.enqueued), history.enqueued, DetailsAsked(projects, selectedIndex))
    {
      hide QueueSafe, Asks;
      AsksNothing(history.enqueued);
      if 0 <= selectedIndex < |projects| {
        var row := projects[selectedIndex];
        var jobs, artifacts := Jobs(row.repository.key, row.latest.id), Artifacts(row.repository.key, row.latest.id);
        Post(jobs);
        ghost var between := history.enqueued;
        AsksOne(old(history.enqueued), Request(|old(history.enqueued)|, jobs));
        Post(artifacts);
        AsksOne(between, Request(|between|, artifacts));
        AsksThen(old(history.enqueued), between, history.enqueued, [jobs], [artifacts]);
        assert [jobs] + [artifacts] == DetailsAsked(projects, selectedIndex);
      }
    }

    /** Selecting a row changes neither the rows nor the refresh. */
    method SelectProject(index: int)
      requires Valid()
      modifies this
      ensures Valid()
      ensures projects == old(projects) && stage == old(stage) && begun == old(begun) && ended == old(ended)
      ensures if 0 <= index < |projects| then
          selectedIndex == index && (index != old(selectedIndex) ==> selectedKey == projects[index].repository.key)
        else selectedIndex == old(selectedIndex) && selectedKey == old(selectedKey)
      ensures Grown(old(history), history)
      ensures Asks(old(history.enqueued), history.enqueued,
                   if 0 <= index < |projects| && index != old(selectedIndex) then DetailsAsked(projects, index) else [])
    {
      hide QueueSafe, Asks;
      AsksNothing(history.enqueued);
      if index < 0 || index >= |projects| || index == selectedIndex {
        return;
      }
      selectedIndex := index;
      selectedKey := projects[index].repository.key;
      ghost var before := Outstanding(requests, history);
      LoadSelectedDetails();
      OtherRequestsKeepStage(stage, state, pendingRunRequests, rows, failed, before, Outstanding(requests, history));
    }

    // --- Replies ------------------------------------------------------------

    /** A page of public repositories: fail, ask for the next page, or go on. */
    method OnRepositories(page: nat, found: seq<Repository>, reply: Reply)
      requires Between() && (reply.RepositoryPage? || reply.Failed?)
      modifies this
      ensures Settled() && begun == old(begun) && Grown(old(history), history)
      ensures TurnsPage(old(Shows()), Shows(), authenticated, Repositories(page, found), reply)
    {
      hide QueueSafe, Outstanding, WaitingFor, NoRefresh, StageOk;
      if reply.Failed? || !reply.valid {
        FailRefresh();
        return;
      }
      var repositories := found + reply.listed;
      if reply.size == PAGE_SIZE {
        DiscoverRepositories(page + 1, repositories);
      } else if authenticated {
        DiscoverPrivateRepositories(1, repositories);
      } else {
        LoadRuns(repositories);
      }
    }

    /** A page of private repositories; when it cannot be had, the public ones have to do. */
    method OnPrivateRepositories(page: nat, found: seq<Repository>, reply: Reply)
      requires Between() && (reply.RepositoryPage? || reply.Failed?)
      modifies this
      ensures Settled() && begun == old(begun) && Grown(old(history), history)
      ensures TurnsPage(old(Shows()), Shows(), authenticated, PrivateRepositories(page, found), reply)
    {
      hide QueueSafe, Outstanding, WaitingFor, NoRefresh, StageOk;
      if reply.Failed? {
        LoadRuns(found);
        return;
      }
      if !reply.valid {
        FailRefresh();
        return;
      }
      var accumulated := Merge(found, reply.listed);
      if reply.size == PAGE_SIZE {
        DiscoverPrivateRepositories(page + 1, accumulated);
      } else {
        LoadRuns(accumulated);
      }
    }

    /** The loop that adds repositories not seen yet, with its set of keys. */
    static method Merge(found: seq<Repository>, listed: seq<Repository>) returns (accumulated: seq<Repository>)
      ensures accumulated == Merged(found, listed)
    {
      accumulated := found;
      var keys := set r | r in found :: r.key;
      for i := 0 to |listed|
        invariant accumulated == Merged(found, listed[..i])
        invariant keys == set r | r in accumulated :: r.key
      {
        assert listed[..i + 1][..i] == listed[..i];
        if listed[i].key !in keys {
          accumulated := accumulated + [listed[i]];
          keys := keys + {listed[i].key};
        }
      }
      assert listed[..|listed|] == listed;
    }

    /** The reply of one repository; the last one decides about all of them. */
    method OnRuns(index: nat, repository: Repository, reply: Reply)
      requires reply.RunsPage? || reply.Failed?
      requires Safe() && state == Loading && begun == ended + 1 && stage.LoadingRuns?
      requires OneReplyAhead(stage, pendingRunRequests, rows, failed, Outstanding(requests, history), index, repository)
      modifies this
      ensures Settled() && begun == old(begun) && Grown(old(history), history)
      ensures TakesRuns(old(Shows()), Shows(), index, repository, AnswerOf(reply))
      ensures Asks(old(history.enqueued), history.enqueued,
                   AskedAfter(old(Shows()), Shows(), index, repository, AnswerOf(reply), authenticated))
    {
      hide QueueSafe, Outstanding, WaitingFor, NoRefresh, Collected, AllValid, ArrivalsOk, Answered, Published, HasKey;
      hide Asks, RunnersAsked, DetailsAsked, Publishes, Fails;
      AsksNothing(history.enqueued);
      ghost var before := stage.arrivals;
      ghost var arrivals := before + [Arrival(index, repository, AnswerOf(reply))];
      TakeReply(stage.repositories, before, index, repository, AnswerOf(reply), Outstanding(requests, history));
      match reply {
        case RunsPage(valid, latest) =>
          if !valid {
            failed := true;
          }
          if latest.Some? {
            rows := rows + [Row(repository, latest.value, map[])];
          }
        case Failed(_) =>
          failed := true;
      }
      pendingRunRequests := pendingRunRequests - 1;
      assert rows == Collected(arrivals) && failed == !AllValid(arrivals);
      if pendingRunRequests > 0 {
        stage := LoadingRuns(stage.repositories, arrivals);
        return;
      }
      if failed {
        FailRefresh();
        return;
      }
      Publish(arrivals);
    }

    /** Sort, keep loaded details, replace the model and restore the selection. */
    method ReplaceRows(ghost arrivals: seq<Arrival>)
      requires rows == Collected(arrivals)
      modifies `projects, `selectedIndex, `selectedKey
      ensures projects == Published(arrivals, old(projects)) && Selects(Shows(), old(selectedKey))
    {
      hide Collected, Sort, RowLess;
      projects := RetainLoadedProjectDetails(Sort(rows, RowLess), projects);
      selectedIndex := FindSelected(projects, selectedKey);
      selectedKey := if selectedIndex < |projects| then projects[selectedIndex].repository.key else [];
    }

    method Publish(ghost arrivals: seq<Arrival>)
      requires Between() && rows == Collected(arrivals)
      modifies this
      ensures Settled() && stage == Idle && begun == old(begun) && ended == old(ended) + 1
      ensures Publishes(old(Shows()), Shows(), arrivals) && Grown(old(history), history)
      ensures Asks(old(history.enqueued), history.enqueued,
                   RunnersAsked(projects, authenticated) + DetailsAsked(projects, selectedIndex))
    {
      hide QueueSafe, Outstanding, WaitingFor, NoRefresh, Collected, Sort, RowLess, StageOk, HasKey, Published;
      hide Asks, RunnersAsked, DetailsAsked;
      ReplaceRows(arrivals);
      FinishRefresh();
      ghost var before := Outstanding(requests, history);
      ghost var between := history.enqueued;
      LoadSelectedDetails();
      AsksThen(old(history.enqueued), between, history.enqueued, RunnersAsked(projects, authenticated),
               DetailsAsked(projects, selectedIndex));
      OtherRequestsKeepStage(stage, state, pendingRunRequests, rows, failed, before, Outstanding(requests, history));
    }

    /** Details loaded for a repository go to its row when that still shows the same run. */
    method OnDetails(key: seq<int>, runId: int, details: map<string, string>)
      modifies `projects
      ensures SameRows(old(projects), projects) && GoesTo(old(projects), projects, key, runId, details)
    {
      var at := IndexOf(projects, key);
      if at < |projects| && projects[at].latest.id == runId {
        projects := projects[at := projects[at].(details := projects[at].details + details)];
      }
    }

    /** The request has been answered and its callback is to run: what is left outstanding is as it should be. */
    ghost predicate CallbackDue(r: Request)
      reads this
    {
      && Safe() && begun == ended + (if stage.Idle? then 0 else 1)
      && (!IsRefresh(r.purpose) ==>
            && StageOk(stage, state, pendingRunRequests, rows, failed, Outstanding(requests, history))
            && (stage.Idle? ==> state != Loading))
      && (r.purpose.Repositories? || r.purpose.PrivateRepositories? ==> stage == Discovering(r) && Between())
      && (r.purpose.Runs? ==>
            && stage.LoadingRuns? && state == Loading
            && OneReplyAhead(stage, pendingRunRequests, rows, failed, Outstanding(requests, history),
                             r.purpose.index, r.purpose.repository))
    }

    method RunCallback(r: Request, reply: Reply)
      requires CallbackDue(r) && Fits(r.purpose, reply)
      modifies this
      ensures Settled() && begun == old(begun) && Grown(old(history), history)
      ensures Leads(old(Shows()), Shows(), authenticated, r, reply)
      ensures Asks(old(history.enqueued), history.enqueued, AskedBy(old(Shows()), Shows(), authenticated, r, reply))
           || r.purpose.Repositories? || r.purpose.PrivateRepositories?
      ensures !IsRefresh(r.purpose) ==> ended == old(ended)
    {
      hide QueueSafe, Outstanding, WaitingFor, NoRefresh, StageOk, OneReplyAhead, TurnsPage, TakesRuns, AnswerOf;
      hide GoesTo, Asks, AskedAfter;
      AsksNothing(history.enqueued);
      match r.purpose {
        case Repositories(page, found) =>
          OnRepositories(page, found, reply);
        case PrivateRepositories(page, found) =>
          OnPrivateRepositories(page, found, reply);
        case Runs(index, repository) =>
          OnRuns(index, repository, reply);
        case Runners(_) =>
        case Jobs(key, runId) =>
          if reply.Details? && reply.valid {
            OnDetails(key, runId, reply.details);
          }
        case Artifacts(key, runId) =>
          if reply.Details? && reply.valid {
            OnDetails(key, runId, reply.details);
          }
      }
    }

    /**
     * A reply arrives. Its request has its one callback, started requests are replaced in order of arrival, and only
     * the last reply of a fully valid refresh replaces the list.
     */
    method Finished(r: Request, reply: Reply)
      requires Valid() && r in history.inFlight && Fits(r.purpose, reply)
      modifies this
      ensures Valid()
      ensures history.completed == old(history.completed) + [r]
      ensures old(history.enqueued) <= history.enqueued && old(history.started) <= history.started
      ensures begun == old(begun)
      ensures Leads(old(Shows()), Shows(), authenticated, r, reply)
      ensures Asks(old(history.enqueued), history.enqueued, AskedBy(old(Shows()), Shows(), authenticated, r, reply))
           || r.purpose.Repositories? || r.purpose.PrivateRepositories?
      ensures !IsRefresh(r.purpose) ==> ended == old(ended)
    {
      hide QueueSafe, Outstanding, WaitingFor, NoRefresh, StageOk, OneReplyAhead, Leads, Asks, AskedBy, Fits, Saturated;
      CompleteKeepsQueue(requests, activeRequests, history, r);
      ghost var before := Outstanding(requests, history);
      activeRequests := activeRequests - 1;
      history := Completed(history, r);
      StageWithout(stage, state, pendingRunRequests, rows, failed, before, r);
      RunCallback(r, reply);
      StartRequests();
    }
  }

  /** History only grows, and no callback runs. */
  ghost predicate Grown(before: History, after: History) {
    before.enqueued <= after.enqueued && before.started <= after.started && before.completed == after.completed
  }

  lemma NobodyWaits(outstanding: set<Request>, repositories: seq<Repository>)
    requires NoRefresh(outstanding)
    ensures WaitingFor(outstanding, repositories, 0, {})
  {
  }

  lemma OneMoreWaiting(outstanding: set<Request>, repositories: seq<Repository>, i: nat, r: Request)
    requires i < |repositories| && WaitingFor(outstanding, repositories, i, {})
    requires r.purpose == Runs(i, repositories[i])
    ensures WaitingFor(outstanding + {r}, repositories, i + 1, {})
  {
    var more := outstanding + {r};
    forall k: nat | k < i + 1 ensures HasRequest(more, k) {
      if k < i {
        assert HasRequest(outstanding, k);
        var q :| q in outstanding && q.purpose.Runs? && q.purpose.index == k;
        assert q in more;
      } else {
        assert r in more;
      }
    }
    forall q | q in more && IsRefresh(q.purpose) ensures Awaited(q.purpose, repositories, i + 1, {}) {
      assert q in outstanding ==> Awaited(q.purpose, repositories, i, {});
    }
    forall q, s | q in more && s in more && SameIndex(q.purpose, s.purpose) ensures q == s {
      assert q in outstanding ==> Awaited(q.purpose, repositories, i, {});
      assert s in outstanding ==> Awaited(s.purpose, repositories, i, {});
    }
  }

  /** The same refresh requests are outstanding. */
  ghost predicate SameRefresh(before: set<Request>, after: set<Request>) {
    forall r: Request :: IsRefresh(r.purpose) ==> (r in before <==> r in after)
  }

  /** Requests that belong to no refresh do not matter to it. */
  lemma OtherRequestsKeepStage(stage: Stage, state: Status, pending: int, rows: seq<Row>, failed: bool,
                               before: set<Request>, after: set<Request>)
    requires StageOk(stage, state, pending, rows, failed, before)
    requires SameRefresh(before, after)
    ensures StageOk(stage, state, pending, rows, failed, after)
  {
    if stage.LoadingRuns? {
      var n := |stage.repositories|;
      forall k: nat | k < n && k !in Answered(stage.arrivals) ensures HasRequest(after, k) {
        assert HasRequest(before, k);
        var r :| r in before && r.purpose.Runs? && r.purpose.index == k;
        assert IsRefresh(r.purpose) && r in after;
      }
      forall q, s | q in after && s in after && SameIndex(q.purpose, s.purpose) ensures q == s {
        assert IsRefresh(q.purpose) && IsRefresh(s.purpose);
      }
    }
  }

  lemma {:induction false} AtLeast(s: set<nat>, n: nat)
    requires forall k: nat :: k < n ==> k in s
    ensures n <= |s|
  {
    if n > 0 {
      assert n - 1 in s;
      AtLeast(s - {n - 1}, n - 1);
    }
  }

  lemma SomeoneWaits(repositories: seq<Repository>, arrivals: seq<Arrival>)
    requires ArrivalsOk(repositories, arrivals) && |arrivals| < |repositories|
    ensures exists k: nat :: k < |repositories| && k !in Answered(arrivals)
  {
    AnsweredCount(repositories, arrivals);
    if forall k: nat :: k < |repositories| ==> k in Answered(arrivals) {
      AtLeast(Answered(arrivals), |repositories|);
    }
  }

  /** The guard of `refresh` holds exactly while a refresh is under way. */
  lemma BusyWhileRefreshing(stage: Stage, state: Status, pending: int, rows: seq<Row>, failed: bool,
                            requests: seq<Request>, active: nat, h: History)
    requires StageOk(stage, state, pending, rows, failed, Outstanding(requests, h))
    requires QueueSafe(requests, active, h) && Saturated(requests, active)
    ensures stage != Idle ==> state == Loading && active > 0
  {
    match stage
    case Idle =>
    case Discovering(request) =>
      assert request in Outstanding(requests, h);
    case LoadingRuns(repositories, arrivals) =>
      SomeoneWaits(repositories, arrivals);
      var k: nat :| k < |repositories| && k !in Answered(arrivals);
      assert HasRequest(Outstanding(requests, h), k);
      var r :| r in Outstanding(requests, h) && r.purpose.Runs? && r.purpose.index == k;
  }

  ghost function Completed(h: History, r: Request): History {
    h.(completed := h.completed + [r], inFlight := h.inFlight - {r})
  }

  lemma CompleteKeepsQueue(requests: seq<Request>, active: nat, h: History, r: Request)
    requires QueueSafe(requests, active, h) && r in h.inFlight
    ensures active > 0 && QueueSafe(requests, active - 1, Completed(h, r))
    ensures Outstanding(requests, Completed(h, r)) == Outstanding(requests, h) - {r}
    ensures r in Outstanding(requests, h)
  {
    InFlightIsNotQueued(requests, active, h, r);
    assert forall q :: q in h.completed + [r] <==> q in h.completed || q == r;
  }

  predicate HasKey(rows: seq<Row>, key: seq<int>) {
    exists i :: 0 <= i < |rows| && rows[i].repository.key == key
  }

  /** The repositories of `listed` whose key has not been seen yet, after those already found. */
  function Merged(found: seq<Repository>, listed: seq<Repository>): seq<Repository> {
    if listed == [] then found
    else
      var merged, last := Merged(found, listed[..|listed| - 1]), listed[|listed| - 1];
      if exists r :: r in merged && r.key == last.key then merged else merged + [last]
  }

  ghost predicate DistinctRepositories(repositories: seq<Repository>) {
    forall i, j :: 0 <= i < j < |repositories| ==> repositories[i].key != repositories[j].key
  }

  lemma {:induction false} MergedStaysDistinct(found: seq<Repository>, listed: seq<Repository>)
    requires DistinctRepositories(found)
    ensures found <= Merged(found, listed) && DistinctRepositories(Merged(found, listed))
  {
    if listed != [] {
      MergedStaysDistinct(found, listed[..|listed| - 1]);
    }
  }

  predicate HasRepository(repositories: seq<Repository>, key: seq<int>) {
    exists r :: r in repositories && r.key == key
  }

  /** The j-th listed repository has a key of which there was none found nor listed before. */
  predicate IsNew(found: seq<Repository>, listed: seq<Repository>, j: nat)
    requires j < |listed|
  {
    !HasRepository(found, listed[j].key) && forall k :: 0 <= k < j ==> listed[k].key != listed[j].key
  }

  ghost function NewOnes(found: seq<Repository>, listed: seq<Repository>, n: nat): seq<Repository>
    requires n <= |listed|
  {
    if n == 0 then [] else NewOnes(found, listed, n - 1) + if IsNew(found, listed, n - 1) then [listed[n - 1]] else []
  }

  /** Behind the repositories found come exactly the new ones of the list, in its order, and no key is lost. */
  lemma {:induction false} MergedAddsTheNew(found: seq<Repository>, listed: seq<Repository>)
    ensures Merged(found, listed) == found + NewOnes(found, listed, |listed|)
    ensures forall key :: HasRepository(Merged(found, listed), key) <==>
      HasRepository(found, key) || HasRepository(listed, key)
  {
    hide IsNew;
    if listed != [] {
      var n := |listed| - 1;
      var front, last := listed[..n], listed[n];
      MergedAddsTheNew(found, front);
      SameNewOnes(found, listed, n, n);
      NewMeansUnseen(found, listed);
      assert Merged(found, listed)
          == if HasRepository(Merged(found, front), last.key) then Merged(found, front)
            else Merged(found, front) + [last];
      forall key ensures HasRepository(Merged(found, listed), key) <==>
                         HasRepository(found, key) || HasRepository(listed, key) {
        LastAdded(front, last, key);
        LastAdded(Merged(found, front), last, key);
        assert listed == front + [last];
      }
    }
  }

  lemma LastAdded(front: seq<Repository>, last: Repository, key: seq<int>)
    ensures HasRepository(front + [last], key) <==> HasRepository(front, key) || last.key == key
  {
    if HasRepository(front, key) {
      var r :| r in front && r.key == key;
      assert r in front + [last];
    }
    assert last in front + [last];
  }

  lemma {:induction false} SameNewOnes(found: seq<Repository>, listed: seq<Repository>, n: nat, m: nat)
    requires m <= n <= |listed|
    ensures NewOnes(found, listed[..n], m) == NewOnes(found, listed, m)
  {
    if m > 0 {
      SameNewOnes(found, listed, n, m - 1);
      assert forall k :: 0 <= k < m ==> listed[..n][k] == listed[k];
    }
  }

  lemma NewMeansUnseen(found: seq<Repository>, listed: seq<Repository>)
    requires listed != []
    ensures var n := |listed| - 1;
      IsNew(found, listed, n) <==> !HasRepository(found, listed[n].key) && !HasRepository(listed[..n], listed[n].key)
  {
    var n := |listed| - 1;
    var front := listed[..n];
    if k :| 0 <= k < n && listed[k].key == listed[n].key {
      assert front[k] in front;
    }
    if r :| r in front && r.key == listed[n].key {
      var k :| 0 <= k < |front| && front[k] == r;
      assert listed[k].key == listed[n].key;
    }
  }

  /** Two complete sets of replies in which every repository got the same answer. */
  ghost predicate SameAnswers(a: seq<Arrival>, b: seq<Arrival>) {
    |a| == |b| && forall i, j :: 0 <= i < |a| && 0 <= j < |b| && a[i].index == b[j].index ==> a[i].answer == b[j].answer
  }

  lemma ArrivalIsShared(repositories: seq<Repository>, a: seq<Arrival>, b: seq<Arrival>, x: Arrival)
    requires ArrivalsOk(repositories, a) && ArrivalsOk(repositories, b) && SameAnswers(a, b)
    requires |b| == |repositories| && x in a
    ensures x in b
  {
    var i :| 0 <= i < |a| && a[i] == x;
    AllAnswered(repositories, b);
    assert x.index in Answered(b);
    var y :| y in b && y.index == x.index;
    var j :| 0 <= j < |b| && b[j] == y;
    assert a[i].answer == b[j].answer;
  }

  lemma {:induction false} ArrivalCount(s: seq<Arrival>, x: Arrival)
    requires forall i, j :: 0 <= i < j < |s| ==> s[i].index != s[j].index
    ensures multiset(s)[x] == if x in s then 1 else 0
  {
    if s != [] {
      ArrivalCount(s[1..], x);
      assert s == [s[0]] + s[1..];
    }
  }

  lemma CompleteRepliesArePermutations(repositories: seq<Repository>, a: seq<Arrival>, b: seq<Arrival>)
    requires ArrivalsOk(repositories, a) && ArrivalsOk(repositories, b) && SameAnswers(a, b)
    requires |a| == |repositories|
    ensures multiset(a) == multiset(b)
  {
    forall x ensures multiset(a)[x] == multiset(b)[x] {
      if x in a {
        ArrivalIsShared(repositories, a, b, x);
      }
      if x in b {
        ArrivalIsShared(repositories, b, a, x);
      }
      ArrivalCount(a, x);
      ArrivalCount(b, x);
    }
  }

  /**
   * A refresh over repositories with distinct keys publishes the same list in whatever order the replies come in. The
   * keys are distinct when those of the public pages were: private pages are merged without duplicates.
   */
  lemma ReplyOrderIsIrrelevant(found: seq<Repository>, listed: seq<Repository>, repositories: seq<Repository>,
                               a: seq<Arrival>, b: seq<Arrival>, previous: seq<Row>)
    requires DistinctRepositories(found) && repositories == Merged(found, listed)
    requires ArrivalsOk(repositories, a) && ArrivalsOk(repositories, b) && SameAnswers(a, b)
    requires |a| == |repositories|
    ensures Published(a, previous) == Published(b, previous)
  {
    hide Published, Merged;
    MergedStaysDistinct(found, listed);
    CompleteRepliesArePermutations(repositories, a, b);
    DistinctReplies(repositories, a);
    ArrivalOrderIsIrrelevant(a, b, previous);
  }

  lemma DistinctReplies(repositories: seq<Repository>, a: seq<Arrival>)
    requires DistinctRepositories(repositories) && ArrivalsOk(repositories, a)
    ensures DistinctKeys(a)
  {
    forall i, j | 0 <= i < j < |a| ensures a[i].repository.key != a[j].repository.key {
      var x, y := a[i].index, a[j].index;
      assert repositories[if x < y then x else y].key != repositories[if x < y then y else x].key;
    }
  }

  /** One runs request has been answered but its callback has not yet run. */
  ghost predicate OneReplyAhead(stage: Stage, pending: int, rows: seq<Row>, failed: bool, outstanding: set<Request>,
                                index: nat, repository: Repository)
    requires stage.LoadingRuns?
  {
    var repositories, arrivals := stage.repositories, stage.arrivals;
    && 0 < pending == |repositories| - |arrivals|
    && rows == Collected(arrivals) && failed == !AllValid(arrivals)
    && ArrivalsOk(repositories, arrivals)
    && index < |repositories| && repository == repositories[index] && index !in Answered(arrivals)
    && WaitingFor(outstanding, repositories, |repositories|, Answered(arrivals) + {index})
  }

  /** What is left of a stage when one of its requests has been answered. */
  lemma StageWithout(stage: Stage, state: Status, pending: int, rows: seq<Row>, failed: bool, before: set<Request>,
                     r: Request)
    requires StageOk(stage, state, pending, rows, failed, before) && r in before
    ensures !IsRefresh(r.purpose) ==> StageOk(stage, state, pending, rows, failed, before - {r})
    ensures r.purpose.Repositories? || r.purpose.PrivateRepositories? ==>
      stage == Discovering(r) && state == Loading && NoRefresh(before - {r})
    ensures r.purpose.Runs? ==>
      && stage.LoadingRuns? && state == Loading
      && OneReplyAhead(stage, pending, rows, failed, before - {r}, r.purpose.index, r.purpose.repository)
  {
    if !IsRefresh(r.purpose) {
      OtherRequestsKeepStage(stage, state, pending, rows, failed, before, before - {r});
    } else if r.purpose.Runs? && stage.LoadingRuns? {
      var n, answered := |stage.repositories|, Answered(stage.arrivals);
      forall k: nat | k < n && k !in answered + {r.purpose.index} ensures HasRequest(before - {r}, k) {
        assert HasRequest(before, k);
        var q :| q in before && q.purpose.Runs? && q.purpose.index == k;
        assert q in before - {r};
      }
      forall q | q in before - {r} && IsRefresh(q.purpose)
        ensures Awaited(q.purpose, stage.repositories, n, answered + {r.purpose.index})
      {
        assert Awaited(q.purpose, stage.repositories, n, answered);
        assert SameIndex(q.purpose, r.purpose) ==> q == r;
      }
    }
  }

  /** Counting the reply keeps the bookkeeping right; with the last one nothing is outstanding. */
  lemma TakeReply(repositories: seq<Repository>, arrivals: seq<Arrival>, index: nat, repository: Repository,
                  answer: Answer, outstanding: set<Request>)
    requires ArrivalsOk(repositories, arrivals) && index !in Answered(arrivals)
    requires index < |repositories| && repository == repositories[index]
    requires WaitingFor(outstanding, repositories, |repositories|, Answered(arrivals) + {index})
    ensures var more := arrivals + [Arrival(index, repository, answer)];
      && ArrivalsOk(repositories, more)
      && Answered(more) == Answered(arrivals) + {index}
      && Collected(more) == Collected(arrivals) + RowsOf(repository, answer)
      && (AllValid(more) <==> AllValid(arrivals) && IsValid(answer))
      && (|more| == |repositories| ==> NoRefresh(outstanding))
  {
    var last := Arrival(index, repository, answer);
    var more := arrivals + [last];
    assert more[..|arrivals|] == arrivals;
    forall i | 0 <= i < |arrivals| ensures arrivals[i].index != index {
      assert arrivals[i] in arrivals;
    }
    assert forall a :: a in more <==> a in arrivals || a == last;
    if |more| == |repositories| {
      AllAnswered(repositories, more);
    }
  }

  lemma EnqueueKeepsQueue(requests: seq<Request>, active: nat, h: History, r: Request)
    requires QueueSafe(requests, active, h) && r.serial == |h.enqueued|
    ensures QueueSafe(requests + [r], active, h.(enqueued := h.enqueued + [r]))
    ensures Outstanding(requests + [r], h.(enqueued := h.enqueued + [r])) == Outstanding(requests, h) + {r}
  {
  }

  ghost function Started(h: History, r: Request): History {
    h.(started := h.started + [r], inFlight := h.inFlight + {r})
  }

  lemma StartKeepsQueue(requests: seq<Request>, active: nat, h: History)
    requires QueueSafe(requests, active, h) && requests != [] && active < MAXIMUM_CONCURRENT_REQUESTS
    ensures QueueSafe(requests[1..], active + 1, Started(h, requests[0]))
    ensures Outstanding(requests[1..], Started(h, requests[0])) == Outstanding(requests, h)
  {
    var r := requests[0];
    assert h.enqueued[|h.started|] == r;
    forall q | q in h.started ensures q.serial < |h.started| {
      var i :| 0 <= i < |h.started| && h.started[i] == q;
      assert h.enqueued[i] == q;
    }
    assert h.started + [r] + requests[1..] == h.enqueued;
    assert forall q :: q in h.started + [r] <==> q in h.started || q == r;
    assert forall q :: q in requests <==> q == r || q in requests[1..];
  }
}
