/** The cached, de-duplicated view of the validator fleet: one poll at a time, reused until it expires. */
module SingleFlight {
  /** What became of a poll: still running, answered at a time, or failed. */
  datatype Outcome<V> = Pending | Resolved(value: V, at: int) | Failed

  datatype Poll<V> = Poll(startedAt: int, outcome: Outcome<V>)

  /** The cache remembers which poll filled it and when it expires. */
  datatype Cache = Empty | Filled(poll: nat, expiresAt: int)

  datatype Flight = Idle | Flying(poll: nat)

  /** How a request is answered: from the cache, by joining the poll in flight, or by starting its own. */
  datatype Served = FromCache(poll: nat) | Joined(poll: nat) | Started(poll: nat)

  datatype Request = Request(at: int, served: Served)

  /** `cached` and `inFlight` are the program's variables; `polls` and `requests` are history. */
  datatype State<V> = State(cached: Cache, inFlight: Flight, polls: seq<Poll<V>>, requests: seq<Request>)

  /** A request arrives, the poll settles (its `then` runs), or its `finally` runs. */
  datatype Label<V> = Ask(at: int) | Answer(value: V, at: int) | Fail | Clear

  function Initial<V>(): State<V> {
    State(Empty, Idle, [], [])
  }

  predicate Enabled<V>(s: State<V>, l: Label<V>) {
    l.Ask? ||
    (s.inFlight.Flying? && s.inFlight.poll < |s.polls| && (l.Clear? <==> !s.polls[s.inFlight.poll].outcome.Pending?))
  }

  function Ask<V>(s: State<V>, at: int): State<V> {
    if s.cached.Filled? && s.cached.expiresAt > at
      then s.(requests := s.requests + [Request(at, FromCache(s.cached.poll))])
    else if s.inFlight.Flying? then s.(requests := s.requests + [Request(at, Joined(s.inFlight.poll))])
    else s.(inFlight := Flying(|s.polls|), polls := s.polls + [Poll(at, Pending)],
            requests := s.requests + [Request(at, Started(|s.polls|))])
  }

  function Settle<V>(s: State<V>, outcome: Outcome<V>): State<V>
    requires s.inFlight.Flying? && s.inFlight.poll < |s.polls|
  {
    s.(polls := s.polls[s.inFlight.poll := s.polls[s.inFlight.poll].(outcome := outcome)])
  }

  function Next<V>(s: State<V>, l: Label<V>, ttl: int): State<V>
    requires Enabled(s, l)
  {
    match l
    case Ask(at) => Ask(s, at)
    case Answer(value, at) => Settle(s, Resolved(value, at)).(cached := Filled(s.inFlight.poll, at + ttl))
    case Fail => Settle(s, Failed)
    case Clear => s.(inFlight := Idle)
  }

  ghost predicate IsRun<V>(ttl: int, run: seq<State<V>>, labels: seq<Label<V>>) {
    && |run| == |labels| + 1 && run[0] == Initial()
    && forall i :: 0 <= i < |labels| ==> Enabled(run[i], labels[i]) && run[i + 1] == Next(run[i], labels[i], ttl)
  }

  ghost predicate NoneResolved<V>(polls: seq<Poll<V>>, from: nat, to: nat)
    requires to <= |polls|
  {
    forall k :: from <= k < to ==> !polls[k].outcome.Resolved?
  }

  /** Only the newest poll can be unsettled, and then it is the one in flight. */
  ghost predicate OneFlight<V>(s: State<V>) {
    && (s.inFlight.Flying? ==> s.inFlight.poll + 1 == |s.polls|)
    && (forall k :: 0 <= k < |s.polls| && s.polls[k].outcome.Pending? ==> s.inFlight == Flying(k))
  }

  /** The cache holds the newest resolved poll and expires a time-to-live after its answer. */
  ghost predicate CacheIsNewest<V>(s: State<V>, ttl: int) {
    if s.cached.Empty? then NoneResolved(s.polls, 0, |s.polls|)
    else && s.cached.poll < |s.polls| && s.polls[s.cached.poll].outcome.Resolved?
         && s.cached.expiresAt == s.polls[s.cached.poll].outcome.at + ttl
         && NoneResolved(s.polls, s.cached.poll + 1, |s.polls|)
  }

  /** A poll starts only once the newest answer before it has expired. */
  ghost predicate Spaced<V>(polls: seq<Poll<V>>, ttl: int) {
    forall i, j :: 0 <= i < j < |polls| && polls[i].outcome.Resolved? && NoneResolved(polls, i + 1, j)
      ==> polls[j].startedAt >= polls[i].outcome.at + ttl
  }

  ghost predicate Inv<V>(s: State<V>, ttl: int) {
    OneFlight(s) && CacheIsNewest(s, ttl) && Spaced(s.polls, ttl)
  }

  /** A poll that resolves last does not change which answer came before any poll. */
  lemma SettleKeepsSpacing<V>(s: State<V>, outcome: Outcome<V>, ttl: int)
    requires Spaced(s.polls, ttl) && s.inFlight.Flying? && s.inFlight.poll + 1 == |s.polls|
    ensures Spaced(Settle(s, outcome).polls, ttl)
  {
    var polls := Settle(s, outcome).polls;
    forall i, j | 0 <= i < j < |polls| && polls[i].outcome.Resolved? && NoneResolved(polls, i + 1, j)
      ensures polls[j].startedAt >= polls[i].outcome.at + ttl
    {
      assert forall k :: i + 1 <= k < j ==> polls[k] == s.polls[k];
      assert NoneResolved(s.polls, i + 1, j);
    }
  }

  lemma AskKeepsSpacing<V>(s: State<V>, at: int, ttl: int)
    requires Inv(s, ttl)
    ensures Spaced(Ask(s, at).polls, ttl)
  {
    var polls := Ask(s, at).polls;
    forall i, j | 0 <= i < j < |polls| && polls[i].outcome.Resolved? && NoneResolved(polls, i + 1, j)
      ensures polls[j].startedAt >= polls[i].outcome.at + ttl
    {
      if j < |s.polls| {
        assert forall k :: i + 1 <= k < j ==> polls[k] == s.polls[k];
        assert NoneResolved(s.polls, i + 1, j);
      } else {
        assert s.polls[i] == polls[i];
        assert s.cached.Filled? && i <= s.cached.poll;
        assert polls[s.cached.poll].outcome.Resolved?;
      }
    }
  }

  lemma InvKept<V>(s: State<V>, l: Label<V>, ttl: int)
    requires Inv(s, ttl) && Enabled(s, l)
    ensures Inv(Next(s, l, ttl), ttl)
  {
    match l
    case Ask(at) => AskKeepsSpacing(s, at, ttl);
    case Answer(value, at) => SettleKeepsSpacing(s, Resolved(value, at), ttl);
    case Fail => SettleKeepsSpacing(s, Failed, ttl);
    case Clear =>
  }

  lemma {:induction false} RunInv<V>(ttl: int, run: seq<State<V>>, labels: seq<Label<V>>, i: nat)
    requires IsRun(ttl, run, labels) && i < |run|
    ensures Inv(run[i], ttl)
  {
    if i > 0 {
      RunInv(ttl, run, labels, i - 1);
      InvKept(run[i - 1], labels[i - 1], ttl);
    }
  }

  /** However many requests arrive, at most one poll of the fleet is unsettled, and two polls with no other
      answer between them are a time-to-live apart when the first was answered. */
  lemma OutboundLoadIsBounded<V>(ttl: int, run: seq<State<V>>, labels: seq<Label<V>>, i: nat)
    requires IsRun(ttl, run, labels) && i < |run|
    ensures forall j, k :: (0 <= j < |run[i].polls| && 0 <= k < |run[i].polls|
      && run[i].polls[j].outcome.Pending? && run[i].polls[k].outcome.Pending?) ==> j == k
    ensures Spaced(run[i].polls, ttl)
  {
    RunInv(ttl, run, labels, i);
  }

  /** Every request is answered by exactly one poll: a resolved one that has not expired, the one in flight,
      or a new one it starts when there is neither. */
  lemma RequestsAreServed<V>(ttl: int, run: seq<State<V>>, labels: seq<Label<V>>, i: nat)
    requires IsRun(ttl, run, labels) && i < |labels| && labels[i].Ask?
    ensures |run[i + 1].requests| == |run[i].requests| + 1
    ensures var at := labels[i].at; var polls := run[i].polls;
      match run[i + 1].requests[|run[i].requests|].served
      case FromCache(p) =>
        p < |polls| && polls[p].outcome.Resolved? && at < polls[p].outcome.at + ttl
          && NoneResolved(polls, p + 1, |polls|)
      case Joined(p) => p + 1 == |polls| && run[i].inFlight == Flying(p)
      case Started(p) => p == |polls| && forall k :: 0 <= k < |polls| ==> !polls[k].outcome.Pending?
  {
    RunInv(ttl, run, labels, i);
  }

  /** The polls started are exactly the requests that were told to start one, in order. */
  ghost function Starters(requests: seq<Request>): seq<int> {
    if requests == [] then []
    else Starters(requests[..|requests| - 1]) + var r := requests[|requests| - 1];
      if r.served.Started? then [r.at] else []
  }

  ghost function StartTimes<V>(polls: seq<Poll<V>>): seq<int> {
    seq(|polls|, i requires 0 <= i < |polls| => polls[i].startedAt)
  }

  lemma {:induction false} PollsComeFromRequests<V>(ttl: int, run: seq<State<V>>, labels: seq<Label<V>>, i: nat)
    requires IsRun(ttl, run, labels) && i < |run|
    ensures StartTimes(run[i].polls) == Starters(run[i].requests)
  {
    if i > 0 {
      PollsComeFromRequests(ttl, run, labels, i - 1);
      var s, s' := run[i - 1], run[i];
      if labels[i - 1].Ask? {
        assert s'.requests[..|s.requests|] == s.requests;
      }
      if |s'.polls| == |s.polls| {
        assert StartTimes(s'.polls) == StartTimes(s.polls);
      } else {
        assert StartTimes(s'.polls) == StartTimes(s.polls) + [labels[i - 1].at];
      }
    }
  }

  /** A poll that answers is recorded with its value and serves from then on until it expires; one that fails changes
      nothing that serves; and once its cleanup ran nothing is in flight. */
  lemma PollsCome<V>(ttl: int, run: seq<State<V>>, labels: seq<Label<V>>, i: nat)
    requires IsRun(ttl, run, labels) && i < |labels| && !labels[i].Ask?
    ensures run[i].inFlight.Flying? && run[i].inFlight.poll < |run[i].polls| == |run[i + 1].polls|
    ensures labels[i].Clear? ==> run[i + 1].inFlight == Idle && run[i + 1].polls == run[i].polls
    ensures labels[i].Fail? ==>
      run[i + 1].polls[run[i].inFlight.poll].outcome == Failed && run[i + 1].cached == run[i].cached
    ensures forall value, at, later :: labels[i] == Answer(value, at) && later < at + ttl ==>
      && run[i + 1].polls[run[i].inFlight.poll].outcome == Resolved(value, at)
      && Ask(run[i + 1], later).requests == run[i + 1].requests + [Request(later, FromCache(run[i].inFlight.poll))]
  {}
}
