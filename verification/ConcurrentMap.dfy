/** Bounded-concurrency map: workers share a cursor and a results array. */
module ConcurrentMap {
  import opened Numbers
  import opened Wrappers

  /** A worker awaits the call for one index, has run out of items, or was stopped by a rejection. */
  datatype Worker = Calling(index: nat) | Finished | Rejected

  /** `called` lists the indices passed to the function, in order; `owner` says which worker took each
      index; `answers` and `refused` are what the function did. All four are history. */
  datatype State<R> = State(
    n: nat, workers: seq<Worker>, cursor: nat, results: seq<Option<R>>,
    called: seq<nat>, owner: seq<nat>, answers: map<nat, R>, refused: set<nat>)

  datatype Label<R> = Resolve(w: nat, value: R) | Reject(w: nat)

  /** At least one worker, at most one per item. */
  function WorkerCount(n: nat, limit: int): nat {
    Min(if limit > 1 then limit else 1, n)
  }

  function Identity(k: nat): seq<nat> {
    seq(k, i => i)
  }

  /** Every worker takes its first item before any call settles. */
  function Initial<R>(n: nat, limit: int): State<R> {
    var w := WorkerCount(n, limit);
    State(n, seq(w, i requires 0 <= i < w => Calling(i)), w, seq(n, _ => None), Identity(w), Identity(w), map[], {})
  }

  /** A worker comes back to the top of its loop: take the next index, or stop. */
  function Take<R>(s: State<R>, w: nat): State<R>
    requires w < |s.workers|
  {
    if s.cursor >= s.n then s.(workers := s.workers[w := Finished], cursor := s.cursor + 1)
    else s.(workers := s.workers[w := Calling(s.cursor)], cursor := s.cursor + 1,
            called := s.called + [s.cursor], owner := s.owner + [w])
  }

  ghost predicate Enabled<R>(s: State<R>, l: Label<R>) {
    l.w < |s.workers| && s.workers[l.w].Calling? && s.workers[l.w].index < |s.results|
  }

  function Next<R>(s: State<R>, l: Label<R>): State<R>
    requires Enabled(s, l)
  {
    var i := s.workers[l.w].index;
    match l
    case Resolve(w, value) => Take(s.(results := s.results[i := Some(value)], answers := s.answers[i := value]), w)
    case Reject(w) => s.(workers := s.workers[w := Rejected], refused := s.refused + {i})
  }

  /** The items taken so far. */
  function Taken<R>(s: State<R>): nat {
    Min(s.cursor, s.n)
  }

  ghost predicate Inv<R>(s: State<R>, limit: int) {
    && |s.workers| == WorkerCount(s.n, limit) && |s.results| == s.n && s.cursor >= |s.workers|
    && s.called == Identity(Taken(s)) && |s.owner| == Taken(s)
    && (forall i :: 0 <= i < Taken(s) ==> s.owner[i] < |s.workers| && Accounted(s, i))
    && (forall i :: Taken(s) <= i < s.n ==> s.results[i].None? && i !in s.answers && i !in s.refused)
    && (forall w :: 0 <= w < |s.workers| && s.workers[w].Calling? ==>
      s.workers[w].index < Taken(s) && s.owner[s.workers[w].index] == w)
    && (forall w :: 0 <= w < |s.workers| && s.workers[w].Finished? ==> s.cursor >= s.n)
    && (forall w :: 0 <= w < |s.workers| && s.workers[w].Rejected? ==> s.refused != {})
  }

  /** An item that was taken is being processed by its owner, was answered, or was refused: exactly one of them. */
  ghost predicate Accounted<R>(s: State<R>, i: nat)
    requires i < |s.owner| && i < |s.results| && s.owner[i] < |s.workers|
  {
    if i in s.answers then s.results[i] == Some(s.answers[i]) && i !in s.refused && s.workers[s.owner[i]] != Calling(i)
    else s.results[i].None? && (i in s.refused <==> s.workers[s.owner[i]] != Calling(i))
  }

  lemma InitialInv<R>(n: nat, limit: int)
    ensures Inv(Initial<R>(n, limit), limit)
  {
    var s := Initial<R>(n, limit);
    var w := WorkerCount(n, limit);
    assert w <= n && Taken(s) == w && s.called == Identity(w) && |s.owner| == w && |s.workers| == w;
    forall i | 0 <= i < w ensures s.owner[i] < |s.workers| && Accounted(s, i) {
      assert s.owner[i] == i && s.workers[i] == Calling(i);
    }
    forall k | 0 <= k < w && s.workers[k].Calling? ensures s.workers[k].index < w && s.owner[s.workers[k].index] == k {
      assert s.workers[k] == Calling(k) && s.owner[k] == k;
    }
  }

  lemma RejectKept<R>(s: State<R>, l: Label<R>, limit: int)
    requires Inv(s, limit) && Enabled(s, l) && l.Reject?
    ensures Inv(Next(s, l), limit)
  {
    var s' := Next(s, l);
    var item := s.workers[l.w].index;
    assert Accounted(s, item) && s.owner[item] == l.w;
    forall i | 0 <= i < Taken(s') ensures s'.owner[i] < |s'.workers| && Accounted(s', i) {
      assert Accounted(s, i);
      if i != item && s.owner[i] == l.w {
        assert s.workers[l.w] != Calling(i);
      }
    }
  }

  lemma ResolveKept<R>(s: State<R>, l: Label<R>, limit: int)
    requires Inv(s, limit) && Enabled(s, l) && l.Resolve?
    ensures Inv(Next(s, l), limit)
  {
    var s' := Next(s, l);
    if s.cursor < s.n {
      assert s'.called == Identity(Taken(s'));
    }
    forall i | 0 <= i < Taken(s') ensures s'.owner[i] < |s'.workers| && Accounted(s', i) {
      if i < Taken(s) {
        assert Accounted(s, i);
      }
    }
  }

  ghost predicate IsRun<R>(n: nat, limit: int, run: seq<State<R>>, labels: seq<Label<R>>) {
    && |run| == |labels| + 1 && run[0] == Initial(n, limit)
    && forall i :: 0 <= i < |labels| ==> Enabled(run[i], labels[i]) && run[i + 1] == Next(run[i], labels[i])
  }

  lemma {:induction false} RunInv<R>(n: nat, limit: int, run: seq<State<R>>, labels: seq<Label<R>>, i: nat)
    requires IsRun(n, limit, run, labels) && i < |run|
    ensures Inv(run[i], limit) && run[i].n == n
  {
    if i == 0 {
      InitialInv<R>(n, limit);
    } else {
      RunInv(n, limit, run, labels, i - 1);
      if labels[i - 1].Reject? {
        RejectKept(run[i - 1], labels[i - 1], limit);
      } else {
        ResolveKept(run[i - 1], labels[i - 1], limit);
      }
    }
  }

  ghost function InFlight<R>(s: State<R>): set<nat> {
    set w | 0 <= w < |s.workers| && s.workers[w].Calling? :: s.workers[w].index
  }

  lemma {:induction false} AtMostOnePerWorker(workers: seq<Worker>, k: nat)
    requires k <= |workers|
    ensures |set w | 0 <= w < k && workers[w].Calling? :: workers[w].index| <= k
  {
    if k > 0 {
      AtMostOnePerWorker(workers, k - 1);
      var before := set w | 0 <= w < k - 1 && workers[w].Calling? :: workers[w].index;
      var after := set w | 0 <= w < k && workers[w].Calling? :: workers[w].index;
      if workers[k - 1].Calling? {
        assert after == before + {workers[k - 1].index};
      } else {
        assert after == before;
      }
    }
  }

  /** For every schedule: each index is passed to the function once and in order, at most max(1, limit)
      calls are in flight, and whatever is in the results is the answer for that index. */
  lemma MapIsBounded<R>(n: nat, limit: int, run: seq<State<R>>, labels: seq<Label<R>>, i: nat)
    requires IsRun(n, limit, run, labels) && i < |run|
    ensures run[i].called == Identity(Taken(run[i])) && |run[i].results| == n
    ensures |InFlight(run[i])| <= (if limit > 1 then limit else 1)
    ensures forall j :: 0 <= j < n && run[i].results[j].Some? ==>
      j in run[i].answers && run[i].results[j].value == run[i].answers[j]
  {
    RunInv(n, limit, run, labels, i);
    AtMostOnePerWorker(run[i].workers, |run[i].workers|);
    forall j | 0 <= j < n && run[i].results[j].Some?
      ensures j in run[i].answers && run[i].results[j].value == run[i].answers[j] {
      if j < Taken(run[i]) {
        assert Accounted(run[i], j);
      }
    }
  }

  /** When no call is in flight and none was refused, every item has been processed and its answer is in place. */
  lemma MapIsComplete<R>(n: nat, limit: int, run: seq<State<R>>, labels: seq<Label<R>>, i: nat)
    requires IsRun(n, limit, run, labels) && i < |run|
    requires (forall w :: 0 <= w < |run[i].workers| ==> !run[i].workers[w].Calling?) && run[i].refused == {}
    ensures run[i].called == Identity(n) && |run[i].results| == n
    ensures forall j :: 0 <= j < n ==> j in run[i].answers && run[i].results[j] == Some(run[i].answers[j])
  {
    RunInv(n, limit, run, labels, i);
    var s := run[i];
    if n > 0 {
      assert s.workers[0].Finished?;
    }
    forall j | 0 <= j < n ensures j in s.answers && s.results[j] == Some(s.answers[j]) {
      assert Accounted(s, j);
    }
  }

  ghost function Busy(workers: seq<Worker>): nat {
    if workers == [] then 0 else Busy(workers[..|workers| - 1]) + if workers[|workers| - 1].Calling? then 1 else 0
  }

  lemma {:induction false} BusyAfter(workers: seq<Worker>, w: nat, x: Worker)
    requires w < |workers| && workers[w].Calling?
    ensures Busy(workers[w := x]) == Busy(workers) - if x.Calling? then 0 else 1
  {
    var init := workers[..|workers| - 1];
    if w < |workers| - 1 {
      BusyAfter(init, w, x);
      assert workers[w := x][..|workers| - 1] == init[w := x];
    } else {
      assert workers[w := x][..|workers| - 1] == init;
    }
  }

  lemma {:induction false} AllBusy(workers: seq<Worker>)
    requires forall w :: 0 <= w < |workers| ==> workers[w].Calling?
    ensures Busy(workers) == |workers|
  {
    if workers != [] {
      AllBusy(workers[..|workers| - 1]);
    }
  }

  /** The calls still to settle: one for every item not yet taken and one for every worker that awaits. */
  ghost function Outstanding<R>(s: State<R>): int {
    s.n - Taken(s) + Busy(s.workers)
  }

  lemma SettlingCounts<R>(s: State<R>, l: Label<R>)
    requires Enabled(s, l)
    ensures Outstanding(Next(s, l)) == Outstanding(s) - 1
  {
    BusyAfter(s.workers, l.w, Finished);
    BusyAfter(s.workers, l.w, Rejected);
    BusyAfter(s.workers, l.w, Calling(s.cursor));
  }

  /** The limit is used: while no call was refused, as many calls are in flight as the limit, the list and the calls
      still to settle allow. */
  lemma LimitIsUsed<R>(n: nat, limit: int, run: seq<State<R>>, labels: seq<Label<R>>, i: nat)
    requires IsRun(n, limit, run, labels) && i < |run| && run[i].refused == {}
    ensures i <= n && Busy(run[i].workers) == Min(Min(if limit > 1 then limit else 1, n), n - i)
  {
    RunInv(n, limit, run, labels, i);
    MapTerminates(n, limit, run, labels, i);
    if run[i].cursor < n {
      AllBusy(run[i].workers);
    } else {
      BusyBound(run[i].workers);
    }
  }

  lemma {:induction false} BusyBound(workers: seq<Worker>)
    ensures Busy(workers) <= |workers|
  {
    if workers != [] {
      BusyBound(workers[..|workers| - 1]);
    }
  }

  /** A rejection stops its worker: no further call is made in its place, and no other worker is touched. */
  lemma RejectionStopsWorker<R>(n: nat, limit: int, run: seq<State<R>>, labels: seq<Label<R>>, i: nat)
    requires IsRun(n, limit, run, labels) && i < |labels| && labels[i].Reject?
    ensures run[i + 1].called == run[i].called && run[i + 1].results == run[i].results
    ensures |run[i + 1].workers| == |run[i].workers| && Busy(run[i + 1].workers) == Busy(run[i].workers) - 1
    ensures forall w :: 0 <= w < |run[i].workers| && w != labels[i].w ==> run[i + 1].workers[w] == run[i].workers[w]
  {
    BusyAfter(run[i].workers, labels[i].w, Rejected);
  }

  /** All workers finish: every step of a run settles one of the n calls, so no run is longer than the list. */
  lemma {:induction false} MapTerminates<R>(n: nat, limit: int, run: seq<State<R>>, labels: seq<Label<R>>, i: nat)
    requires IsRun(n, limit, run, labels) && i < |run|
    ensures Outstanding(run[i]) == n - i && i <= n
  {
    if i == 0 {
      AllBusy(run[0].workers);
    } else {
      MapTerminates(n, limit, run, labels, i - 1);
      RunInv(n, limit, run, labels, i);
      SettlingCounts(run[i - 1], labels[i - 1]);
    }
  }
}
