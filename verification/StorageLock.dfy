/** The re-entrant storage lock and its transactions, over one database connection.

    A locked call waits for the release of the call before it. Calls made inside an active
    transaction bypass the lock. A statement is an arbitrary function on the database. */
module StorageLock {
  import opened Wrappers

  type Db = map<string, string>
  type Statement = Db -> Db

  datatype Kind = Plain | Transaction

  /** `Queued` awaits the predecessor's release; `Holding` and `InTransaction` own the connection. */
  datatype Status = Queued | Holding | InTransaction | Released(ok: bool)

  /** A locked call and the statements it has executed so far. */
  datatype Call = Call(kind: Kind, status: Status, ran: seq<Statement>)

  /** `snapshot` is the database at the open BEGIN, and `front` counts released calls. A snapshot can outlive
      the call that began it, because a ROLLBACK can throw. */
  datatype State = State(calls: seq<Call>, db: Db, snapshot: Option<Db>, front: nat)

  function Initial(db: Db): State {
    State([], db, None, 0)
  }

  datatype Label =
    | Request(from: Option<nat>, kind: Kind, statement: Statement)
    | Acquire(k: nat, begins: bool)
    | Execute(k: nat, statement: Statement)
    | Finish(k: nat, succeeded: bool, commits: bool, rollsBack: bool)

  predicate Owns(status: Status) {
    status.Holding? || status.InTransaction?
  }

  function Set(s: State, k: nat, status: Status): State
    requires k < |s.calls|
  {
    s.(calls := s.calls[k := s.calls[k].(status := status)], front := if status.Released? then k + 1 else s.front)
  }

  /** Run one statement on behalf of call `k`. */
  function Perform(s: State, k: nat, statement: Statement): State
    requires k < |s.calls|
  {
    s.(calls := s.calls[k := s.calls[k].(ran := s.calls[k].ran + [statement])], db := statement(s.db))
  }

  /** The context of a running transaction is active: the call is made by its callback. */
  predicate ContextActive(s: State, from: Option<nat>) {
    from.Some? && from.value < |s.calls| && s.calls[from.value].status.InTransaction?
  }

  /** Undo an unfinished transaction. A ROLLBACK that throws leaves it open on the connection. */
  function RollBack(s: State, k: nat, rollsBack: bool): State
    requires k < |s.calls|
  {
    if rollsBack then
      Set(match s.snapshot { case None => s case Some(db) => s.(db := db, snapshot := None) }, k, Released(false))
    else Set(s, k, Released(false))
  }

  ghost predicate Enabled(s: State, l: Label) {
    match l
    case Request(_, _, _) => true
    case Acquire(k, _) => k < |s.calls| && s.calls[k].status.Queued? && (k == 0 || s.calls[k - 1].status.Released?)
    case Execute(k, _) => k < |s.calls| && Owns(s.calls[k].status)
    case Finish(k, _, _, _) => k < |s.calls| && Owns(s.calls[k].status)
  }

  ghost function Next(s: State, l: Label): State
    requires Enabled(s, l)
  {
    match l
    case Request(from, kind, statement) =>
      if !ContextActive(s, from) then s.(calls := s.calls + [Call(kind, Queued, [])])
      else if kind.Transaction? then s
      else Perform(s, from.value, statement)
    case Acquire(k, begins) =>
      if s.calls[k].kind.Plain? then Set(s, k, Holding)
      else if !begins then Set(s, k, Released(false))
      else Set(if s.snapshot.None? then s.(snapshot := Some(s.db)) else s, k, InTransaction)
    case Execute(k, statement) => Perform(s, k, statement)
    case Finish(k, succeeded, commits, rollsBack) =>
      if s.calls[k].kind.Plain? then Set(s, k, Released(succeeded))
      else if succeeded && commits then Set(s.(snapshot := None), k, Released(true))
      else RollBack(s, k, rollsBack)
  }

  // ----- one holder at a time, in call order -----

  ghost predicate InOrder(calls: seq<Call>, front: nat) {
    && front <= |calls|
    && (forall i :: 0 <= i < front ==> calls[i].status.Released?)
    && (forall i :: front <= i < |calls| ==> !calls[i].status.Released?)
    && (forall i :: front < i < |calls| ==> calls[i].status.Queued? && calls[i].ran == [])
    && (front < |calls| ==> Consistent(calls[front]))
  }

  ghost predicate Consistent(c: Call) {
    match c.status
    case Queued => c.ran == []
    case Holding => c.kind.Plain?
    case InTransaction => c.kind.Transaction?
    case Released(_) => true
  }

  /** Calls before `front` are released and those after it wait. */
  ghost predicate Chain(s: State) {
    InOrder(s.calls, s.front)
  }

  lemma SetKeepsOrder(calls: seq<Call>, k: nat, status: Status)
    requires InOrder(calls, k) && k < |calls| && !status.Queued? && Consistent(calls[k].(status := status))
    ensures InOrder(calls[k := calls[k].(status := status)], if status.Released? then k + 1 else k)
  {}

  lemma PerformKeepsOrder(calls: seq<Call>, k: nat, ran: seq<Statement>)
    requires InOrder(calls, k) && k < |calls| && Owns(calls[k].status)
    ensures InOrder(calls[k := calls[k].(ran := ran)], k)
  {}

  lemma ChainKept(s: State, l: Label)
    requires Chain(s) && Enabled(s, l)
    ensures Chain(Next(s, l))
  {
    var s' := Next(s, l);
    match l
    case Request(from, kind, statement) =>
      if ContextActive(s, from) && kind.Plain? {
        PerformKeepsOrder(s.calls, s.front, s.calls[s.front].ran + [statement]);
      }
    case Execute(k, statement) => PerformKeepsOrder(s.calls, k, s.calls[k].ran + [statement]);
    case _ => SetKeepsOrder(s.calls, l.k, s'.calls[l.k].status);
  }

  ghost predicate IsRun(db0: Db, run: seq<State>, labels: seq<Label>) {
    && |run| == |labels| + 1 && run[0] == Initial(db0)
    && forall i :: 0 <= i < |labels| ==> Enabled(run[i], labels[i]) && run[i + 1] == Next(run[i], labels[i])
  }

  lemma {:induction false} RunChain(db0: Db, run: seq<State>, labels: seq<Label>, i: nat)
    requires IsRun(db0, run, labels) && i < |run|
    ensures Chain(run[i])
  {
    if i > 0 {
      RunChain(db0, run, labels, i - 1);
      ChainKept(run[i - 1], labels[i - 1]);
    }
  }

  /** The call at the front, if it owns the connection. */
  ghost predicate Owned(s: State) {
    s.front < |s.calls| && Owns(s.calls[s.front].status)
  }

  /** In every run, whoever changes the database, directly or through the re-entrant path, holds the lock, and
      everybody called earlier has released it while everybody called later waits. */
  lemma OnlyTheHolderRuns(db0: Db, run: seq<State>, labels: seq<Label>, i: nat)
    requires IsRun(db0, run, labels) && i < |labels| && run[i + 1].db != run[i].db
    ensures Chain(run[i]) && Owned(run[i])
    ensures match labels[i]
      case Request(from, _, _) => from == Some(run[i].front) && run[i].calls[run[i].front].status.InTransaction?
      case Acquire(_, _) => false
      case Execute(k, _) => k == run[i].front
      case Finish(k, _, _, _) => k == run[i].front
  {
    RunChain(db0, run, labels, i);
  }

  /** In every run, the first unreleased call can acquire the lock or release it, whatever failed before. */
  lemma LockNeverBlocks(db0: Db, run: seq<State>, labels: seq<Label>, i: nat, begins: bool)
    requires IsRun(db0, run, labels) && i < |run| && run[i].front < |run[i].calls|
    ensures var s := run[i];
      if s.calls[s.front].status.Queued? then Enabled(s, Acquire(s.front, begins))
      else
        && Enabled(s, Finish(s.front, true, true, true))
        && Next(s, Finish(s.front, true, true, true)).front == s.front + 1
  {
    RunChain(db0, run, labels, i);
  }

  /** A statement on behalf of call `k`: made by the callback of its transaction through the re-entrant path, or by
      the call itself. */
  ghost predicate StatementOf(s: State, l: Label, k: nat, statement: Statement) {
    && k < |s.calls|
    && ((l == Request(Some(k), Plain, statement) && s.calls[k].status.InTransaction?) || l == Execute(k, statement))
  }

  /** In every run, such a statement executes at once, on the database as it is, for the holder of the lock; it is
      added to what the call ran, and every other call stays as it was. */
  lemma StatementsExecute(db0: Db, run: seq<State>, labels: seq<Label>, i: nat, k: nat, statement: Statement)
    requires IsRun(db0, run, labels) && i < |labels| && StatementOf(run[i], labels[i], k, statement)
    ensures k == run[i].front && run[i + 1].db == statement(run[i].db) && |run[i + 1].calls| == |run[i].calls|
    ensures run[i + 1].calls[k] == run[i].calls[k].(ran := run[i].calls[k].ran + [statement])
    ensures forall c :: 0 <= c < |run[i].calls| && c != k ==> run[i + 1].calls[c] == run[i].calls[c]
  {
    RunChain(db0, run, labels, i);
  }

  /** In every run, a call made outside any running transaction waits at the end of the queue, a transaction nested
      in a running one is refused without effect, and neither touches the database. */
  lemma OtherCallsWait(db0: Db, run: seq<State>, labels: seq<Label>, i: nat, from: Option<nat>, kind: Kind,
      st: Statement)
    requires IsRun(db0, run, labels) && i < |labels| && labels[i] == Request(from, kind, st)
    requires !ContextActive(run[i], from) || kind.Transaction?
    ensures run[i + 1].db == run[i].db && run[i].calls <= run[i + 1].calls
    ensures ContextActive(run[i], from) ==> run[i + 1] == run[i]
    ensures !ContextActive(run[i], from) ==>
      |run[i + 1].calls| == |run[i].calls| + 1 && run[i + 1].calls[|run[i].calls|] == Call(kind, Queued, [])
  {}

  /** In every run, a call that gets the lock owns the connection, unless its BEGIN failed; it is told of success
      exactly when its callback succeeded and, in a transaction, the COMMIT too; and success keeps what it ran. */
  lemma CallersAreToldTheTruth(db0: Db, run: seq<State>, labels: seq<Label>, i: nat, k: nat)
    requires IsRun(db0, run, labels) && i < |labels| && k < |run[i].calls| == |run[i + 1].calls|
    ensures forall begins :: labels[i] == Acquire(k, begins) ==>
      && run[i + 1].db == run[i].db
      && (Owns(run[i + 1].calls[k].status) <==> run[i].calls[k].kind.Plain? || begins)
      && (!Owns(run[i + 1].calls[k].status) ==> run[i + 1].calls[k].status == Released(false))
    ensures forall succeeded, commits, rollsBack :: labels[i] == Finish(k, succeeded, commits, rollsBack) ==>
      && run[i + 1].calls[k].status == Released(succeeded && (run[i].calls[k].kind.Transaction? ==> commits))
      && (run[i + 1].calls[k].status.ok ==>
        run[i + 1].db == run[i].db && run[i + 1].calls[k].ran == run[i].calls[k].ran)
  {}

  // ----- serial equivalence -----

  function RunAll(statements: seq<Statement>, k: nat, db: Db): Db
    requires k <= |statements|
  {
    if k == 0 then db else statements[k - 1](RunAll(statements, k - 1, db))
  }

  /** What a call contributes: all it executed, or nothing when its transaction was rolled back. */
  function Contribution(c: Call): seq<Statement> {
    if c.kind.Transaction? && c.status == Released(false) then [] else c.ran
  }

  /** The database after the calls from `from` up to `n` have run alone, one after another. */
  function Serial(db: Db, calls: seq<Call>, from: nat, n: nat): Db
    requires from <= n <= |calls|
  {
    if n == from then db
    else
      var c := Contribution(calls[n - 1]);
      RunAll(c, |c|, Serial(db, calls, from, n - 1))
  }

  lemma {:induction false} SerialDependsOnPrefix(db: Db, calls: seq<Call>, calls': seq<Call>, from: nat, n: nat)
    requires from <= n <= |calls| && n <= |calls'|
    requires forall i :: from <= i < n ==> Contribution(calls[i]) == Contribution(calls'[i])
    ensures Serial(db, calls, from, n) == Serial(db, calls', from, n)
  {
    if n > from {
      SerialDependsOnPrefix(db, calls, calls', from, n - 1);
    }
  }

  lemma {:induction false} QueuedContributeNothing(db: Db, calls: seq<Call>, from: nat, n: nat, m: nat)
    requires from <= n <= m <= |calls| && forall i :: n <= i < m ==> Contribution(calls[i]) == []
    ensures Serial(db, calls, from, m) == Serial(db, calls, from, n)
  {
    if n < m {
      QueuedContributeNothing(db, calls, from, n, m - 1);
    }
  }

  /** Since `from` calls were released on the database `db0`: a transaction is open exactly while its call
      holds the lock; the snapshot is what the calls since then made; and on top of it only the holder's
      statements have run. */
  ghost predicate Isolated(db0: Db, from: nat, s: State)
    requires s.front <= |s.calls|
  {
    && from <= s.front
    && (s.snapshot.Some? <==> s.front < |s.calls| && s.calls[s.front].status.InTransaction?)
    && (s.snapshot.Some? ==> s.snapshot.value == Serial(db0, s.calls, from, s.front))
    && s.db == if Owned(s)
               then RunAll(s.calls[s.front].ran, |s.calls[s.front].ran|, Serial(db0, s.calls, from, s.front))
               else Serial(db0, s.calls, from, s.front)
  }

  /** The step fails to end a transaction: its ROLLBACK throws. */
  ghost predicate Abandons(s: State, l: Label) {
    && l.Finish? && l.k < |s.calls| && s.calls[l.k].kind.Transaction?
    && !(l.succeeded && l.commits) && !l.rollsBack
  }

  /** The step ends the open transaction, by a COMMIT or by a ROLLBACK. */
  ghost predicate Ends(s: State, l: Label) {
    && l.Finish? && l.k < |s.calls| && s.calls[l.k].kind.Transaction?
    && ((l.succeeded && l.commits) || l.rollsBack)
  }

  lemma PerformIsolated(db0: Db, from: nat, s: State, statement: Statement)
    requires Chain(s) && Isolated(db0, from, s) && Owned(s)
    ensures Isolated(db0, from, Perform(s, s.front, statement))
  {
    var s' := Perform(s, s.front, statement);
    SerialDependsOnPrefix(db0, s.calls, s'.calls, from, s.front);
    var ran := s.calls[s.front].ran;
    RunAllPrefix(ran, ran + [statement], |ran|, Serial(db0, s.calls, from, s.front));
  }

  lemma {:induction false} RunAllPrefix(a: seq<Statement>, b: seq<Statement>, k: nat, db: Db)
    requires k <= |a| && k <= |b| && a[..k] == b[..k]
    ensures RunAll(a, k, db) == RunAll(b, k, db)
  {
    if k > 0 {
      assert a[..k - 1] == a[..k][..k - 1] == b[..k][..k - 1] == b[..k - 1];
      assert a[k - 1] == a[..k][k - 1] == b[..k][k - 1] == b[k - 1];
      RunAllPrefix(a, b, k - 1, db);
    }
  }

  lemma FinishIsolated(db0: Db, from: nat, s: State, l: Label)
    requires Chain(s) && Isolated(db0, from, s) && Enabled(s, l) && l.Finish? && !Abandons(s, l)
    ensures Chain(Next(s, l)) && Isolated(db0, from, Next(s, l))
  {
    ChainKept(s, l);
    var s' := Next(s, l);
    SerialDependsOnPrefix(db0, s.calls, s'.calls, from, s.front);
    assert s'.front == s.front + 1;
    assert Serial(db0, s'.calls, from, s'.front) == s'.db;
  }

  lemma AcquireIsolated(db0: Db, from: nat, s: State, l: Label)
    requires Chain(s) && Isolated(db0, from, s) && Enabled(s, l) && l.Acquire?
    ensures Chain(Next(s, l)) && Isolated(db0, from, Next(s, l))
  {
    ChainKept(s, l);
    SerialDependsOnPrefix(db0, s.calls, Next(s, l).calls, from, s.front);
  }

  lemma EnqueueIsolated(db0: Db, from: nat, s: State, kind: Kind)
    requires Chain(s) && Isolated(db0, from, s)
    ensures Isolated(db0, from, s.(calls := s.calls + [Call(kind, Queued, [])]))
  {
    SerialDependsOnPrefix(db0, s.calls, s.calls + [Call(kind, Queued, [])], from, s.front);
  }

  lemma IsolatedKept(db0: Db, from: nat, s: State, l: Label)
    requires Chain(s) && Isolated(db0, from, s) && Enabled(s, l) && !Abandons(s, l)
    ensures Chain(Next(s, l)) && Isolated(db0, from, Next(s, l))
  {
    ChainKept(s, l);
    match l
    case Request(from', kind, statement) =>
      if !ContextActive(s, from') {
        EnqueueIsolated(db0, from, s, kind);
      } else if kind.Plain? {
        PerformIsolated(db0, from, s, statement);
      }
    case Acquire(_, _) => AcquireIsolated(db0, from, s, l);
    case Execute(k, statement) => PerformIsolated(db0, from, s, statement);
    case Finish(_, _, _, _) => FinishIsolated(db0, from, s, l);
  }

  /** No call owns the connection and no transaction is open on it: so it is at the start, after every release
      before the first ROLLBACK that throws, and again once an abandoned transaction has ended. */
  ghost predicate Quiet(s: State) {
    !Owned(s) && s.snapshot.None?
  }

  /** From any quiet moment on, until a ROLLBACK throws, transactions are isolated. */
  lemma {:induction false} RunIsolated(db0: Db, run: seq<State>, labels: seq<Label>, i: nat, j: nat)
    requires IsRun(db0, run, labels) && i <= j < |run| && Quiet(run[i])
    requires forall m :: i <= m < j ==> !Abandons(run[m], labels[m])
    ensures Chain(run[j]) && Isolated(run[i].db, run[i].front, run[j])
    decreases j
  {
    RunChain(db0, run, labels, j);
    if i < j {
      RunIsolated(db0, run, labels, i, j - 1);
      IsolatedKept(run[i].db, run[i].front, run[j - 1], labels[j - 1]);
    }
  }

  /** Serial equivalence: from any quiet moment on, until a ROLLBACK throws, the database is what the calls
      since then produce when they run alone in call order on the database of that moment, a rolled-back
      transaction counting for nothing. */
  lemma SerialEquivalence(db0: Db, run: seq<State>, labels: seq<Label>, i: nat, j: nat)
    requires IsRun(db0, run, labels) && i <= j < |run| && Quiet(run[i])
    requires forall m :: i <= m < j ==> !Abandons(run[m], labels[m])
    ensures run[i].front <= |run[j].calls|
    ensures run[j].db == Serial(run[i].db, run[j].calls, run[i].front, |run[j].calls|)
  {
    RunIsolated(db0, run, labels, i, j);
    var s := run[j];
    var done := if Owned(s) then s.front + 1 else s.front;
    QueuedContributeNothing(run[i].db, s.calls, run[i].front, done, |s.calls|);
  }

  // ----- abandoned transactions -----

  ghost predicate FrontInTransaction(s: State) {
    s.front < |s.calls| && s.calls[s.front].status.InTransaction?
  }

  /** Some ROLLBACK threw, and no transaction has ended since. */
  ghost predicate AbandonedBefore(run: seq<State>, labels: seq<Label>, i: nat)
    requires i <= |labels| < |run|
  {
    exists m :: 0 <= m < i && AbandonedAt(run, labels, m, i)
  }

  ghost predicate AbandonedAt(run: seq<State>, labels: seq<Label>, m: nat, i: nat)
    requires m < i <= |labels| < |run|
  {
    Abandons(run[m], labels[m]) && forall q :: m < q < i ==> !Ends(run[q], labels[q])
  }

  lemma SnapshotStep(s: State, l: Label)
    requires Chain(s) && Enabled(s, l) && (FrontInTransaction(s) ==> s.snapshot.Some?)
    ensures FrontInTransaction(Next(s, l)) ==> Next(s, l).snapshot.Some?
    ensures Ends(s, l) ==> Next(s, l).snapshot.None? && !FrontInTransaction(Next(s, l))
    ensures !Ends(s, l) && s.snapshot.Some? ==> Next(s, l).snapshot == s.snapshot
    ensures Abandons(s, l) ==> Next(s, l).snapshot.Some?
    ensures Next(s, l).snapshot.Some? && s.snapshot.None? ==> FrontInTransaction(Next(s, l))
    ensures FrontInTransaction(s) && !FrontInTransaction(Next(s, l)) ==> Ends(s, l) || Abandons(s, l)
  {
    ChainKept(s, l);
  }

  lemma LaterAbandoned(run: seq<State>, labels: seq<Label>, i: nat)
    requires i < |labels| < |run|
    ensures AbandonedBefore(run, labels, i + 1) <==>
      (Abandons(run[i], labels[i]) || (AbandonedBefore(run, labels, i) && !Ends(run[i], labels[i])))
  {
    if AbandonedBefore(run, labels, i) && !Ends(run[i], labels[i]) {
      var m :| 0 <= m < i && AbandonedAt(run, labels, m, i);
      assert AbandonedAt(run, labels, m, i + 1);
    }
    if Abandons(run[i], labels[i]) {
      assert AbandonedAt(run, labels, i, i + 1);
    }
    if AbandonedBefore(run, labels, i + 1) && !Abandons(run[i], labels[i]) {
      var m :| 0 <= m < i + 1 && AbandonedAt(run, labels, m, i + 1);
      assert AbandonedAt(run, labels, m, i);
    }
  }

  /** A transaction is open exactly while its call runs or after a ROLLBACK threw with none ended since. */
  lemma {:induction false} OpenExactly(db0: Db, run: seq<State>, labels: seq<Label>, i: nat)
    requires IsRun(db0, run, labels) && i < |run|
    ensures run[i].snapshot.Some? <==> FrontInTransaction(run[i]) || AbandonedBefore(run, labels, i)
  {
    if i > 0 {
      OpenExactly(db0, run, labels, i - 1);
      RunChain(db0, run, labels, i - 1);
      SnapshotStep(run[i - 1], labels[i - 1]);
      LaterAbandoned(run, labels, i - 1);
    }
  }

  lemma TransactionStep(s: State, l: Label, k: nat)
    requires Chain(s) && Enabled(s, l) && k < |s.calls|
    ensures k < |Next(s, l).calls| && Next(s, l).calls[k].kind == s.calls[k].kind
    ensures s.calls[k].status.Released? ==> Next(s, l).calls[k].status.Released?
    ensures s.calls[k].status.InTransaction? && !Next(s, l).calls[k].status.Released? ==>
      Next(s, l).calls[k].status.InTransaction? && Next(s, l).snapshot == s.snapshot
  {}

  /** While a transaction runs, the snapshot it found or made stays. */
  lemma {:induction false} SnapshotStays(db0: Db, run: seq<State>, labels: seq<Label>, b: nat, i: nat, k: nat)
    requires IsRun(db0, run, labels) && b < i < |run| && labels[b] == Acquire(k, true)
    requires k < |run[b].calls| && run[b].calls[k].kind.Transaction?
    ensures k < |run[i].calls| && run[i].calls[k].kind.Transaction?
    ensures run[i].calls[k].status.Released? ||
      (run[i].calls[k].status.InTransaction?
       && run[i].snapshot == Some(if run[b].snapshot.None? then run[b].db else run[b].snapshot.value))
    decreases i
  {
    if b + 1 < i {
      SnapshotStays(db0, run, labels, b, i - 1, k);
      RunChain(db0, run, labels, i - 1);
      TransactionStep(run[i - 1], labels[i - 1], k);
    }
  }

  /** What a failed transaction leaves, exactly. When its ROLLBACK works, the database is as it was at BEGIN if
      and only if no abandoned transaction was open then, or the open one had changed nothing. When its
      ROLLBACK throws, if and only if its own statements changed nothing. */
  lemma RollbackRestores(db0: Db, run: seq<State>, labels: seq<Label>, b: nat, i: nat, k: nat)
    requires IsRun(db0, run, labels) && b < i < |labels| && labels[b] == Acquire(k, true)
    requires k < |run[b].calls| && run[b].calls[k].kind.Transaction?
    requires labels[i].Finish? && labels[i].k == k && !(labels[i].succeeded && labels[i].commits)
    ensures run[i + 1].db == run[b].db <==>
      if labels[i].rollsBack then run[b].snapshot.None?
        || run[b].snapshot.value == run[b].db else run[i].db == run[b].db
    ensures run[b].snapshot.Some? <==> AbandonedBefore(run, labels, b)
  {
    RunChain(db0, run, labels, b);
    OpenExactly(db0, run, labels, b);
    SnapshotStays(db0, run, labels, b, i, k);
  }

  /** When a ROLLBACK throws, the abandoned writes stay: a refused transaction is visible to the next caller. */
  lemma FailedRollbackLeaks() returns (run: seq<State>, labels: seq<Label>)
    ensures IsRun(map[], run, labels) && AbandonedBefore(run, labels, |labels|)
    ensures run[|labels|].db != Serial(map[], run[|labels|].calls, 0, |run[|labels|].calls|)
  {
    var write: Statement := db => db["k" := "v"];
    labels := [Request(None, Transaction, write), Acquire(0, true), Execute(0, write), Finish(0, false, false, false)];
    var s0 := Initial(map[]);
    var s1 := Next(s0, labels[0]);
    var s2 := Next(s1, labels[1]);
    var s3 := Next(s2, labels[2]);
    var s4 := Next(s3, labels[3]);
    run := [s0, s1, s2, s3, s4];
    assert AbandonedAt(run, labels, 3, 4);
    assert "k" in s4.db;
    assert s4.calls[0].status == Released(false) && Contribution(s4.calls[0]) == [];
    assert Serial(map[], s4.calls, 0, 0) == map[];
  }

  function WriteV(db: Db): Db {
    db["k" := "v"]
  }

  const Refused := Call(Transaction, Released(false), [])

  function LostLabels(): seq<Label> {
    [Request(None, Transaction, WriteV), Acquire(0, true), Finish(0, false, false, false),
     Request(None, Plain, WriteV), Acquire(1, true), Execute(1, WriteV), Finish(1, true, true, true),
     Request(None, Transaction, WriteV), Acquire(2, true), Finish(2, false, false, true)]
  }

  function LostRun(): seq<State> {
    var empty, written, open := map[], map["k" := "v"], Some(map[]);
    var done := Call(Plain, Released(true), [WriteV]);
    [State([], empty, None, 0),
     State([Call(Transaction, Queued, [])], empty, None, 0),
     State([Call(Transaction, InTransaction, [])], empty, open, 0),
     State([Refused], empty, open, 1),
     State([Refused, Call(Plain, Queued, [])], empty, open, 1),
     State([Refused, Call(Plain, Holding, [])], empty, open, 1),
     State([Refused, Call(Plain, Holding, [WriteV])], written, open, 1),
     State([Refused, done], written, open, 2),
     State([Refused, done, Call(Transaction, Queued, [])], written, open, 2),
     State([Refused, done, Call(Transaction, InTransaction, [])], written, open, 2),
     State([Refused, done, Refused], empty, None, 3)]
  }

  lemma LostRunStep(i: nat)
    requires i < 10
    ensures Enabled(LostRun()[i], LostLabels()[i]) && LostRun()[i + 1] == Next(LostRun()[i], LostLabels()[i])
  {
    var s, s' := LostRun()[i], Next(LostRun()[i], LostLabels()[i]);
    if i == 5 {
      var empty: seq<Statement> := [];
      assert empty + [WriteV] == [WriteV] && s'.db == WriteV(map[]) == map["k" := "v"];
      assert s'.calls == LostRun()[6].calls;
    } else {
      assert i in {0, 1, 2, 3, 4, 6, 7, 8, 9};
      assert s'.calls == LostRun()[i + 1].calls;
    }
  }

  /** Worse, a write that was acknowledged is undone: after a ROLLBACK threw, a plain call writes inside the
      abandoned transaction and is released as successful, and the working ROLLBACK of a later transaction
      takes the write away. */
  lemma AcknowledgedWriteIsLost() returns (run: seq<State>, labels: seq<Label>)
    ensures IsRun(map[], run, labels) && |labels| == 10
    ensures |run[7].calls| == 2 && |run[10].calls| == 3 && run[10].calls[1] == run[7].calls[1]
    ensures run[7].calls[1].kind.Plain? && run[7].calls[1].status == Released(true) && run[7].db == map["k" := "v"]
    ensures labels[9] == Finish(2, false, false, true) && run[10].db == map[]
  {
    run, labels := LostRun(), LostLabels();
    forall i | 0 <= i < |labels| ensures Enabled(run[i], labels[i]) && run[i + 1] == Next(run[i], labels[i]) {
      LostRunStep(i);
    }
  }
}
