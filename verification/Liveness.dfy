/** The validator liveness collector: poll rounds, all-or-nothing appends, pruning and restarts. */
module Liveness {
  import opened Wrappers

  // ----- observations -----

  datatype Status = Hit | Late | Miss

  datatype View = View(reachable: bool, height: Option<int>)

  /** Classify one polled view against the height of the validator's previous observation. */
  function Classify(view: View, previous: Option<int>): Status {
    if !view.reachable || view.height.None? then Miss
    else if previous.None? then Late
    else if view.height.value > previous.value then Hit
    else Late
  }

  datatype Row = Row(validator: string, round: nat, at: int, status: Status, height: Option<int>, previous: Option<int>)

  /** A stored row. Both lists are history: `basis` holds the rows stored before it, as far back as its process
      read the table, and `acknowledged` those of them that its process knew about. */
  datatype Stored = Stored(row: Row, basis: seq<Row>, acknowledged: seq<Row>)

  // ----- what the table says -----

  /** Highest round ordinal, or 0 for an empty table. */
  function MaxRound(table: seq<Stored>): nat {
    if table == [] then 0
    else
      var rest, r := MaxRound(table[..|table| - 1]), table[|table| - 1].row.round;
      if r > rest then r else rest
  }

  /** Of the validator's rows with a height, one with the highest round ordinal. */
  function HighestRow(table: seq<Stored>, v: string): Option<Row> {
    if table == [] then None
    else
      var rest, r := HighestRow(table[..|table| - 1], v), table[|table| - 1].row;
      if r.validator != v || r.height.None? then rest
      else if rest.None? || r.round >= rest.value.round then Some(r) else rest
  }

  /** The height in the latest row of `log` that has one for `v`. */
  function LatestHeight(log: seq<Row>, v: string): Option<int> {
    if log == [] then None
    else
      var r := log[|log| - 1];
      if r.validator == v && r.height.Some? then r.height else LatestHeight(log[..|log| - 1], v)
  }

  function RowsOf(table: seq<Stored>): seq<Row> {
    seq(|table|, i requires 0 <= i < |table| => table[i].row)
  }

  // ----- the collector -----

  /** Where the round in flight is: reading the store, polling, or writing. */
  datatype Stage = Priming | Polling | Appending(rows: seq<Row>) | Pruning

  /** `log` and `acked` are history of the current process: the rows it read when it primed with those stored
      since, and with those stored since whose append was acknowledged. */
  datatype State = State(
    table: seq<Stored>,
    primed: bool, nextRound: nat, last: map<string, int>, round: Option<Stage>, skipped: nat,
    log: seq<Row>, acked: seq<Row>)

  datatype Outcome = Done | StoredButThrows | LostAndThrows

  datatype Label =
    | Fire
    | Prime(readable: bool)
    | Poll(views: seq<View>, at: int)
    | Append(outcome: Outcome)
    | Prune(before: int, works: bool)
    | Restart

  function Initial(): State {
    State([], false, 1, map[], None, 0, [], [])
  }

  function Known(last: map<string, int>, v: string): Option<int> {
    if v in last then Some(last[v]) else None
  }

  /** The rows of one round: one per validator, compared with the heights known so far. */
  function RowsFor(ids: seq<string>, views: seq<View>, k: nat, round: nat, at: int, last: map<string, int>): seq<Row>
    requires k <= |ids| == |views|
  {
    if k == 0 then []
    else
      var previous := Known(last, ids[k - 1]);
      RowsFor(ids, views, k - 1, round, at, last)
        + [Row(ids[k - 1], round, at, Classify(views[k - 1], previous), views[k - 1].height, previous)]
  }

  predicate Conflicts(table: seq<Stored>, r: Row) {
    exists i :: 0 <= i < |table| && table[i].row.validator == r.validator && table[i].row.round == r.round
  }

  /** Append that ignores rows whose validator and round are already present. */
  function AppendRows(table: seq<Stored>, rows: seq<Row>, k: nat, log: seq<Row>, acked: seq<Row>): seq<Stored>
    requires k <= |rows|
  {
    if k == 0 then table
    else
      var t := AppendRows(table, rows, k - 1, log, acked);
      if Conflicts(t, rows[k - 1]) then t else t + [Stored(rows[k - 1], log, acked)]
  }

  function Advanced(last: map<string, int>, rows: seq<Row>, k: nat): map<string, int>
    requires k <= |rows|
  {
    if k == 0 then last
    else
      var m := Advanced(last, rows, k - 1);
      if rows[k - 1].height.Some? then m[rows[k - 1].validator := rows[k - 1].height.value] else m
  }

  /** Seed the baseline with the latest stored height of every validator that has one. */
  function Seeded(ids: set<string>, table: seq<Stored>, last: map<string, int>): map<string, int> {
    map v | v in last.Keys + ids && (v in last || HighestRow(table, v).Some?) ::
      match HighestRow(table, v) case Some(r) => (if r.height.Some? then r.height.value else 0) case None => last[v]
  }

  function Validators(table: seq<Stored>): set<string> {
    set i | 0 <= i < |table| :: table[i].row.validator
  }

  function Kept(table: seq<Stored>, before: int): seq<Stored> {
    if table == [] then []
    else Kept(table[..|table| - 1], before) + if table[|table| - 1].row.at < before then [] else [table[|table| - 1]]
  }

  ghost predicate Enabled(ids: seq<string>, s: State, l: Label) {
    match l
    case Fire => true
    case Prime(_) => s.round == Some(Priming)
    case Poll(views, _) => s.round == Some(Polling) && |views| == |ids|
    case Append(_) => s.round.Some? && s.round.value.Appending?
    case Prune(_, _) => s.round == Some(Pruning)
    case Restart => true
  }

  ghost function Next(ids: seq<string>, s: State, l: Label): State
    requires Enabled(ids, s, l)
  {
    match l
    case Fire =>
      if s.round.Some? then s.(skipped := s.skipped + 1)
      else s.(round := Some(if s.primed then Polling else Priming))
    case Prime(readable) =>
      if !readable then s.(round := None)
      else s.(primed := true, nextRound := MaxRound(s.table) + 1, last := Seeded(Validators(s.table), s.table, s.last),
              round := Some(Polling), log := RowsOf(s.table), acked := RowsOf(s.table))
    case Poll(views, at) =>
      s.(nextRound := s.nextRound + 1, round := Some(Appending(RowsFor(ids, views, |ids|, s.nextRound, at, s.last))))
    case Append(outcome) =>
      var rows := s.round.value.rows;
      (match outcome
       case LostAndThrows => s.(round := None)
       case StoredButThrows =>
         s.(table := AppendRows(s.table, rows, |rows|, s.log, s.acked), log := s.log + rows, round := None)
       case Done =>
         s.(table := AppendRows(s.table, rows, |rows|, s.log, s.acked), log := s.log + rows, acked := s.acked + rows,
            last := Advanced(s.last, rows, |rows|), round := Some(Pruning)))
    case Prune(before, works) => s.(table := if works then Kept(s.table, before) else s.table, round := None)
    case Restart => s.(primed := false, nextRound := 1, last := map[], round := None, skipped := 0, log := [],
      acked := [])
  }

  // ----- the honest history -----

  /** Rounds never go back in the table, and one validator never has two rows of a round. */
  ghost predicate Ordered(table: seq<Stored>) {
    && (forall i, j :: 0 <= i < j < |table| ==> table[i].row.round <= table[j].row.round)
    && (forall i, j :: 0 <= i < j < |table| && table[i].row.validator == table[j].row.validator ==>
          table[i].row.round < table[j].row.round)
  }

  /** The row compares with the latest earlier stored height of its validator. */
  ghost predicate Honest(t: Stored) {
    t.row.previous == LatestHeight(t.basis, t.row.validator)
  }

  /** What every stored row satisfies: it compares with the latest height its process knew, all of which were
      stored before it, and a hit has a height strictly above that one. */
  ghost predicate Compared(t: Stored) {
    && t.row.previous == LatestHeight(t.acknowledged, t.row.validator)
    && (t.row.status == Hit ==> t.row.height.Some? && t.row.previous.Some? && t.row.height.value > t.row.previous.value)
    && Within(t.acknowledged, t.basis)
  }

  ghost predicate Within(a: seq<Row>, b: seq<Row>) {
    forall i :: 0 <= i < |a| ==> a[i] in b
  }

  ghost predicate BelowRound(table: seq<Stored>, round: nat) {
    forall i :: 0 <= i < |table| ==> table[i].row.round < round
  }

  /** The rows about to be written belong to a fresh round and compare with the acknowledged rows. */
  ghost predicate Prepared(ids: seq<string>, s: State, rows: seq<Row>) {
    && |rows| == |ids| && s.nextRound > 0 && BelowRound(s.table, s.nextRound - 1)
    && forall i :: 0 <= i < |rows| ==>
         && rows[i].validator == ids[i] && rows[i].round == s.nextRound - 1
         && Compared(Stored(rows[i], s.log, s.acked))
  }

  ghost predicate Inv(ids: seq<string>, s: State) {
    && Ordered(s.table)
    && (forall i :: 0 <= i < |s.table| ==> Compared(s.table[i]))
    && Within(s.acked, s.log)
    && (s.primed ==> BelowRound(s.table, s.nextRound))
    && (s.primed ==> forall v :: Known(s.last, v) == LatestHeight(s.acked, v))
    && (!s.primed ==> s.last == map[] && (s.round.None? || s.round == Some(Priming)))
    && (s.round == Some(Priming) ==> !s.primed)
    && (s.round.Some? && s.round.value.Appending? ==> s.primed && Prepared(ids, s, s.round.value.rows))
  }

  ghost predicate DistinctIds(ids: seq<string>) {
    forall i, j :: 0 <= i < j < |ids| ==> ids[i] != ids[j]
  }

  lemma {:induction false} MaxRoundBounds(table: seq<Stored>)
    ensures BelowRound(table, MaxRound(table) + 1)
  {
    if table != [] {
      MaxRoundBounds(table[..|table| - 1]);
    }
  }

  /** The row with the highest ordinal is the latest one, because rounds never go back. */
  lemma {:induction false} HighestIsLatest(table: seq<Stored>, v: string)
    requires Ordered(table)
    ensures match HighestRow(table, v)
      case None => LatestHeight(RowsOf(table), v) == None
      case Some(r) =>
        && r.height.Some? && r.validator == v && LatestHeight(RowsOf(table), v) == r.height
        && exists i :: 0 <= i < |table| && table[i].row == r
  {
    if table != [] {
      var init := table[..|table| - 1];
      HighestIsLatest(init, v);
      assert RowsOf(table)[..|table| - 1] == RowsOf(init);
      if HighestRow(init, v).Some? {
        var i :| 0 <= i < |init| && init[i].row == HighestRow(init, v).value;
        assert table[i].row.round <= table[|table| - 1].row.round;
      }
    }
  }

  lemma SeededIsLatest(table: seq<Stored>, v: string)
    requires Ordered(table)
    ensures Known(Seeded(Validators(table), table, map[]), v) == LatestHeight(RowsOf(table), v)
  {
    HighestIsLatest(table, v);
    if HighestRow(table, v).Some? {
      var i :| 0 <= i < |table| && table[i].row == HighestRow(table, v).value;
      assert v in Validators(table);
    }
  }

  lemma {:induction false} RowsForAt(ids: seq<string>, views: seq<View>, k: nat, round: nat, at: int,
      last: map<string, int>)
    requires k <= |ids| == |views|
    ensures |RowsFor(ids, views, k, round, at, last)| == k
    ensures forall i :: 0 <= i < k ==>
      var r := RowsFor(ids, views, k, round, at, last)[i];
      r.validator == ids[i] && r.round == round && r.at == at && r.previous == Known(last, ids[i])
        && r.status == Classify(views[i], r.previous) && r.height == views[i].height
  {
    if k > 0 {
      RowsForAt(ids, views, k - 1, round, at, last);
    }
  }

  lemma NextRowIsFresh(table: seq<Stored>, stored: seq<Stored>, row: Row, round: nat)
    requires BelowRound(table, round) && row.round == round
    requires forall i :: 0 <= i < |stored| ==> stored[i].row.round == round && stored[i].row.validator != row.validator
    ensures !Conflicts(table + stored, row)
  {}

  /** A fresh round conflicts with nothing, so the whole round is stored, in order. */
  lemma {:induction false} FreshRoundIsStored(
    table: seq<Stored>, rows: seq<Row>, k: nat, log: seq<Row>, acked: seq<Row>, round: nat)
    requires k <= |rows| && Ordered(table) && BelowRound(table, round)
    requires forall i :: 0 <= i < |rows| ==> rows[i].round == round
    requires forall i, j :: 0 <= i < j < |rows| ==> rows[i].validator != rows[j].validator
    ensures AppendRows(table, rows, k, log, acked) == table + StoredRows(rows, k, log, acked)
    ensures Ordered(AppendRows(table, rows, k, log, acked))
    ensures BelowRound(AppendRows(table, rows, k, log, acked), round + 1)
  {
    if k > 0 {
      FreshRoundIsStored(table, rows, k - 1, log, acked, round);
      var before := StoredRows(rows, k - 1, log, acked);
      NextRowIsFresh(table, before, rows[k - 1], round);
      NextRowKeepsOrder(table + before, Stored(rows[k - 1], log, acked), round);
      assert StoredRows(rows, k, log, acked) == before + [Stored(rows[k - 1], log, acked)];
      assert table + before + [Stored(rows[k - 1], log, acked)] == table + StoredRows(rows, k, log, acked);
    }
  }

  lemma NextRowKeepsOrder(table: seq<Stored>, t: Stored, round: nat)
    requires Ordered(table) && BelowRound(table, round + 1) && t.row.round == round && !Conflicts(table, t.row)
    ensures Ordered(table + [t]) && BelowRound(table + [t], round + 1)
  {}

  function StoredRows(rows: seq<Row>, k: nat, log: seq<Row>, acked: seq<Row>): seq<Stored>
    requires k <= |rows|
  {
    seq(k, i requires 0 <= i < k => Stored(rows[i], log, acked))
  }

  lemma {:induction false} AdvancedIsLatest(last: map<string, int>, log: seq<Row>, rows: seq<Row>, k: nat, v: string)
    requires k <= |rows| && Known(last, v) == LatestHeight(log, v)
    ensures Known(Advanced(last, rows, k), v) == LatestHeight(log + rows[..k], v)
  {
    if k > 0 {
      AdvancedIsLatest(last, log, rows, k - 1, v);
      assert (log + rows[..k])[..|log| + k - 1] == log + rows[..k - 1];
    } else {
      assert log + rows[..0] == log;
    }
  }

  lemma {:induction false} KeptIsStored(table: seq<Stored>, before: int)
    ensures forall i :: 0 <= i < |Kept(table, before)| ==> Kept(table, before)[i] in table
  {
    if table != [] {
      KeptIsStored(table[..|table| - 1], before);
    }
  }

  lemma BeforeLast(table: seq<Stored>, x: Stored)
    requires table != [] && Ordered(table) && x in table[..|table| - 1]
    ensures x.row.round <= table[|table| - 1].row.round
    ensures x.row.validator == table[|table| - 1].row.validator ==> x.row.round < table[|table| - 1].row.round
  {
    var j :| 0 <= j < |table| - 1 && table[..|table| - 1][j] == x;
    assert table[j] == x;
  }

  lemma {:induction false} KeptIsOrdered(table: seq<Stored>, before: int)
    requires Ordered(table)
    ensures Ordered(Kept(table, before))
  {
    if table != [] {
      var init, last := table[..|table| - 1], table[|table| - 1];
      KeptIsOrdered(init, before);
      KeptIsStored(init, before);
      var kept := Kept(init, before);
      forall i | 0 <= i < |kept|
        ensures kept[i].row.round <= last.row.round
        ensures kept[i].row.validator == last.row.validator ==> kept[i].row.round < last.row.round
      {
        BeforeLast(table, kept[i]);
      }
    }
  }

  lemma PrimeKept(ids: seq<string>, s: State, l: Label)
    requires Inv(ids, s) && Enabled(ids, s, l) && l.Prime?
    ensures Inv(ids, Next(ids, s, l))
  {
    MaxRoundBounds(s.table);
    if l.readable && !s.primed {
      forall v ensures Known(Next(ids, s, l).last, v) == LatestHeight(RowsOf(s.table), v) {
        SeededIsLatest(s.table, v);
      }
    }
  }

  lemma PollKept(ids: seq<string>, s: State, l: Label)
    requires Inv(ids, s) && Enabled(ids, s, l) && l.Poll?
    ensures Inv(ids, Next(ids, s, l))
  {
    RowsForAt(ids, l.views, |ids|, s.nextRound, l.at, s.last);
  }

  lemma AppendKept(ids: seq<string>, s: State, l: Label)
    requires Inv(ids, s) && Enabled(ids, s, l) && l.Append? && DistinctIds(ids)
    ensures Inv(ids, Next(ids, s, l))
  {
    var rows := s.round.value.rows;
    FreshRoundIsStored(s.table, rows, |rows|, s.log, s.acked, s.nextRound - 1);
    var s' := Next(ids, s, l);
    if l.outcome.Done? {
      forall v ensures Known(s'.last, v) == LatestHeight(s'.acked, v) {
        AdvancedIsLatest(s.last, s.acked, rows, |rows|, v);
        assert rows[..|rows|] == rows;
      }
    }
  }

  lemma PruneKept(ids: seq<string>, s: State, l: Label)
    requires Inv(ids, s) && Enabled(ids, s, l) && l.Prune?
    ensures Inv(ids, Next(ids, s, l))
  {
    KeptIsStored(s.table, l.before);
    KeptIsOrdered(s.table, l.before);
    var kept := Kept(s.table, l.before);
    forall i | 0 <= i < |kept| ensures Compared(kept[i]) && (s.primed ==> kept[i].row.round < s.nextRound) {
      assert kept[i] in s.table;
    }
  }

  lemma InvKept(ids: seq<string>, s: State, l: Label)
    requires Inv(ids, s) && Enabled(ids, s, l) && DistinctIds(ids)
    ensures Inv(ids, Next(ids, s, l))
  {
    if l.Prime? {
      PrimeKept(ids, s, l);
    } else if l.Poll? {
      PollKept(ids, s, l);
    } else if l.Append? {
      AppendKept(ids, s, l);
    } else if l.Prune? {
      PruneKept(ids, s, l);
    }
  }

  ghost predicate IsRun(ids: seq<string>, run: seq<State>, labels: seq<Label>) {
    && |run| == |labels| + 1 && run[0] == Initial() && DistinctIds(ids)
    && forall i :: 0 <= i < |labels| ==> Enabled(ids, run[i], labels[i]) && run[i + 1] == Next(ids, run[i], labels[i])
  }

  lemma {:induction false} RunInv(ids: seq<string>, run: seq<State>, labels: seq<Label>, i: nat)
    requires IsRun(ids, run, labels) && i < |run|
    ensures Inv(ids, run[i])
  {
    if i > 0 {
      RunInv(ids, run, labels, i - 1);
      InvKept(ids, run[i - 1], labels[i - 1]);
    }
  }

  lemma {:induction false} LatestIsStored(log: seq<Row>, v: string)
    requires LatestHeight(log, v).Some?
    ensures exists i :: 0 <= i < |log| && log[i].validator == v && log[i].height == LatestHeight(log, v)
  {
    var r := log[|log| - 1];
    if r.validator != v || r.height.None? {
      LatestIsStored(log[..|log| - 1], v);
    }
  }

  lemma HitIsWitnessed(t: Stored)
    requires Compared(t) && t.row.status == Hit
    ensures Witnessed(t)
  {
    LatestIsStored(t.acknowledged, t.row.validator);
    var i :| 0 <= i < |t.acknowledged| && t.acknowledged[i].validator == t.row.validator
      && t.acknowledged[i].height == LatestHeight(t.acknowledged, t.row.validator);
    var r := t.acknowledged[i];
    assert r in t.basis;
    var j :| 0 <= j < |t.basis| && t.basis[j] == r;
    assert Exceeds(t.row, t.basis[j]);
  }

  /** Over any run of rounds, appends with any outcome, skipped ticks, prunes and restarts: the ordinals of a
      validator's rows strictly increase, every hit witnesses a strict increase over a row that was stored
      before, and a row compares with the latest earlier stored height if and only if that is the latest
      height its process knew. */
  lemma HistoryIsHonest(ids: seq<string>, run: seq<State>, labels: seq<Label>, i: nat, j: nat)
    requires IsRun(ids, run, labels) && i < |run| && j < |run[i].table|
    ensures Ordered(run[i].table)
    ensures var t := run[i].table[j];
      && Compared(t) && (t.row.status == Hit ==> Witnessed(t))
      && (Honest(t) <==> LatestHeight(t.basis, t.row.validator) == LatestHeight(t.acknowledged, t.row.validator))
  {
    RunInv(ids, run, labels, i);
    var t := run[i].table[j];
    assert Compared(t);
    if t.row.status == Hit {
      HitIsWitnessed(t);
    }
  }

  /** The process knows all rows stored since it read the table. */
  ghost predicate UpToDate(s: State) {
    s.log == s.acked
  }

  /** The step stores rows and reports that it did not. */
  predicate Ambiguous(l: Label) {
    l == Append(StoredButThrows)
  }

  /** A process is up to date when it starts and when it reads the table, and stays so until an append is
      stored and yet reported as failed. */
  lemma {:induction false} UpToDateUntilAmbiguous(
    ids: seq<string>, run: seq<State>, labels: seq<Label>, i: nat, j: nat)
    requires IsRun(ids, run, labels) && i <= j < |run|
    requires i == 0 || labels[i - 1] == Restart || labels[i - 1] == Prime(true)
    requires forall m :: i <= m < j ==> !Ambiguous(labels[m])
    ensures UpToDate(run[j])
    decreases j
  {
    if i < j {
      UpToDateUntilAmbiguous(ids, run, labels, i, j - 1);
      assert !Ambiguous(labels[j - 1]);
    }
  }

  /** So every row that a process stores before its first ambiguous append is honest, whatever earlier
      processes went through. */
  lemma HonestUntilAmbiguous(ids: seq<string>, run: seq<State>, labels: seq<Label>, i: nat, j: nat, k: nat)
    requires IsRun(ids, run, labels) && i <= j < |labels| && labels[j].Append? && !labels[j].outcome.LostAndThrows?
    requires i == 0 || labels[i - 1] == Restart || labels[i - 1] == Prime(true)
    requires forall m :: i <= m < j ==> !Ambiguous(labels[m])
    requires |run[j].table| <= k < |run[j + 1].table|
    ensures Honest(run[j + 1].table[k])
  {
    UpToDateUntilAmbiguous(ids, run, labels, i, j);
    RunInv(ids, run, labels, j);
    StoredWith(ids, run[j], labels[j], k);
  }

  // ----- what the rows of a round say -----

  /** The view answered with this height. */
  predicate Answered(view: View, height: int) {
    view.reachable && view.height == Some(height)
  }

  /** In every run, a poll makes one row per validator, in order, compared with the baseline. It is a miss exactly when
      the view did not answer with a height, a hit exactly when it answered above the height compared with, and late
      exactly when it answered without one to compare with or not above it. */
  lemma RowsSayWhatWasSeen(ids: seq<string>, run: seq<State>, labels: seq<Label>, i: nat, k: nat)
    requires IsRun(ids, run, labels) && i < |labels| && labels[i].Poll? && k < |ids|
    ensures run[i + 1].round.Some? && run[i + 1].round.value.Appending? && |run[i + 1].round.value.rows| == |ids|
    ensures var row, view := run[i + 1].round.value.rows[k], labels[i].views[k];
      && row.validator == ids[k] && row.round == run[i].nextRound && row.at == labels[i].at
      && row.height == view.height && row.previous == Known(run[i].last, ids[k])
      && (row.status == Miss <==> forall h :: !Answered(view, h))
      && (row.status == Hit <==> exists h, p :: Answered(view, h) && row.previous == Some(p) && h > p)
      && (row.status == Late <==> exists h :: Answered(view, h) && forall p :: row.previous == Some(p) ==> h <= p)
  {
    RowsForAt(ids, labels[i].views, |ids|, run[i].nextRound, labels[i].at, run[i].last);
    var row, view := run[i + 1].round.value.rows[k], labels[i].views[k];
    assert row.at == labels[i].at;
    if view.height.Some? {
      assert Answered(view, view.height.value) <==> view.reachable;
    }
  }

  lemma {:induction false} KeptExactly(table: seq<Stored>, before: int, t: Stored)
    ensures multiset(Kept(table, before))[t] == if t.row.at < before then 0 else multiset(table)[t]
  {
    if table != [] {
      KeptExactly(table[..|table| - 1], before, t);
      assert table == table[..|table| - 1] + [table[|table| - 1]];
    }
  }

  /** In every run, a prune that works leaves exactly the rows not older than its limit, each as often as before, and
      one that fails leaves all. */
  lemma PruneExactly(ids: seq<string>, run: seq<State>, labels: seq<Label>, i: nat, before: int, works: bool, t: Stored)
    requires IsRun(ids, run, labels) && i < |labels| && labels[i] == Prune(before, works)
    ensures multiset(run[i + 1].table)[t] ==
      if works && t.row.at < before then 0 else multiset(run[i].table)[t]
  {
    KeptExactly(run[i].table, before, t);
  }

  /** In every run, an append stores either all rows of its round, in order, or none, and a restart none. */
  lemma AppendIsAllOrNothing(ids: seq<string>, run: seq<State>, labels: seq<Label>, i: nat)
    requires IsRun(ids, run, labels) && i < |labels| && labels[i].Append?
    ensures run[i].round.Some? && run[i].round.value.Appending?
    ensures var rows := run[i].round.value.rows;
      if labels[i].outcome.LostAndThrows? then run[i + 1].table == run[i].table
      else
        && |run[i + 1].table| == |run[i].table| + |rows| && run[i + 1].table[..|run[i].table|] == run[i].table
        && forall k :: 0 <= k < |rows| ==> run[i + 1].table[|run[i].table| + k].row == rows[k]
  {
    RunInv(ids, run, labels, i);
    var s := run[i];
    var rows := s.round.value.rows;
    FreshRoundIsStored(s.table, rows, |rows|, s.log, s.acked, s.nextRound - 1);
  }

  /** In every run, a timer that fires during a round is only counted as skipped. */
  lemma OverlapIsSkipped(ids: seq<string>, run: seq<State>, labels: seq<Label>, i: nat)
    requires IsRun(ids, run, labels) && i < |labels| && labels[i] == Fire && run[i].round.Some?
    ensures run[i + 1].skipped == run[i].skipped + 1 && run[i + 1] == run[i].(skipped := run[i + 1].skipped)
  {}

  // ----- exactly when a row is honest -----

  /** The process agrees with the table about a validator: the latest height stored is the latest it knows. */
  ghost predicate InStep(s: State, v: string) {
    LatestHeight(s.log, v) == LatestHeight(s.acked, v)
  }

  /** The rows of the round that the step appends. */
  ghost function Appended(s: State, l: Label): seq<Row> {
    if l.Append? && s.round.Some? && s.round.value.Appending? then s.round.value.rows else []
  }

  /** The step settles what the process knows about `v`: it starts over, reads the table, or stores a height of `v`. */
  ghost predicate Settles(s: State, l: Label, v: string) {
    || l == Restart || l == Prime(true)
    || (l.Append? && !l.outcome.LostAndThrows? && LatestHeight(Appended(s, l), v).Some?)
  }

  /** A settling step leaves the process in step unless it is an append that was stored, reported as failed, and
      stored a height other than the baseline. */
  ghost predicate Agrees(s: State, l: Label, v: string) {
    !Ambiguous(l) || LatestHeight(Appended(s, l), v) == Known(s.last, v)
  }

  lemma {:induction false} LatestOfSum(log: seq<Row>, rows: seq<Row>, v: string)
    ensures LatestHeight(log + rows, v) ==
      if LatestHeight(rows, v).Some? then LatestHeight(rows, v) else LatestHeight(log, v)
  {
    if rows == [] {
      assert log + rows == log;
    } else {
      LatestOfSum(log, rows[..|rows| - 1], v);
      assert (log + rows)[..|log + rows| - 1] == log + rows[..|rows| - 1];
    }
  }

  lemma InStepAfter(ids: seq<string>, s: State, l: Label, v: string)
    requires Inv(ids, s) && Enabled(ids, s, l)
    ensures InStep(Next(ids, s, l), v) <==> if Settles(s, l, v) then Agrees(s, l, v) else InStep(s, v)
  {
    if l.Append? {
      LatestOfSum(s.log, Appended(s, l), v);
      LatestOfSum(s.acked, Appended(s, l), v);
    }
  }

  /** The last step before `j` that settles what the process knows about `v`. */
  ghost function LastSettled(run: seq<State>, labels: seq<Label>, v: string, j: nat): Option<nat>
    requires j <= |labels| < |run|
  {
    if j == 0 then None
    else if Settles(run[j - 1], labels[j - 1], v) then Some(j - 1) else LastSettled(run, labels, v, j - 1)
  }

  /** In the state before step `j`, the last settling step left the process in step. */
  ghost predicate LastAgreed(run: seq<State>, labels: seq<Label>, v: string, j: nat)
    requires j <= |labels| < |run|
  {
    match LastSettled(run, labels, v, j)
    case None => true
    case Some(m) => m < |labels| && Agrees(run[m], labels[m], v)
  }

  /** In every run, the process is in step about `v` exactly when the last step that started it, read the table or
      stored a height of `v` was not an ambiguous append, or was one that repeated the baseline. */
  lemma {:induction false} InStepExactly(ids: seq<string>, run: seq<State>, labels: seq<Label>, v: string, j: nat)
    requires IsRun(ids, run, labels) && j < |run|
    ensures InStep(run[j], v) <==> LastAgreed(run, labels, v, j)
  {
    if j > 0 {
      InStepExactly(ids, run, labels, v, j - 1);
      InStepInRun(ids, run, labels, v, j - 1);
    }
  }

  lemma InStepInRun(ids: seq<string>, run: seq<State>, labels: seq<Label>, v: string, m: nat)
    requires IsRun(ids, run, labels) && m < |labels|
    ensures InStep(run[m + 1], v) <==>
      if Settles(run[m], labels[m], v) then Agrees(run[m], labels[m], v) else InStep(run[m], v)
  {
    RunInv(ids, run, labels, m);
    InStepAfter(ids, run[m], labels[m], v);
  }

  /** Exactly which rows are honest: in every run, a row of `v` that step `j` stores compares with the latest earlier
      stored height if and only if the last step before it that settled `v` left the process in step. */
  lemma HonestExactly(ids: seq<string>, run: seq<State>, labels: seq<Label>, j: nat, k: nat)
    requires IsRun(ids, run, labels) && j < |labels| && labels[j].Append?
    requires |run[j].table| <= k < |run[j + 1].table|
    ensures var t := run[j + 1].table[k]; Honest(t) <==> LastAgreed(run, labels, t.row.validator, j)
  {
    RunInv(ids, run, labels, j);
    StoredWith(ids, run[j], labels[j], k);
    InStepExactly(ids, run, labels, run[j + 1].table[k].row.validator, j);
  }

  /** A row is stored with what its process and the table held at that moment. */
  lemma StoredWith(ids: seq<string>, s: State, l: Label, k: nat)
    requires Inv(ids, s) && Enabled(ids, s, l) && l.Append? && DistinctIds(ids)
    requires |s.table| <= k < |Next(ids, s, l).table|
    ensures var t := Next(ids, s, l).table[k]; Compared(t) && t.basis == s.log && t.acknowledged == s.acked
  {
    var rows := s.round.value.rows;
    FreshRoundIsStored(s.table, rows, |rows|, s.log, s.acked, s.nextRound - 1);
    assert Next(ids, s, l).table[k] == Stored(rows[k - |s.table|], s.log, s.acked);
    assert Compared(Stored(rows[k - |s.table|], s.log, s.acked));
  }

  ghost predicate Witnessed(t: Stored) {
    t.row.height.Some? && exists i :: 0 <= i < |t.basis| && Exceeds(t.row, t.basis[i])
  }

  predicate Exceeds(r: Row, earlier: Row) {
    earlier.validator == r.validator && earlier.height.Some? && r.height.Some? && r.height.value > earlier.height.value
  }

  lemma OneRow(v: string, height: int, round: nat, at: int)
    ensures RowsFor([v], [View(true, Some(height))], 1, round, at, map[]) ==
      [Row(v, round, at, Late, Some(height), None)]
  {
    assert RowsFor([v], [View(true, Some(height))], 0, round, at, map[]) == [];
  }

  /** An ambiguous append does mislead: the next row of the same process does not compare with the row that
      was stored. */
  lemma AmbiguousAppendMisleads() returns (run: seq<State>, labels: seq<Label>)
    ensures IsRun(["v"], run, labels) && |labels| == 7 && Ambiguous(labels[3])
    ensures |run[7].table| == 2 && !Honest(run[7].table[1])
  {
    var ids, view := ["v"], [View(true, Some(5))];
    var first, second := Row("v", 1, 0, Late, Some(5), None), Row("v", 2, 1, Late, Some(5), None);
    labels := [Fire, Prime(true), Poll(view, 0), Append(StoredButThrows), Fire, Poll(view, 1), Append(Done)];
    var s0 := Initial();
    var s1 := s0.(round := Some(Priming));
    var s2 := s1.(primed := true, round := Some(Polling));
    assert Next(ids, s1, labels[1]) == s2 by {
      assert Seeded(Validators([]), [], map[]) == map[] && RowsOf([]) == [];
    }
    OneRow("v", 5, 1, 0);
    OneRow("v", 5, 2, 1);
    var s3 := s2.(nextRound := 2, round := Some(Appending([first])));
    assert Next(ids, s2, labels[2]) == s3;
    assert AppendRows([], [first], 0, [], []) == [];
    var s4 := s3.(table := [Stored(first, [], [])], log := [first], round := None);
    assert Next(ids, s3, labels[3]) == s4;
    var s5 := s4.(round := Some(Polling));
    var s6 := s5.(nextRound := 3, round := Some(Appending([second])));
    assert Next(ids, s5, labels[5]) == s6;
    assert AppendRows(s6.table, [second], 0, [first], []) == s6.table;
    var s7 := Next(ids, s6, labels[6]);
    assert s7.table == [Stored(first, [], []), Stored(second, [first], [])];
    run := [s0, s1, s2, s3, s4, s5, s6, s7];
    assert LatestHeight([first], "v") == Some(5);
  }
}
