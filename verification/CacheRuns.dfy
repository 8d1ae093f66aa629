/** The cache under interleaving: a read that finds an expired entry lets go of the lock before it deletes it. */
module CacheRuns {
  import opened Options
  import opened Caches

  /** A read between its look and its delete. A get counts itself as a miss when it finishes. */
  datatype Pending = Pending(key: string, isGet: bool)

  datatype State = State(store: Entries, latest: Entries, pending: map<nat, Pending>, hits: nat, misses: nat, gets: nat)

  datatype Step =
    | Set(key: string, data: seq<bv8>, ttlSecs: nat)
    | Delete(key: string)
    | Clear
    | Purge
    | Look(task: nat, key: string, isGet: bool)
    | Finish(task: nat)

  datatype Moment = Moment(before: State, step: Step, at: Time, after: State)

  type Run = seq<Moment>

  predicate Enabled(s: State, step: Step) {
    match step
    case Look(task, _, _) => task !in s.pending
    case Finish(task) => task in s.pending
    case _ => true
  }

  function Next(s: State, step: Step, now: Time): State
    requires Enabled(s, step)
  {
    match step
    case Set(key, data, ttl) =>
      s.(store := s.store[key := NewEntry(data, ttl, now)], latest := s.latest[key := NewEntry(data, ttl, now)])
    case Delete(key) => s.(store := s.store - {key}, latest := s.latest - {key})
    case Clear => s.(store := map[], latest := map[])
    case Purge => s.(store := Surviving(s.store, now))
    case Look(task, key, isGet) =>
      var counted := s.(gets := s.gets + if isGet then 1 else 0);
      if key in s.store && Expired(s.store[key], now) then counted.(pending := s.pending[task := Pending(key, isGet)])
      else if !isGet then counted
      else if key in s.store then counted.(hits := s.hits + 1)
      else counted.(misses := s.misses + 1)
    case Finish(task) =>
      var p := s.pending[task];
      s.(store := s.store - {p.key}, pending := s.pending - {task}, misses := s.misses + if p.isGet then 1 else 0)
  }

  /** What the read finds in the store. */
  function Answer(s: State, key: string, now: Time): Option<seq<bv8>> { Live(s.store, key, now) }

  function Final(run: Run): State {
    if run == [] then State(map[], map[], map[], 0, 0, 0) else run[|run| - 1].after
  }

  predicate IsRun(run: Run) {
    run != [] ==>
      var front, last := run[..|run| - 1], run[|run| - 1];
      && IsRun(front) && last.before == Final(front)
      && (front != [] ==> front[|front| - 1].at <= last.at)
      && Enabled(last.before, last.step) && last.after == Next(last.before, last.step, last.at)
  }

  /** A read that nobody interrupts answers like one step, drops the key when it has expired, and counts once. */
  lemma UninterruptedReadIsOneStep(s: State, task: nat, key: string, isGet: bool, now: Time, later: Time)
    requires task !in s.pending
    ensures var looked := Next(s, Look(task, key, isGet), now);
      var done := if task in looked.pending then Next(looked, Finish(task), later) else looked;
      && done.store == s.store - ({key} * ExpiredKeys(s.store, now))
      && done.latest == s.latest && done.pending == s.pending
      && done.hits == s.hits + (if isGet && Answer(s, key, now).Some? then 1 else 0)
      && done.misses == s.misses + (if isGet && Answer(s, key, now).None? then 1 else 0)
      && done.gets == s.gets + if isGet then 1 else 0
  {
    var looked := Next(s, Look(task, key, isGet), now);
    if task in looked.pending {
      assert looked.pending - {task} == s.pending;
    }
  }

  // ----- what every interleaving keeps -----

  function PendingGets(pending: map<nat, Pending>): set<nat> {
    set t | t in pending && pending[t].isGet
  }

  ghost predicate LatestOnly(s: State) {
    forall k :: k in s.store ==> k in s.latest && s.store[k] == s.latest[k]
  }

  lemma StepKeepsLatestOnly(s: State, step: Step, now: Time)
    requires Enabled(s, step) && LatestOnly(s)
    ensures LatestOnly(Next(s, step, now))
  {}

  ghost predicate Counted(s: State) { s.hits + s.misses + |PendingGets(s.pending)| == s.gets }

  lemma PendingGetsGrow(pending: map<nat, Pending>, task: nat, p: Pending)
    requires task !in pending
    ensures |PendingGets(pending[task := p])| == |PendingGets(pending)| + if p.isGet then 1 else 0
  {
    assert PendingGets(pending[task := p]) == PendingGets(pending) + if p.isGet then {task} else {};
  }

  lemma PendingGetsShrink(pending: map<nat, Pending>, task: nat)
    requires task in pending
    ensures |PendingGets(pending - {task})| == |PendingGets(pending)| - if pending[task].isGet then 1 else 0
  {
    assert PendingGets(pending) == PendingGets(pending - {task}) + if pending[task].isGet then {task} else {};
  }

  lemma StepKeepsCounts(s: State, step: Step, now: Time)
    requires Enabled(s, step) && Counted(s)
    ensures Counted(Next(s, step, now))
  {
    match step
    case Look(task, key, isGet) => PendingGetsGrow(s.pending, task, Pending(key, isGet));
    case Finish(task) => PendingGetsShrink(s.pending, task);
    case _ =>
  }

  /** In every interleaving a stored entry is the latest write of its key, and every get is counted as a hit or a
      miss, or is about to be counted as a miss. */
  lemma {:induction false} StoreHoldsLatestWrites(run: Run)
    requires IsRun(run)
    ensures LatestOnly(Final(run))
    ensures Counted(Final(run))
  {
    if run != [] {
      var last := run[|run| - 1];
      StoreHoldsLatestWrites(run[..|run| - 1]);
      StepKeepsLatestOnly(last.before, last.step, last.at);
      StepKeepsCounts(last.before, last.step, last.at);
    } else {
      assert PendingGets(map[]) == {};
    }
  }

  /** A read never returns a stale, deleted or expired value; at worst it finds nothing. */
  lemma {:induction false} ReadsAreNeverStale(run: Run, key: string, now: Time)
    requires IsRun(run)
    ensures var s := Final(run); Answer(s, key, now).Some? ==> Answer(s, key, now) == Live(s.latest, key, now)
  {
    StoreHoldsLatestWrites(run);
  }

  // ----- when reads miss what they should find -----

  /** Every read gives what the latest writes say. */
  ghost predicate ReadsRight(s: State, now: Time) {
    forall key :: Answer(s, key, now) == Live(s.latest, key, now)
  }

  /** A delayed delete comes when the latest write of its key is live. */
  predicate Overtaken(m: Moment) {
    && m.step.Finish? && m.step.task in m.before.pending
    && Live(m.before.latest, m.before.pending[m.step.task].key, m.at).Some?
  }

  lemma RightReadsStayRight(s: State, now: Time, later: Time)
    requires LatestOnly(s) && ReadsRight(s, now) && now <= later
    ensures ReadsRight(s, later)
  {
    forall key ensures Answer(s, key, later) == Live(s.latest, key, later) {
      assert Answer(s, key, now) == Live(s.latest, key, now);
    }
  }

  lemma StepKeepsReadsRight(m: Moment)
    requires Enabled(m.before, m.step) && m.after == Next(m.before, m.step, m.at)
    requires ReadsRight(m.before, m.at)
    ensures ReadsRight(m.after, m.at) <==> !Overtaken(m)
  {
    forall key | !m.step.Finish? || m.before.pending[m.step.task].key != key
      ensures Answer(m.after, key, m.at) == Live(m.after.latest, key, m.at)
    {
      assert Answer(m.before, key, m.at) == Live(m.before.latest, key, m.at);
    }
    if m.step.Finish? {
      var key := m.before.pending[m.step.task].key;
      assert Answer(m.after, key, m.at) == None;
    }
  }

  /** All reads of a run are right at every moment exactly when no delayed delete finds its key written anew. */
  lemma {:induction false} ReadsRightUnlessOvertaken(run: Run)
    requires IsRun(run)
    ensures (forall i :: 0 <= i < |run| ==> ReadsRight(run[i].after, run[i].at))
      <==> forall i :: 0 <= i < |run| ==> !Overtaken(run[i])
  {
    if run != [] {
      var front, last := run[..|run| - 1], run[|run| - 1];
      ReadsRightUnlessOvertaken(front);
      assert forall i :: 0 <= i < |front| ==> front[i] == run[i];
      if forall i :: 0 <= i < |front| ==> !Overtaken(front[i]) {
        if front != [] {
          StoreHoldsLatestWrites(front);
          RightReadsStayRight(last.before, front[|front| - 1].at, last.at);
        }
        StepKeepsReadsRight(last);
      }
    }
  }

  lemma {:induction false} PendingReadLooked(run: Run, task: nat) returns (look: nat)
    requires IsRun(run) && task in Final(run).pending
    ensures look < |run| && Looked(run, look, task, Final(run).pending[task].key)
  {
    var front, last := run[..|run| - 1], run[|run| - 1];
    if task in last.before.pending {
      look := PendingReadLooked(front, task);
    } else {
      look := |run| - 1;
    }
  }

  /** The task looked at the key then, and has not finished since. */
  ghost predicate Looked(run: Run, look: nat, task: nat, key: string)
    requires look < |run|
  {
    && run[look].step.Look? && run[look].step.task == task && run[look].step.key == key
    && forall j :: look < j < |run| ==> run[j].step != Finish(task)
  }

  lemma {:induction false} LiveKeyWasWrittenSince(run: Run, task: nat, now: Time) returns (look: nat, write: nat)
    requires IsRun(run) && (run != [] ==> run[|run| - 1].at <= now)
    requires task in Final(run).pending && Live(Final(run).latest, Final(run).pending[task].key, now).Some?
    ensures var key := Final(run).pending[task].key;
      && look < write < |run| && Looked(run, look, task, key) && run[write].step.Set? && run[write].step.key == key
  {
    var front, last := run[..|run| - 1], run[|run| - 1];
    var key := Final(run).pending[task].key;
    StoreHoldsLatestWrites(front);
    assert task in last.before.pending;
    if last.step.Set? && last.step.key == key {
      look := PendingReadLooked(front, task);
      write := |run| - 1;
    } else {
      look, write := LiveKeyWasWrittenSince(front, task, now);
    }
  }

  /** What an overtaken delete takes away is a newer write: its key was written after its read had looked. */
  lemma OvertakenByNewerWrite(run: Run, i: nat)
    requires IsRun(run) && i < |run| && Overtaken(run[i])
    ensures var task := run[i].step.task; var key := run[i].before.pending[task].key;
      exists look: nat, write: nat :: (look < write < i && Looked(run[..i], look, task, key)
        && run[write].step.Set? && run[write].step.key == key)
  {
    MomentOf(run, i);
    var look, write := LiveKeyWasWrittenSince(run[..i], run[i].step.task, run[i].at);
    assert run[..i][write] == run[write];
  }

  lemma {:induction false} MomentOf(run: Run, i: nat)
    requires IsRun(run) && i < |run|
    ensures IsRun(run[..i]) && run[i].before == Final(run[..i]) && (i > 0 ==> run[i - 1].at <= run[i].at)
  {
    if i < |run| - 1 {
      var front := run[..|run| - 1];
      MomentOf(front, i);
      assert front[..i] == run[..i];
    }
  }

  lemma Then(run: Run, step: Step, now: Time) returns (longer: Run)
    requires IsRun(run) && Enabled(Final(run), step) && (run != [] ==> run[|run| - 1].at <= now)
    ensures IsRun(longer) && Final(longer) == Next(Final(run), step, now)
    ensures longer != [] && longer[|longer| - 1].at == now
  {
    longer := run + [Moment(Final(run), step, now, Next(Final(run), step, now))];
    assert longer[..|run|] == run;
  }

  /** A fresh write can vanish: written between the look and the delete of a read that found the old one expired. */
  lemma FreshWriteCanVanish(key: string, data: seq<bv8>)
    ensures exists run: Run ::
      (IsRun(run) && Live(Final(run).latest, key, Seconds(2)) == Some(data)
        && Answer(Final(run), key, Seconds(2)) == None)
  {
    var run := Then([], Set(key, [], 1), 0);
    run := Then(run, Look(0, key, true), Seconds(2));
    run := Then(run, Set(key, data, 0), Seconds(2));
    run := Then(run, Finish(0), Seconds(2));
  }

  // ----- what a delete reports -----

  /** A delete reports whether the key was in the store. */
  predicate DeleteReports(s: State, key: string) { key in s.store }

  /** Since the key was last written, a read of it has finished its delayed delete, or a purge has come after the
      write had expired. */
  predicate DroppedSinceWrite(run: Run, key: string) {
    run != [] &&
    var front, last := run[..|run| - 1], run[|run| - 1];
    match last.step
    case Set(k, _, _) => k != key && DroppedSinceWrite(front, key)
    case Finish(task) =>
      (task in last.before.pending && last.before.pending[task].key == key) || DroppedSinceWrite(front, key)
    case Purge => key in ExpiredKeys(last.before.latest, last.at) || DroppedSinceWrite(front, key)
    case _ => DroppedSinceWrite(front, key)
  }

  /** In every interleaving a delete reports that the key existed exactly when it has been written since it was last
      deleted or the cache cleared, and not been dropped since. */
  lemma {:induction false} DeleteReportsExactly(run: Run, key: string)
    requires IsRun(run)
    ensures DeleteReports(Final(run), key) <==> key in Final(run).latest && !DroppedSinceWrite(run, key)
  {
    if run != [] {
      var front := run[..|run| - 1];
      DeleteReportsExactly(front, key);
      StoreHoldsLatestWrites(front);
    }
  }

  /** So lazy deletion shows: after the same writes, a delete of an expired key reports that it existed or that it
      did not, depending on whether somebody has read it in between. */
  lemma DeleteTellsWhetherSomebodyLooked(key: string)
    ensures exists quiet: Run, looked: Run ::
      (IsRun(quiet) && IsRun(looked) && Final(quiet).latest == Final(looked).latest
       && DeleteReports(Final(quiet), key) && !DeleteReports(Final(looked), key))
  {
    var quiet := Then([], Set(key, [], 1), 0);
    var looked := Then(quiet, Look(0, key, true), Seconds(2));
    looked := Then(looked, Finish(0), Seconds(2));
  }
}
