/** record_event calls that interleave between reading the version and saving. */
module EventRuns {
  import opened Json
  import opened Sequences
  import opened EventStores

  datatype Request = Request(aggregateType: string, aggregateId: string, eventType: string, data: Json)

  /** A writer between its read and its save acts on the log it has seen. */
  datatype Pending = Pending(request: Request, seen: Log)

  datatype State = State(log: Log, pending: map<nat, Pending>)

  datatype Step =
    | Read(writer: nat, request: Request)
    | Save(writer: nat, id: nat, now: int)
    | Abandon(writer: nat)

  function EventOf(p: Pending, id: nat, now: int): StoredEvent {
    var r := p.request;
    StoredEvent(id, r.aggregateType, r.aggregateId, r.eventType,
                CurrentVersion(p.seen, r.aggregateType, r.aggregateId) + 1, r.data, now)
  }

  /** A writer starts once; saving or giving up is for those who have started. */
  predicate Enabled(s: State, step: Step) {
    match step
    case Read(w, _) => w !in s.pending
    case Save(w, _, _) => w in s.pending
    case Abandon(w) => w in s.pending
  }

  function Next(s: State, step: Step): State
    requires Enabled(s, step)
  {
    match step
    case Read(w, request) => State(s.log, s.pending[w := Pending(request, s.log)])
    case Save(w, id, now) => State(s.log + [EventOf(s.pending[w], id, now)], s.pending - {w})
    case Abandon(w) => State(s.log, s.pending - {w})
  }

  datatype Moment = Moment(before: State, step: Step, after: State)

  type Run = seq<Moment>

  function Final(run: Run): State {
    if run == [] then State([], map[]) else run[|run| - 1].after
  }

  /** Any number of writers, in any interleaving, from an empty store. */
  predicate IsRun(run: Run) {
    run != [] ==>
      var front, last := run[..|run| - 1], run[|run| - 1];
      IsRun(front) && last.before == Final(front) && Enabled(last.before, last.step)
        && last.after == Next(last.before, last.step)
  }

  /** A call that nobody interrupts appends its event with the next version, as the event sourcer promises. */
  lemma UninterruptedCallIsOneStep(s: State, writer: nat, r: Request, id: nat, now: int)
    requires writer !in s.pending
    ensures var read := Next(s, Read(writer, r));
      var done := Next(read, Save(writer, id, now));
      && done.log == s.log + [StoredEvent(id, r.aggregateType, r.aggregateId, r.eventType,
                                          CurrentVersion(s.log, r.aggregateType, r.aggregateId) + 1, r.data, now)]
      && done.pending == s.pending
  {
    assert s.pending[writer := Pending(r, s.log)] - {writer} == s.pending;
  }

  // ----- what every interleaving keeps -----

  ghost predicate HasVersion(recorded: Log, v: nat) {
    exists e :: e in recorded && e.version == v
  }

  /** The versions are exactly 1..max; a version may occur more than once. */
  ghost predicate GapFree(recorded: Log) {
    && (forall e :: e in recorded ==> 1 <= e.version)
    && (forall v :: 1 <= v <= MaxVersion(recorded) ==> HasVersion(recorded, v))
  }

  lemma RecordedPush(log: Log, e: StoredEvent, aggregateType: string, aggregateId: string)
    ensures Recorded(log + [e], aggregateType, aggregateId)
      == Recorded(log, aggregateType, aggregateId) + (if Belongs(aggregateType, aggregateId, e) then [e] else [])
  {
    assert (log + [e])[..|log|] == log;
  }

  /** An event versioned by an earlier log never leaves a gap. */
  lemma PushKeepsGapFree(recorded: Log, e: StoredEvent)
    requires GapFree(recorded) && 1 <= e.version <= MaxVersion(recorded) + 1
    ensures GapFree(recorded + [e])
  {
    var longer := recorded + [e];
    assert longer[..|recorded|] == recorded;
    assert MaxVersion(longer) == Max(MaxVersion(recorded), e.version);
    forall v | 1 <= v <= MaxVersion(longer) ensures HasVersion(longer, v) {
      if v == e.version {
        assert e in longer;
      } else {
        assert HasVersion(recorded, v);
        var x :| x in recorded && x.version == v;
        assert x in longer;
      }
    }
  }

  lemma {:induction false} MaxVersionGrows(a: Log, b: Log)
    ensures MaxVersion(a) <= MaxVersion(a + b)
  {
    if b == [] {
      assert a + b == a;
    } else {
      MaxVersionGrows(a, b[..|b| - 1]);
      assert (a + b)[..|a + b| - 1] == a + b[..|b| - 1];
    }
  }

  /** What a writer has seen is still the front of the log, aggregate by aggregate. */
  lemma SeenIsPrefix(seen: Log, log: Log, aggregateType: string, aggregateId: string)
    requires seen <= log
    ensures Recorded(seen, aggregateType, aggregateId) <= Recorded(log, aggregateType, aggregateId)
    ensures CurrentVersion(seen, aggregateType, aggregateId) <= CurrentVersion(log, aggregateType, aggregateId)
  {
    var rest := log[|seen|..];
    assert log == seen + rest;
    FilterConcat(Of(aggregateType, aggregateId), seen, rest);
    MaxVersionGrows(Recorded(seen, aggregateType, aggregateId), Recorded(rest, aggregateType, aggregateId));
  }

  /** Pending writers hold a prefix of the log: nothing is ever taken back. */
  lemma {:induction false} PendingSawPrefix(run: Run)
    requires IsRun(run)
    ensures forall w :: w in Final(run).pending ==> Final(run).pending[w].seen <= Final(run).log
  {
    if run != [] {
      PendingSawPrefix(run[..|run| - 1]);
    }
  }

  /** For every interleaving and every aggregate the saved versions are exactly 1..max. */
  lemma {:induction false} VersionsAreGapFree(run: Run, aggregateType: string, aggregateId: string)
    requires IsRun(run)
    ensures GapFree(Recorded(Final(run).log, aggregateType, aggregateId))
  {
    if run != [] {
      var front, last := run[..|run| - 1], run[|run| - 1];
      VersionsAreGapFree(front, aggregateType, aggregateId);
      match last.step
      case Save(w, id, now) =>
        PendingSawPrefix(front);
        var p, log := last.before.pending[w], last.before.log;
        var e := EventOf(p, id, now);
        RecordedPush(log, e, aggregateType, aggregateId);
        if Belongs(aggregateType, aggregateId, e) {
          SeenIsPrefix(p.seen, log, aggregateType, aggregateId);
          PushKeepsGapFree(Recorded(log, aggregateType, aggregateId), e);
        } else {
          assert Recorded(last.after.log, aggregateType, aggregateId) == Recorded(log, aggregateType, aggregateId);
        }
      case _ =>
    }
  }

  /** The log only grows, and a save touches no aggregate but its own. */
  lemma StepTouchesOneAggregate(s: State, step: Step, aggregateType: string, aggregateId: string)
    requires Enabled(s, step)
    ensures s.log <= Next(s, step).log
    ensures !(step.Save? && Belongs(aggregateType, aggregateId, EventOf(s.pending[step.writer], step.id, step.now)))
      ==> Recorded(Next(s, step).log, aggregateType, aggregateId) == Recorded(s.log, aggregateType, aggregateId)
  {
    if step.Save? {
      RecordedPush(s.log, EventOf(s.pending[step.writer], step.id, step.now), aggregateType, aggregateId);
    }
  }

  // ----- when versions are unique -----

  /** A save to the aggregate by a writer who has not seen everything saved to it. */
  predicate Stale(m: Moment, aggregateType: string, aggregateId: string) {
    && m.step.Save? && m.step.writer in m.before.pending
    && var p := m.before.pending[m.step.writer];
    && p.request.aggregateType == aggregateType && p.request.aggregateId == aggregateId
    && Recorded(p.seen, aggregateType, aggregateId) != Recorded(m.before.log, aggregateType, aggregateId)
  }

  /** Every save to the aggregate is by a writer who has seen all that was saved to it. */
  ghost predicate NoStaleSave(run: Run, aggregateType: string, aggregateId: string) {
    forall i :: 0 <= i < |run| ==> !Stale(run[i], aggregateType, aggregateId)
  }

  /** The i-th event recorded has version i + 1. */
  ghost predicate Numbered(recorded: Log) {
    forall i :: 0 <= i < |recorded| ==> recorded[i].version == i + 1
  }

  ghost predicate UniqueVersions(recorded: Log) {
    forall i, j :: 0 <= i < j < |recorded| ==> recorded[i].version != recorded[j].version
  }

  lemma {:induction false} NumberedMax(recorded: Log)
    requires Numbered(recorded)
    ensures MaxVersion(recorded) == |recorded|
  {
    if recorded != [] {
      NumberedMax(recorded[..|recorded| - 1]);
    }
  }

  /** The step of the induction: a fresh save continues the numbering, a stale one repeats a version. */
  lemma SaveOnNumbered(m: Moment, aggregateType: string, aggregateId: string)
    requires m.step.Save? && Enabled(m.before, m.step) && m.after == Next(m.before, m.step)
    requires var p := m.before.pending[m.step.writer];
      p.seen <= m.before.log && p.request.aggregateType == aggregateType && p.request.aggregateId == aggregateId
    requires Numbered(Recorded(m.before.log, aggregateType, aggregateId))
    ensures if Stale(m, aggregateType, aggregateId)
      then !UniqueVersions(Recorded(m.after.log, aggregateType, aggregateId))
      else Numbered(Recorded(m.after.log, aggregateType, aggregateId))
  {
    var p := m.before.pending[m.step.writer];
    var recorded, seen :=
      Recorded(m.before.log, aggregateType, aggregateId), Recorded(p.seen, aggregateType, aggregateId);
    var e := EventOf(p, m.step.id, m.step.now);
    RecordedPush(m.before.log, e, aggregateType, aggregateId);
    SeenIsPrefix(p.seen, m.before.log, aggregateType, aggregateId);
    assert forall i :: 0 <= i < |seen| ==> seen[i] == recorded[i];
    NumberedMax(seen);
    assert e.version == |seen| + 1;
    var after := Recorded(m.after.log, aggregateType, aggregateId);
    assert after == recorded + [e];
    if Stale(m, aggregateType, aggregateId) {
      assert |seen| < |recorded|;
      assert after[|seen|].version == |seen| + 1 == after[|recorded|].version;
    }
  }

  lemma {:induction false} NumberedOrRepeated(run: Run, aggregateType: string, aggregateId: string)
    requires IsRun(run)
    ensures var recorded := Recorded(Final(run).log, aggregateType, aggregateId);
      if NoStaleSave(run, aggregateType, aggregateId) then Numbered(recorded) else !UniqueVersions(recorded)
  {
    if run != [] {
      var front, last := run[..|run| - 1], run[|run| - 1];
      NumberedOrRepeated(front, aggregateType, aggregateId);
      PendingSawPrefix(front);
      assert NoStaleSave(run, aggregateType, aggregateId)
        <==> NoStaleSave(front, aggregateType, aggregateId) && !Stale(last, aggregateType, aggregateId);
      StepTouchesOneAggregate(last.before, last.step, aggregateType, aggregateId);
      var before, after := Recorded(last.before.log, aggregateType, aggregateId),
        Recorded(last.after.log, aggregateType, aggregateId);
      SeenIsPrefix(last.before.log, last.after.log, aggregateType, aggregateId);
      if !NoStaleSave(front, aggregateType, aggregateId) {
        var i, j :| 0 <= i < j < |before| && before[i].version == before[j].version;
        assert after[i] == before[i] && after[j] == before[j];
      } else if after != before {
        SaveOnNumbered(last, aggregateType, aggregateId);
      }
    }
  }

  /** Since the writer read, an event of the aggregate has been saved. */
  predicate SavedSinceRead(run: Run, writer: nat, aggregateType: string, aggregateId: string) {
    run != [] &&
    var front, last := run[..|run| - 1], run[|run| - 1];
    match last.step
    case Read(w, _) => w != writer && SavedSinceRead(front, writer, aggregateType, aggregateId)
    case Save(w, id, now) =>
      (w in last.before.pending && Belongs(aggregateType, aggregateId, EventOf(last.before.pending[w], id, now)))
      || SavedSinceRead(front, writer, aggregateType, aggregateId)
    case Abandon(_) => SavedSinceRead(front, writer, aggregateType, aggregateId)
  }

  /** What a pending writer has seen of an aggregate is all there is exactly when nothing was saved since. */
  lemma {:induction false} SeenExactlyUnlessSaved(run: Run, writer: nat, aggregateType: string, aggregateId: string)
    requires IsRun(run) && writer in Final(run).pending
    ensures Recorded(Final(run).pending[writer].seen, aggregateType, aggregateId)
        == Recorded(Final(run).log, aggregateType, aggregateId)
      <==> !SavedSinceRead(run, writer, aggregateType, aggregateId)
  {
    var front, last := run[..|run| - 1], run[|run| - 1];
    if last.step.Read? && last.step.writer == writer {
    } else {
      SeenExactlyUnlessSaved(front, writer, aggregateType, aggregateId);
      PendingSawPrefix(front);
      SeenIsPrefix(last.before.pending[writer].seen, last.before.log, aggregateType, aggregateId);
      if last.step.Save? {
        RecordedPush(last.before.log, EventOf(last.before.pending[last.step.writer], last.step.id, last.step.now),
                     aggregateType, aggregateId);
      }
    }
  }

  /** A call on the aggregate saves although another call has saved to it since it read. */
  predicate Overtaken(run: Run, i: nat, aggregateType: string, aggregateId: string)
    requires i < |run|
  {
    && run[i].step.Save? && run[i].step.writer in run[i].before.pending
    && var request := run[i].before.pending[run[i].step.writer].request;
    && request.aggregateType == aggregateType && request.aggregateId == aggregateId
    && SavedSinceRead(run[..i], run[i].step.writer, aggregateType, aggregateId)
  }

  lemma {:induction false} MomentOf(run: Run, i: nat)
    requires IsRun(run) && i < |run|
    ensures IsRun(run[..i]) && run[i].before == Final(run[..i])
  {
    if i < |run| - 1 {
      var front := run[..|run| - 1];
      MomentOf(front, i);
      assert front[..i] == run[..i];
    }
  }

  lemma StaleExactlyWhenOvertaken(run: Run, i: nat, aggregateType: string, aggregateId: string)
    requires IsRun(run) && i < |run|
    ensures Stale(run[i], aggregateType, aggregateId) <==> Overtaken(run, i, aggregateType, aggregateId)
  {
    MomentOf(run, i);
    if run[i].step.Save? && run[i].step.writer in run[i].before.pending {
      SeenExactlyUnlessSaved(run[..i], run[i].step.writer, aggregateType, aggregateId);
    }
  }

  /** Versions are unique exactly when no call on the aggregate saves after another has saved since it read; calls
      that are abandoned or still pending do no harm. The versions are then 1..n in recording order, and a replay
      returns them in that order. */
  lemma UniqueExactlyUnlessOvertaken(run: Run, aggregateType: string, aggregateId: string)
    requires IsRun(run)
    ensures var recorded := Recorded(Final(run).log, aggregateType, aggregateId);
      && (UniqueVersions(recorded) <==> forall i :: 0 <= i < |run| ==> !Overtaken(run, i, aggregateType, aggregateId))
      && (UniqueVersions(recorded)
          ==> Numbered(recorded) && Replay(Final(run).log, aggregateType, aggregateId) == recorded)
  {
    forall i | 0 <= i < |run|
      ensures Stale(run[i], aggregateType, aggregateId) <==> Overtaken(run, i, aggregateType, aggregateId)
    {
      StaleExactlyWhenOvertaken(run, i, aggregateType, aggregateId);
    }
    NumberedOrRepeated(run, aggregateType, aggregateId);
    var recorded := Recorded(Final(run).log, aggregateType, aggregateId);
    if NoStaleSave(run, aggregateType, aggregateId) {
      StableSortOfAscending(VersionKey(), recorded);
    }
  }
}
