/** What becomes of one outbox entry over the runs of the whole engine: it lives exactly the life Outbox.Life
    describes, so the bounds on that life bound every run. */
module CallbackTheorems {
  import opened Engine
  import opened EngineTheorems
  import O = Outbox

  /** The event is the worker posting this entry ... */
  ghost predicate Posts(s: Engine, e: Event, a: int) {
    Enabled(s, e) && e.Post? && s.held[0].id == a
  }

  /** ... or marking what came of it, whether or not the mark reaches the store. */
  ghost predicate Marks(s: Engine, e: Event, a: int) {
    Enabled(s, e) && e.Mark? && s.held[0].id == a
  }

  /** The answers to entry `a` that were marked in a run, with the times of the marks. */
  ghost function AnswersTo(es: seq<Event>, a: int): seq<O.Attempt> {
    if es == [] then []
    else
      var s, e := At(es[..|es| - 1]), es[|es| - 1];
      AnswersTo(es[..|es| - 1], a) + if Marks(s, e, a) && e.markOK then [O.Attempt(e.outcome, s.now)] else []
  }

  /** How often entry `a` was posted in a run. */
  ghost function PostsTo(es: seq<Event>, a: int): nat {
    if es == [] then 0
    else PostsTo(es[..|es| - 1], a) + if Posts(At(es[..|es| - 1]), es[|es| - 1], a) then 1 else 0
  }

  ghost predicate InHand(held: seq<O.Task>, a: int) {
    exists i :: 0 <= i < |held| && held[i].id == a
  }

  /** An entry after these answers: its life so far, except that it may be in the worker's hands. */
  ghost predicate Lives(e: O.Entry, answers: seq<O.Attempt>) {
    var life := O.Life(e.key, answers);
    && e == life.(status := e.status, nextRetryAt := e.nextRetryAt)
    && (e.retries > 0 ==> e.nextRetryAt == life.nextRetryAt)
    && (if e.status.Processing? then life.status.Pending? else e.status == life.status)
    && O.Posts(e.key, answers) == |answers|
  }

  /** One more answer, marked from a current copy of an entry in processing, is one more step of its life. */
  lemma OneMoreAnswer(e: O.Entry, answers: seq<O.Attempt>, a: int, outcome: O.Outcome, now: int)
    requires Lives(e, answers) && e.status.Processing? && O.EntryOK(e)
    ensures Lives(O.Settle(e, O.TaskOf(a, e), outcome, now), answers + [O.Attempt(outcome, now)])
  {
    var more := answers + [O.Attempt(outcome, now)];
    assert more[..|answers|] == answers;
    O.SettleCounts(O.Life(e.key, answers), O.Attempt(outcome, now));
  }

  /** What a step does to an entry that it does not mark. */
  lemma UnmarkedStep(s: Engine, e: Event, a: int)
    requires Inv(s) && !(Marks(s, e, a) && e.markOK) && a in s.outbox.entries
    ensures a in Step(s, e).outbox.entries
    ensures var before, after := s.outbox.entries[a], Step(s, e).outbox.entries[a];
            after == before || (before.status.Pending? && after == before.(status := O.Processing)
                && InHand(Step(s, e).held, a))
  {
    if Enabled(s, e) {
      if e.ClaimTasks? {
        ClaimStep(s, e, a);
      } else {
        QuietOutbox(s, e, a);
      }
    }
  }

  lemma ClaimStep(s: Engine, e: Event, a: int)
    requires Enabled(s, e) && e.ClaimTasks? && a in s.outbox.entries
    ensures a in OutboxNext(s, e).entries
    ensures var before, after := s.outbox.entries[a], OutboxNext(s, e).entries[a];
            after == before || (before.status.Pending? && after == before.(status := O.Processing)
                && InHand(HeldNext(s, e), a))
  {
    if a in O.SetOf(e.ids) {
      var i :| 0 <= i < |e.ids| && e.ids[i] == a;
      O.ClaimHolds(s.outbox.entries, e.ids, s.now);
      assert HeldNext(s, e)[i].id == a;
    }
  }

  lemma QuietOutbox(s: Engine, e: Event, a: int)
    requires OutboxOK(s.table.rows, s.outbox) && Enabled(s, e) && !e.ClaimTasks? && !(Marks(s, e, a) && e.markOK)
    requires a in s.outbox.entries
    ensures a in OutboxNext(s, e).entries && OutboxNext(s, e).entries[a] == s.outbox.entries[a]
  {}

  /** An entry appears pending and fresh. */
  lemma NewEntry(s: Engine, e: Event, a: int)
    requires Inv(s) && a !in s.outbox.entries && a in Step(s, e).outbox.entries
    ensures var entry := Step(s, e).outbox.entries[a];
            entry == O.Fresh(entry.key, s.now)
  {}

  lemma MarkedStep(s: Engine, e: Event, a: int)
    requires Inv(s) && Marks(s, e, a) && e.markOK
    ensures a in s.outbox.entries && s.outbox.entries[a].status.Processing? && O.EntryOK(s.outbox.entries[a])
    ensures a in Step(s, e).outbox.entries
    ensures Step(s, e).outbox.entries[a] == O.Settle(s.outbox.entries[a], O.TaskOf(a, s.outbox.entries[a]), e.outcome,
              s.now)
  {
    assert O.Holds(s.outbox.entries, s.held[0]);
  }

  ghost predicate LivesIn(s: Engine, a: int, answers: seq<O.Attempt>) {
    if a in s.outbox.entries then Lives(s.outbox.entries[a], answers) else answers == []
  }

  lemma StepLives(s: Engine, e: Event, a: int, answers: seq<O.Attempt>)
    requires Inv(s) && LivesIn(s, a, answers)
    ensures LivesIn(Step(s, e), a, answers + if Marks(s, e, a) && e.markOK then [O.Attempt(e.outcome, s.now)] else [])
  {
    if Marks(s, e, a) && e.markOK {
      MarkedStep(s, e, a);
      OneMoreAnswer(s.outbox.entries[a], answers, a, e.outcome, s.now);
    } else {
      assert answers + [] == answers;
      if a in s.outbox.entries {
        UnmarkedStep(s, e, a);
      } else if a in Step(s, e).outbox.entries {
        NewEntry(s, e, a);
      }
    }
  }

  lemma {:induction false} EntryLives(es: seq<Event>, a: int)
    ensures LivesIn(At(es), a, AnswersTo(es, a))
  {
    if es != [] {
      var n := |es| - 1;
      EntryLives(es[..n], a);
      Reachable(es[..n]);
      StepLives(At(es[..n]), es[n], a, AnswersTo(es[..n], a));
    }
  }

  /** Posted, and its answer not marked: still in hand, or lost by a failed mark or a restart. */
  ghost predicate Unmarked(s: Engine, a: int) {
    && a in s.outbox.entries && s.outbox.entries[a].status.Processing?
    && (InHand(s.held, a) ==> s.posted && s.held[0].id == a)
  }

  /** Every post but one has been marked, and after a lost one nobody posts again. */
  ghost predicate PostsMarked(s: Engine, es: seq<Event>, a: int) {
    PostsTo(es, a) <= |AnswersTo(es, a)| + if Unmarked(s, a) then 1 else 0
  }

  lemma PostIsUnmarked(s: Engine, e: Event, a: int)
    requires Inv(s) && Posts(s, e, a)
    ensures !Unmarked(s, a) && Unmarked(Step(s, e), a)
  {
    assert O.Holds(s.outbox.entries, s.held[0]);
  }

  /** An unmarked post stays unmarked until the answer is marked. */
  lemma UnmarkedStays(s: Engine, e: Event, a: int)
    requires Inv(s) && Unmarked(s, a) && !(Marks(s, e, a) && e.markOK)
    ensures Unmarked(Step(s, e), a)
  {
    UnmarkedStep(s, e, a);
  }

  lemma {:induction false} EveryPostIsMarked(es: seq<Event>, a: int)
    ensures PostsMarked(At(es), es, a)
  {
    if es != [] {
      var n := |es| - 1;
      var s, e := At(es[..n]), es[n];
      EveryPostIsMarked(es[..n], a);
      Reachable(es[..n]);
      if Posts(s, e, a) {
        PostIsUnmarked(s, e, a);
      } else if Unmarked(s, a) && !(Marks(s, e, a) && e.markOK) {
        UnmarkedStays(s, e, a);
      }
    }
  }

  /** Over every run of the engine an entry is posted at most MaxRetries times, the backoff between its posts
      adds up to at most 930 seconds for a start and 30660 for a completed callback, and it is sent exactly if a
      success was answered within the budget before any rejection. */
  lemma CallbackLifeIsBounded(es: seq<Event>, a: int)
    requires a in At(es).outbox.entries
    ensures var entry, answers := At(es).outbox.entries[a], AnswersTo(es, a);
            && PostsTo(es, a) <= O.MaxRetries(entry.key.kind)
            && O.Waited(entry.key, answers) <= (if entry.key.kind.StartKind? then 930 else 30660)
            && (entry.status.Sent? <==>
                  var d := O.Deciding(answers);
                  d < |answers| && d < O.MaxRetries(entry.key.kind) && answers[d].outcome.Posted?)
            && (entry.Terminal() ==> |answers| == entry.retries + 1)
            && (!entry.Terminal() ==> |answers| == entry.retries && O.AllRetryable(answers))
  {
    EntryLives(es, a);
    EveryPostIsMarked(es, a);
    var entry, answers := At(es).outbox.entries[a], AnswersTo(es, a);
    O.LifeIsBounded(entry.key, answers);
    O.LifeSoFar(entry.key, answers);
    O.SentIff(entry.key, answers);
  }
}
