/** Three runs in which the answers of the updaters and the final statuses disagree. */
module SchedulerRuns {
  import opened Options
  import opened Scheduler
  import opened SchedulerOutcomes
  import opened SchedulerTiming

  const A: Tenant := "t1-f"
  const B: Tenant := "t2-f"

  function Scheduling(t: Tenant): Call {
    ToSchedule(t, CREATE, Some("nos"), Some("in"))
  }

  /** A new tenant is scheduled. */
  function Schedules(t: Tenant): seq<Event> {
    [CallSchedule(t, CREATE, Some("nos"), Some("in")), Acquire(Scheduling(t)), Commit, Hangup]
  }

  function RowOf(status: Status): Row {
    Row(Some(CREATE), Some("nos"), Some("in"), status)
  }

  function TimesOf(started: bool): Times {
    Times(true, started, false)
  }

  lemma CallIsAcquired(s: State, t: Tenant)
    requires s.holder.Free? && t !in s.rss
    ensures var called := s.(waiting := s.waiting + multiset{Scheduling(t)});
            && Leads(s, Schedules(t)[0], called)
            && Leads(called, Schedules(t)[1], s.(holder := HeldByCall(Scheduling(t))))
  {
    assert s.waiting + multiset{Scheduling(t)} - multiset{Scheduling(t)} == s.waiting;
  }

  lemma CallIsCommitted(s: State, t: Tenant)
    requires s.holder.Free? && t !in s.rss && t !in s.timing
    ensures var done := s.(rss := s.rss[t := RowOf(SCHEDULED)], timing := s.timing[t := TimesOf(false)]);
            && Leads(s.(holder := HeldByCall(Scheduling(t))), Schedules(t)[2], done.(holder := HeldByCall(Finished)))
            && Leads(done.(holder := HeldByCall(Finished)), Schedules(t)[3], done)
  {
  }

  lemma RunLeads(events: seq<Event>, e: Event, r: State)
    requires Leads(Run(events), e, r)
    ensures Run(events + [e]) == r
  {
    hide Enabled, Step;
    RunFromExtends(INITIAL, events, e);
  }

  lemma RunSchedules(events: seq<Event>, t: Tenant)
    requires Run(events).holder.Free? && t !in Run(events).rss && t !in Run(events).timing
    ensures var s := Run(events);
            Run(events + Schedules(t)) == s.(rss := s.rss[t := RowOf(SCHEDULED)], timing := s.timing[t := TimesOf(false)])
  {
    var s, es := Run(events), Schedules(t);
    CallIsAcquired(s, t);
    CallIsCommitted(s, t);
    hide Leads, Run;
    RunLeads(events, es[0], s.(waiting := s.waiting + multiset{Scheduling(t)}));
    RunLeads(events + [es[0]], es[1], s.(holder := HeldByCall(Scheduling(t))));
    var done := s.(rss := s.rss[t := RowOf(SCHEDULED)], timing := s.timing[t := TimesOf(false)]);
    RunLeads(events + [es[0]] + [es[1]], es[2], done.(holder := HeldByCall(Finished)));
    RunLeads(events + [es[0]] + [es[1]] + [es[2]], es[3], done);
    assert events + es == events + [es[0]] + [es[1]] + [es[2]] + [es[3]];
  }

  // -------------------------------------------------------------------------
  // A refused tenant that ends as PROCESSED
  // -------------------------------------------------------------------------

  function Rows(a: Status, b: Status): Storage {
    map[A := RowOf(a), B := RowOf(b)]
  }

  function Started(a: bool, b: bool): Timing {
    map[A := TimesOf(a), B := TimesOf(b)]
  }

  const BATCH: seq<Tenant> := [A, B]

  /** The NOS updater refuses the first of two tenants and takes the second; the in-network
      updater answers with 200. */
  const REFUSED: seq<Event> :=
    Schedules(A) + Schedules(B)
    + [Snapshot(BATCH, true), BeginTenant, NosAnswers(NosRefused), FailTenant, BeginTenant, NosAnswers(NosOk), Collect,
       EndTenants, InAnswers(InOk), MarkProcessed({}, false), Release]

  const TAKEN: Entry := Entry(B, Some("in"))
  const READY := State(Rows(SCHEDULED, SCHEDULED), Started(false, false), [], Free, multiset{}, Waiting, None, [], [], [])
  const BEGUN := READY.(holder := HeldByLoop, loop := Begin(BATCH, 0))
  const WORKS_A := BEGUN.(rss := Rows(PROCESSING, SCHEDULED), timing := Started(true, false), current := Some(A))
  const FAILED_A := WORKS_A.(rss := Rows(FAILED, SCHEDULED), loop := Begin(BATCH, 1))
  const WORKS_B := FAILED_A.(rss := Rows(FAILED, PROCESSING), timing := Started(true, true), current := Some(B))
  const TAKES_B := WORKS_B.(accepted := [TAKEN], pending := [TAKEN])
  const CALLED := TAKES_B.(sent := [[TAKEN]], replies := [InOk])
  const PROCESSED_BOTH := CALLED.(rss := Rows(PROCESSED, PROCESSED), timing := map[], pending := [])

  lemma BothAreScheduled()
    ensures Run(REFUSED[..8]) == READY
  {
    assert Run([]) == INITIAL;
    RunSchedules([], A);
    RunSchedules([] + Schedules(A), B);
    assert READY.rss == INITIAL.rss[A := RowOf(SCHEDULED)][B := RowOf(SCHEDULED)];
    assert READY.timing == INITIAL.timing[A := TimesOf(false)][B := TimesOf(false)];
    assert REFUSED[..8] == [] + Schedules(A) + Schedules(B);
  }

  lemma RowsChange(a: Status, b: Status, c: Status)
    ensures SetStatus(Rows(a, b), A, c) == Rows(c, b) && SetStatus(Rows(a, b), B, c) == Rows(a, c)
    ensures Started(false, false)[A := Started(false, false)[A].(started := true)] == Started(true, false)
    ensures Started(true, false)[B := Started(true, false)[B].(started := true)] == Started(true, true)
  {
  }

  lemma BeginsBoth()
    ensures Leads(READY, REFUSED[8], BEGUN)
  {
    assert A in READY.rss && B in READY.rss;
    assert IsBatch(READY.rss, BATCH);
  }

  lemma RefusesA()
    ensures Leads(BEGUN, REFUSED[9], WORKS_A.(loop := Asking(BATCH, 0, Some("nos"), Entry(A, Some("in")))))
    ensures Leads(WORKS_A.(loop := Asking(BATCH, 0, Some("nos"), Entry(A, Some("in")))), REFUSED[10], WORKS_A.(loop := Failing(BATCH, 0)))
    ensures Leads(WORKS_A.(loop := Failing(BATCH, 0)), REFUSED[11], FAILED_A)
  {
    RowsChange(SCHEDULED, SCHEDULED, PROCESSING);
    RowsChange(PROCESSING, SCHEDULED, FAILED);
  }

  lemma TakesB()
    ensures Leads(FAILED_A, REFUSED[12], WORKS_B.(loop := Asking(BATCH, 1, Some("nos"), TAKEN)))
    ensures Leads(WORKS_B.(loop := Asking(BATCH, 1, Some("nos"), TAKEN)), REFUSED[13],
                  WORKS_B.(accepted := [TAKEN], loop := Collecting(BATCH, 1, TAKEN)))
    ensures Leads(WORKS_B.(accepted := [TAKEN], loop := Collecting(BATCH, 1, TAKEN)), REFUSED[14], TAKES_B.(loop := Begin(BATCH, 2)))
    ensures Leads(TAKES_B.(loop := Begin(BATCH, 2)), REFUSED[15], TAKES_B.(loop := Sending(BATCH)))
  {
    RowsChange(FAILED, SCHEDULED, PROCESSING);
  }

  lemma BatchIsMarked()
    ensures SetStatuses(Rows(FAILED, PROCESSING), BATCH, PROCESSED) == Rows(PROCESSED, PROCESSED)
    ensures TimedPrefix(BATCH, Started(true, true).Keys) == 2
    ensures AllComplete(Finish(Started(true, true), BATCH))
  {
    RowsChange(FAILED, PROCESSING, PROCESSED);
    RowsChange(PROCESSED, PROCESSING, PROCESSED);
    assert BATCH[1..] == [B];
    assert SetStatuses(Rows(PROCESSED, PROCESSING), [B], PROCESSED) == Rows(PROCESSED, PROCESSED);
  }

  lemma ProcessesBoth()
    ensures Leads(TAKES_B.(loop := Sending(BATCH)), REFUSED[16], CALLED.(loop := Accepted(BATCH)))
    ensures Leads(CALLED.(loop := Accepted(BATCH)), REFUSED[17], PROCESSED_BOTH.(loop := Closing(BATCH)))
    ensures Leads(PROCESSED_BOTH.(loop := Closing(BATCH)), REFUSED[18], PROCESSED_BOTH.(loop := Waiting, holder := Free))
  {
    BatchIsMarked();
    hide SetStatuses, TimedPrefix, Finish, AllComplete;
  }

  /** In this run the NOS updater refuses a tenant, which nevertheless ends as PROCESSED,
      with a config that was never sent to the in-network updater. */
  lemma RefusedTenantIsProcessed()
    ensures var s := Run(REFUSED);
            && s.loop.Waiting? && s.accepted == [TAKEN] && s.sent == [[TAKEN]] && s.replies == [InOk]
            && s.rss == Rows(PROCESSED, PROCESSED)
  {
    BothAreScheduled();
    BeginsBoth();
    RefusesA();
    TakesB();
    ProcessesBoth();
    hide Leads, Run;
    LeadsOn(REFUSED, 8, READY, BEGUN);
    LeadsOn(REFUSED, 9, BEGUN, WORKS_A.(loop := Asking(BATCH, 0, Some("nos"), Entry(A, Some("in")))));
    LeadsOn(REFUSED, 10, WORKS_A.(loop := Asking(BATCH, 0, Some("nos"), Entry(A, Some("in")))), WORKS_A.(loop := Failing(BATCH, 0)));
    LeadsOn(REFUSED, 11, WORKS_A.(loop := Failing(BATCH, 0)), FAILED_A);
    LeadsOn(REFUSED, 12, FAILED_A, WORKS_B.(loop := Asking(BATCH, 1, Some("nos"), TAKEN)));
    LeadsOn(REFUSED, 13, WORKS_B.(loop := Asking(BATCH, 1, Some("nos"), TAKEN)),
            WORKS_B.(accepted := [TAKEN], loop := Collecting(BATCH, 1, TAKEN)));
    LeadsOn(REFUSED, 14, WORKS_B.(accepted := [TAKEN], loop := Collecting(BATCH, 1, TAKEN)), TAKES_B.(loop := Begin(BATCH, 2)));
    LeadsOn(REFUSED, 15, TAKES_B.(loop := Begin(BATCH, 2)), TAKES_B.(loop := Sending(BATCH)));
    LeadsOn(REFUSED, 16, TAKES_B.(loop := Sending(BATCH)), CALLED.(loop := Accepted(BATCH)));
    LeadsOn(REFUSED, 17, CALLED.(loop := Accepted(BATCH)), PROCESSED_BOTH.(loop := Closing(BATCH)));
    LeadsOn(REFUSED, 18, PROCESSED_BOTH.(loop := Closing(BATCH)), PROCESSED_BOTH.(loop := Waiting, holder := Free));
    assert REFUSED[..19] == REFUSED;
  }

  // -------------------------------------------------------------------------
  // A deleted tenant that makes the round of another one fail
  // -------------------------------------------------------------------------

  /** A tenant is scheduled and deleted; then another one is scheduled and accepted by
      both updaters. */
  const DELETED_FIRST: seq<Event> :=
    Schedules(A) + [CallDelete(A), Acquire(ToDelete(A)), Commit, Hangup] + Schedules(B)
    + [Snapshot([B], true), BeginTenant, NosAnswers(NosOk), Collect, EndTenants, InAnswers(InOk), MarkProcessed({}, false),
       Handle, Release]

  const SCHEDULED_A := INITIAL.(rss := map[A := RowOf(SCHEDULED)], timing := map[A := TimesOf(false)])
  const DELETED_A := SCHEDULED_A.(rss := map[A := RowOf(DELETED)])
  const LEFT := READY.(rss := Rows(DELETED, SCHEDULED))
  const HELD_B := LEFT.(holder := HeldByLoop, loop := Begin([B], 0))
  const TRIES_B := HELD_B.(rss := Rows(DELETED, PROCESSING), timing := Started(false, true), current := Some(B))
  const GETS_B := TRIES_B.(accepted := [TAKEN], pending := [TAKEN])
  const ANSWERED := GETS_B.(sent := [[TAKEN]], replies := [InOk])
  const STOPPED := ANSWERED.(rss := Rows(DELETED, PROCESSED), timing := STALE_TIMES, pending := [])
  const FAILED_B := STOPPED.(rss := Rows(DELETED, FAILED))
  const STALE_TIMES: Timing := map[A := TimesOf(false), B := Times(true, true, true)]

  lemma DeletesA()
    ensures Leads(SCHEDULED_A, DELETED_FIRST[4], SCHEDULED_A.(waiting := multiset{ToDelete(A)}))
    ensures Leads(SCHEDULED_A.(waiting := multiset{ToDelete(A)}), DELETED_FIRST[5], SCHEDULED_A.(holder := HeldByCall(ToDelete(A))))
    ensures Leads(SCHEDULED_A.(holder := HeldByCall(ToDelete(A))), DELETED_FIRST[6], DELETED_A.(holder := HeldByCall(Finished)))
    ensures Leads(DELETED_A.(holder := HeldByCall(Finished)), DELETED_FIRST[7], DELETED_A)
  {
  }

  lemma AIsDeleted()
    ensures Run(DELETED_FIRST[..8]) == DELETED_A
  {
    assert Run([]) == INITIAL;
    RunSchedules([], A);
    assert DELETED_FIRST[..4] == [] + Schedules(A);
    DeletesA();
    hide Leads, Run;
    LeadsOn(DELETED_FIRST, 4, SCHEDULED_A, SCHEDULED_A.(waiting := multiset{ToDelete(A)}));
    LeadsOn(DELETED_FIRST, 5, SCHEDULED_A.(waiting := multiset{ToDelete(A)}), SCHEDULED_A.(holder := HeldByCall(ToDelete(A))));
    LeadsOn(DELETED_FIRST, 6, SCHEDULED_A.(holder := HeldByCall(ToDelete(A))), DELETED_A.(holder := HeldByCall(Finished)));
    LeadsOn(DELETED_FIRST, 7, DELETED_A.(holder := HeldByCall(Finished)), DELETED_A);
  }

  lemma BIsScheduled()
    ensures Run(DELETED_FIRST[..12]) == LEFT
  {
    AIsDeleted();
    RunSchedules(DELETED_FIRST[..8], B);
    assert LEFT.rss == DELETED_A.rss[B := RowOf(SCHEDULED)];
    assert LEFT.timing == DELETED_A.timing[B := TimesOf(false)];
    assert DELETED_FIRST[..12] == DELETED_FIRST[..8] + Schedules(B);
  }

  lemma RowsOfB(b: Status, c: Status)
    ensures SetStatus(Rows(DELETED, b), B, c) == Rows(DELETED, c)
    ensures Started(false, false)[B := Started(false, false)[B].(started := true)] == Started(false, true)
  {
  }

  lemma BeginsB()
    ensures Leads(LEFT, DELETED_FIRST[12], HELD_B)
    ensures Leads(HELD_B, DELETED_FIRST[13], TRIES_B.(loop := Asking([B], 0, Some("nos"), TAKEN)))
  {
    assert A in LEFT.rss && B in LEFT.rss;
    assert IsBatch(LEFT.rss, [B]);
    RowsOfB(SCHEDULED, PROCESSING);
  }

  lemma GetsB()
    ensures Leads(TRIES_B.(loop := Asking([B], 0, Some("nos"), TAKEN)), DELETED_FIRST[14],
                  TRIES_B.(accepted := [TAKEN], loop := Collecting([B], 0, TAKEN)))
    ensures Leads(TRIES_B.(accepted := [TAKEN], loop := Collecting([B], 0, TAKEN)), DELETED_FIRST[15], GETS_B.(loop := Begin([B], 1)))
    ensures Leads(GETS_B.(loop := Begin([B], 1)), DELETED_FIRST[16], GETS_B.(loop := Sending([B])))
    ensures Leads(GETS_B.(loop := Sending([B])), DELETED_FIRST[17], ANSWERED.(loop := Accepted([B])))
  {
  }

  lemma AIsStale()
    ensures SetStatuses(Rows(DELETED, PROCESSING), [B], PROCESSED) == Rows(DELETED, PROCESSED)
    ensures TimedPrefix([B], Started(false, true).Keys) == 1
    ensures Finish(Started(false, true), [B]) == STALE_TIMES
    ensures !AllComplete(STALE_TIMES) && Pop(STALE_TIMES, {}) == STALE_TIMES
  {
    RowsOfB(PROCESSING, PROCESSED);
    assert A in STALE_TIMES;
  }

  lemma Stops()
    ensures Leads(ANSWERED.(loop := Accepted([B])), DELETED_FIRST[18], STOPPED.(loop := Handling([B])))
    ensures Leads(STOPPED.(loop := Handling([B])), DELETED_FIRST[19], FAILED_B.(loop := Closing([B])))
    ensures Leads(FAILED_B.(loop := Closing([B])), DELETED_FIRST[20], FAILED_B.(loop := Waiting, holder := Free))
  {
    AIsStale();
    RowsOfB(PROCESSED, FAILED);
    hide SetStatuses, TimedPrefix, Finish, AllComplete, Pop;
  }

  /** In this run a tenant whose config both updaters took with 200 ends as FAILED,
      because an earlier tenant was deleted before its round. */
  lemma DeletionFailsAnotherTenant()
    ensures var s := Run(DELETED_FIRST);
            && s.loop.Waiting? && s.accepted == [TAKEN] && s.sent == [[TAKEN]] && s.replies == [InOk]
            && s.rss == Rows(DELETED, FAILED) && Unfinished(s, A)
  {
    BIsScheduled();
    BeginsB();
    GetsB();
    Stops();
    hide Leads, Run;
    LeadsOn(DELETED_FIRST, 12, LEFT, HELD_B);
    LeadsOn(DELETED_FIRST, 13, HELD_B, TRIES_B.(loop := Asking([B], 0, Some("nos"), TAKEN)));
    LeadsOn(DELETED_FIRST, 14, TRIES_B.(loop := Asking([B], 0, Some("nos"), TAKEN)),
            TRIES_B.(accepted := [TAKEN], loop := Collecting([B], 0, TAKEN)));
    LeadsOn(DELETED_FIRST, 15, TRIES_B.(accepted := [TAKEN], loop := Collecting([B], 0, TAKEN)), GETS_B.(loop := Begin([B], 1)));
    LeadsOn(DELETED_FIRST, 16, GETS_B.(loop := Begin([B], 1)), GETS_B.(loop := Sending([B])));
    LeadsOn(DELETED_FIRST, 17, GETS_B.(loop := Sending([B])), ANSWERED.(loop := Accepted([B])));
    LeadsOn(DELETED_FIRST, 18, ANSWERED.(loop := Accepted([B])), STOPPED.(loop := Handling([B])));
    LeadsOn(DELETED_FIRST, 19, STOPPED.(loop := Handling([B])), FAILED_B.(loop := Closing([B])));
    LeadsOn(DELETED_FIRST, 20, FAILED_B.(loop := Closing([B])), FAILED_B.(loop := Waiting, holder := Free));
    assert DELETED_FIRST[..21] == DELETED_FIRST;
  }

  // -------------------------------------------------------------------------
  // A config that is sent twice
  // -------------------------------------------------------------------------

  /** A tenant is scheduled; its round calls the in-network updater, which raises; the next
      round, without a batch, calls it again, which succeeds. */
  const TWICE: seq<Event> :=
    Schedules(A)
    + [Snapshot([A], true), BeginTenant, NosAnswers(NosOk), Collect, EndTenants, InAnswers(InRaised), Handle, Release,
       Snapshot([], true), EndTenants, InAnswers(InOk), MarkProcessed({}, false), Handle, Release]

  const SENT: Entry := Entry(A, Some("in"))

  function OneRow(status: Status): Storage {
    map[A := RowOf(status)]
  }

  const HELD := SCHEDULED_A.(holder := HeldByLoop)
  const ASKING := HELD.(rss := OneRow(PROCESSING), timing := map[A := TimesOf(true)], current := Some(A))
  const COLLECTED := ASKING.(accepted := [SENT], pending := [SENT])

  lemma BeginsRound()
    ensures Leads(SCHEDULED_A, TWICE[4], HELD.(loop := Begin([A], 0)))
    ensures Leads(HELD.(loop := Begin([A], 0)), TWICE[5], ASKING.(loop := Asking([A], 0, Some("nos"), SENT)))
  {
    assert A in SCHEDULED_A.rss;
    assert IsBatch(SCHEDULED_A.rss, [A]);
  }

  lemma Collects()
    ensures Leads(ASKING.(loop := Asking([A], 0, Some("nos"), SENT)), TWICE[6],
                  ASKING.(accepted := [SENT], loop := Collecting([A], 0, SENT)))
    ensures Leads(ASKING.(accepted := [SENT], loop := Collecting([A], 0, SENT)), TWICE[7], COLLECTED.(loop := Begin([A], 1)))
    ensures Leads(COLLECTED.(loop := Begin([A], 1)), TWICE[8], COLLECTED.(loop := Sending([A])))
  {
  }

  const RAISED := COLLECTED.(sent := [[SENT]], replies := [InRaised])
  const FAILED_ONCE := RAISED.(rss := OneRow(FAILED))

  lemma Raises()
    ensures Leads(COLLECTED.(loop := Sending([A])), TWICE[9], RAISED.(loop := Handling([A])))
    ensures Leads(RAISED.(loop := Handling([A])), TWICE[10], FAILED_ONCE.(loop := Closing([A])))
    ensures Leads(FAILED_ONCE.(loop := Closing([A])), TWICE[11], FAILED_ONCE.(holder := Free, loop := Waiting))
  {
  }

  const SENT_TWICE := FAILED_ONCE.(sent := [[SENT], [SENT]], replies := [InRaised, InOk])

  lemma SendsAgain()
    ensures Leads(FAILED_ONCE.(holder := Free, loop := Waiting), TWICE[12], FAILED_ONCE.(loop := Begin([], 0)))
    ensures Leads(FAILED_ONCE.(loop := Begin([], 0)), TWICE[13], FAILED_ONCE.(loop := Sending([])))
    ensures Leads(FAILED_ONCE.(loop := Sending([])), TWICE[14], SENT_TWICE.(loop := Accepted([])))
  {
    assert A in FAILED_ONCE.rss;
    assert IsBatch(FAILED_ONCE.rss, []);
  }

  lemma MarksNobody()
    ensures Leads(SENT_TWICE.(loop := Accepted([])), TWICE[15], SENT_TWICE.(pending := [], loop := Handling([])))
    ensures Leads(SENT_TWICE.(pending := [], loop := Handling([])), TWICE[16], SENT_TWICE.(pending := [], loop := Closing([])))
    ensures Leads(SENT_TWICE.(pending := [], loop := Closing([])), TWICE[17],
                  SENT_TWICE.(pending := [], holder := Free, loop := Waiting))
  {
    var timing := Finish(SENT_TWICE.timing, []);
    assert timing == SENT_TWICE.timing && A in timing && !AllComplete(timing);
    assert Pop(timing, {}) == timing;
  }

  lemma BeginningOfTwo()
    ensures Run(TWICE[..6]) == ASKING.(loop := Asking([A], 0, Some("nos"), SENT))
  {
    assert Run([]) == INITIAL;
    RunSchedules([], A);
    assert TWICE[..4] == [] + Schedules(A);
    BeginsRound();
    hide Leads, Run;
    LeadsOn(TWICE, 4, SCHEDULED_A, HELD.(loop := Begin([A], 0)));
    LeadsOn(TWICE, 5, HELD.(loop := Begin([A], 0)), ASKING.(loop := Asking([A], 0, Some("nos"), SENT)));
  }

  lemma FirstRoundOfTwo()
    ensures Run(TWICE[..12]) == FAILED_ONCE.(holder := Free, loop := Waiting)
  {
    BeginningOfTwo();
    Collects();
    Raises();
    hide Leads, Run;
    LeadsOn(TWICE, 6, ASKING.(loop := Asking([A], 0, Some("nos"), SENT)),
            ASKING.(accepted := [SENT], loop := Collecting([A], 0, SENT)));
    LeadsOn(TWICE, 7, ASKING.(accepted := [SENT], loop := Collecting([A], 0, SENT)), COLLECTED.(loop := Begin([A], 1)));
    LeadsOn(TWICE, 8, COLLECTED.(loop := Begin([A], 1)), COLLECTED.(loop := Sending([A])));
    LeadsOn(TWICE, 9, COLLECTED.(loop := Sending([A])), RAISED.(loop := Handling([A])));
    LeadsOn(TWICE, 10, RAISED.(loop := Handling([A])), FAILED_ONCE.(loop := Closing([A])));
    LeadsOn(TWICE, 11, FAILED_ONCE.(loop := Closing([A])), FAILED_ONCE.(holder := Free, loop := Waiting));
  }

  /** In this run one accepted config is sent twice, and its tenant ends as FAILED although
      the in-network updater took the config with 200. */
  lemma RaisedConfigIsSentTwice()
    ensures var s := Run(TWICE);
            && s.loop.Waiting? && s.accepted == [SENT] && s.sent == [[SENT], [SENT]] && s.replies == [InRaised, InOk]
            && A in s.rss && s.rss[A].status == FAILED
  {
    FirstRoundOfTwo();
    SendsAgain();
    MarksNobody();
    hide Leads, Run;
    LeadsOn(TWICE, 12, FAILED_ONCE.(holder := Free, loop := Waiting), FAILED_ONCE.(loop := Begin([], 0)));
    LeadsOn(TWICE, 13, FAILED_ONCE.(loop := Begin([], 0)), FAILED_ONCE.(loop := Sending([])));
    LeadsOn(TWICE, 14, FAILED_ONCE.(loop := Sending([])), SENT_TWICE.(loop := Accepted([])));
    LeadsOn(TWICE, 15, SENT_TWICE.(loop := Accepted([])), SENT_TWICE.(pending := [], loop := Handling([])));
    LeadsOn(TWICE, 16, SENT_TWICE.(pending := [], loop := Handling([])), SENT_TWICE.(pending := [], loop := Closing([])));
    LeadsOn(TWICE, 17, SENT_TWICE.(pending := [], loop := Closing([])), SENT_TWICE.(pending := [], holder := Free, loop := Waiting));
    assert TWICE[..18] == TWICE;
  }
}
