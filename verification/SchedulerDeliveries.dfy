/** How often an accepted config reaches the in-network updater. */
module SchedulerDeliveries {
  import opened Scheduler
  import opened SchedulerSafety
  import opened SchedulerOutcomes

  // -------------------------------------------------------------------------
  // Exactly when every config is sent once
  // -------------------------------------------------------------------------

  /** A call that raised was followed by another one. */
  ghost predicate Repeats(replies: seq<InReply>) {
    exists i :: 0 <= i < |replies| - 1 && replies[i].InRaised?
  }

  lemma RepeatsAppends(replies: seq<InReply>)
    requires replies != []
    ensures var n := |replies| - 1;
            Repeats(replies) <==> Repeats(replies[..n]) || (n > 0 && replies[n - 1].InRaised?)
  {
    var n := |replies| - 1;
    if Repeats(replies[..n]) {
      var i :| 0 <= i < n - 1 && replies[..n][i].InRaised?;
      assert replies[i].InRaised?;
    }
    if Repeats(replies) {
      var i :| 0 <= i < n && replies[i].InRaised?;
      assert i < n - 1 ==> replies[..n][i].InRaised?;
    }
  }

  lemma LastIsNotEmpty(sent: seq<seq<Entry>>, replies: seq<InReply>)
    requires Linked(sent, replies) && sent != []
    ensures sent[|sent| - 1] != []
  {
  }

  /** What is sent is what is sent first, unless something is sent again. */
  lemma {:induction false} FirstsAreAllIff(sent: seq<seq<Entry>>, replies: seq<InReply>)
    requires Linked(sent, replies)
    ensures |Firsts(sent, replies)| <= |Flatten(sent)|
    ensures !Repeats(replies) ==> Firsts(sent, replies) == Flatten(sent)
    ensures Repeats(replies) ==> |Firsts(sent, replies)| < |Flatten(sent)|
    decreases sent
  {
    if sent != [] {
      var n := |sent| - 1;
      FirstsAreAllIff(sent[..n], replies[..n]);
      RepeatsAppends(replies);
      if n > 0 {
        LastIsNotEmpty(sent[..n], replies[..n]);
      }
      hide Repeats;
      assert Flatten(sent) == Flatten(sent[..n]) + sent[n];
      assert sent[n][0..] == sent[n];
    }
  }

  /** Between rounds of any run the accepted configs are exactly the configs sent for the
      first time, in order. They are all that was sent, each of them once, if and only
      if no call was made after one that raised. Nothing is sent that the NOS updater
      had not accepted. */
  lemma AcceptedConfigsAreSentOnceIff(events: seq<Event>)
    ensures var s := Run(events);
            && (forall i, e :: 0 <= i < |s.sent| && e in s.sent[i] ==> e in s.accepted)
            && Linked(s.sent, s.replies)
            && (s.loop.Waiting? ==>
                  && s.accepted == Firsts(s.sent, s.replies)
                  && (s.accepted == Flatten(s.sent) <==> !Repeats(s.replies)))
  {
    RunKeepsInv(events);
    var s := Run(events);
    hide Run, LocksOk, TimingOk, BatchOk, Linked, Firsts, Flatten, Repeats;
    FirstsAreAllIff(s.sent, s.replies);
    if s.loop.Waiting? {
      assert s.pending[|s.pending|..] == [];
      assert Firsts(s.sent, s.replies) + [] == Firsts(s.sent, s.replies);
    }
  }

  /** Between rounds something is pending exactly if the last in-network call raised; then
      it is what that call was given. */
  lemma PendingIffLastCallRaised(events: seq<Event>)
    requires Run(events).loop.Waiting?
    ensures var s := Run(events);
            var n := |s.replies|;
            && |s.sent| == n
            && (s.pending != [] <==> n > 0 && s.replies[n - 1].InRaised?)
            && (s.pending != [] ==> s.pending == s.sent[n - 1])
  {
    RunKeepsInv(events);
    var s := Run(events);
    hide Run, LocksOk, TimingOk, BatchOk, Firsts, Linked;
    if s.sent != [] {
      LastIsNotEmpty(s.sent, s.replies);
    }
  }

  lemma {:induction false} LinkedAt(sent: seq<seq<Entry>>, replies: seq<InReply>, i: nat)
    requires Linked(sent, replies) && i + 1 < |sent|
    ensures sent[i] != [] && (replies[i].InRaised? ==> sent[i] <= sent[i + 1])
    decreases sent
  {
    var n := |sent| - 1;
    if i + 1 < n {
      LinkedAt(sent[..n], replies[..n], i);
    } else {
      LastIsNotEmpty(sent[..n], replies[..n]);
    }
  }

  /** Whatever a raising call was given heads the next call of the run. */
  lemma RaisedConfigsAreSentAgain(events: seq<Event>, i: nat)
    requires i + 1 < |Run(events).sent|
    ensures var s := Run(events);
            && |s.replies| == |s.sent| && s.sent[i] != []
            && (s.replies[i].InRaised? ==> s.sent[i] <= s.sent[i + 1])
  {
    RunKeepsInv(events);
    var s := Run(events);
    hide Run, LocksOk, TimingOk, BatchOk, Firsts, Linked;
    LinkedAt(s.sent, s.replies, i);
  }

  // -------------------------------------------------------------------------
  // Accepted tenants without an in-network config
  // -------------------------------------------------------------------------

  /** A missing config that was accepted is collected and never cleared. */
  ghost predicate Clings(s: State, e: Entry) {
    e in s.accepted && e.config.None? ==>
      && !s.loop.Accepted? && !s.loop.Refused?
      && (e in s.pending || (s.loop.Collecting? && s.loop.entry == e))
  }

  /** A call with a missing config raised. */
  ghost predicate MissingRaised(s: State) {
    && |s.sent| == |s.replies|
    && forall i :: 0 <= i < |s.sent| && LacksConfig(s.sent[i]) ==> s.replies[i].InRaised?
  }

  lemma CallClings(s: State, reply: InReply, e: Entry)
    requires Enabled(s, InAnswers(reply)) && Clings(s, e) && MissingRaised(s)
    ensures Clings(Step(s, InAnswers(reply)), e) && MissingRaised(Step(s, InAnswers(reply)))
  {
    var r := Step(s, InAnswers(reply));
    assert e in s.pending && e.config.None? ==> LacksConfig(s.pending);
    assert r.sent == s.sent + [s.pending] && r.replies == s.replies + [reply];
    hide LacksConfig;
  }

  lemma RoundStepClings(s: State, event: Event, e: Entry)
    requires Enabled(s, event) && !Outside(event) && !event.InAnswers? && Clings(s, e)
    requires !s.loop.Accepted? && !s.loop.Refused?
    ensures Clings(Step(s, event), e)
    ensures Step(s, event).sent == s.sent && Step(s, event).replies == s.replies
  {
    hide SetStatus, IsBatch;
  }

  lemma MarkingClings(s: State, event: Event, e: Entry)
    requires Inv(s) && Enabled(s, event) && (event.MarkProcessed? || event.MarkFailed?) && Clings(s, e)
    ensures Clings(Step(s, event), e)
    ensures Step(s, event).sent == s.sent && Step(s, event).replies == s.replies
  {
    MarkingClears(s, event);
    hide Inv, Step;
  }

  lemma StepClings(s: State, event: Event, e: Entry)
    requires Inv(s) && Enabled(s, event) && Clings(s, e) && MissingRaised(s)
    ensures Clings(Step(s, event), e) && MissingRaised(Step(s, event))
  {
    if Outside(event) {
      OutsidersLeaveTheRound(s, event);
      hide Step, Enabled, Inv;
    } else if event.InAnswers? {
      hide Inv, Step, Clings, MissingRaised;
      CallClings(s, event.inReply, e);
    } else if event.MarkProcessed? || event.MarkFailed? {
      hide Inv, Step;
      MarkingClings(s, event, e);
    } else {
      assert !s.loop.Accepted? && !s.loop.Refused?;
      hide Inv, Step;
      RoundStepClings(s, event, e);
    }
  }

  lemma {:induction false} RunClings(events: seq<Event>, e: Entry)
    ensures Clings(Run(events), e) && MissingRaised(Run(events))
  {
    if events != [] {
      var before, event := events[..|events| - 1], events[|events| - 1];
      RunClings(before, e);
      RunKeepsInv(before);
      hide Inv, Enabled, Step, Clings, MissingRaised;
      if Enabled(Run(before), event) {
        StepClings(Run(before), event, e);
      }
    }
  }

  lemma MissingSpreads(sent: seq<seq<Entry>>, replies: seq<InReply>, i: nat, k: nat, e: Entry)
    requires Linked(sent, replies) && i <= k < |sent| && e in sent[i] && e.config.None?
    requires forall j :: 0 <= j < |sent| && LacksConfig(sent[j]) ==> replies[j].InRaised?
    ensures e in sent[k] && replies[k].InRaised?
    decreases k
  {
    if i < k {
      MissingSpreads(sent, replies, i, k - 1, e);
      LinkedAt(sent, replies, k - 1);
    }
    assert LacksConfig(sent[k]);
  }

  /** A tenant accepted by the NOS updater without an in-network config: in every run this
      entry is still pending whenever the loop is between rounds, and the call that first
      contains it and all later calls raise. */
  lemma MissingConfigRaisesForever(events: seq<Event>, e: Entry)
    requires e.config.None?
    ensures var s := Run(events);
            && |s.sent| == |s.replies|
            && (s.loop.Waiting? ==> (e in s.accepted <==> e in s.pending))
            && forall i, k :: 0 <= i <= k < |s.sent| && e in s.sent[i] ==> e in s.sent[k] && s.replies[k].InRaised?
  {
    var s := Run(events);
    RunKeepsInv(events);
    RunClings(events, e);
    hide Run, LocksOk, TimingOk, BatchOk, Linked, Firsts, LacksConfig;
    forall i, k | 0 <= i <= k < |s.sent| && e in s.sent[i]
      ensures e in s.sent[k] && s.replies[k].InRaised?
    {
      MissingSpreads(s.sent, s.replies, i, k, e);
    }
  }
}
