/** When each step of the ending is taken, said from the transcript and the clocks. */
module EndingLaws {
  import opened Ending
  import opened EndingProofs

  /** The narrative state speaks of the whole transcript as it is: nothing is invalidated, the last reconciliation is of the
      current history and reaches every row, and there is one. */
  predicate Reconciled(s: State) {
    && s.clock.invalidatedFrom.None? && s.clock.reconciledRevision == s.clock.historyRevision
    && (forall id :: id in s.messages ==> id <= s.clock.updatedThrough) && s.messages != map[]
  }

  lemma FactsAreReconciled(s: State)
    requires RowsInRange(s)
    ensures FactsCurrent(s) <==> Reconciled(s)
  {
    assert Latest(s) == 0 || Latest(s) in s.messages;
    forall id | id in s.messages ensures 0 < id <= Latest(s) {
    }
  }

  // ---- Readiness and every stage after it rest on a reconciled story ----

  ghost predicate ReadyIsReconciled(s: State) {
    s.ending.lifecycle == FinaleReady ==> Reconciled(s)
  }

  lemma ReadyIsReconciledNext(s: State, a: Step)
    requires RowsInRange(s) && ReadyIsReconciled(s)
    ensures ReadyIsReconciled(Next(s, a))
  {
    FactsAreReconciled(s);
  }

  lemma {:induction false} ReadyIsReconciledAlways(s: State, steps: seq<Step>)
    requires Inv(s) && ReadyIsReconciled(s)
    ensures Inv(Run(s, steps)) && ReadyIsReconciled(Run(s, steps))
    decreases |steps|
  {
    if steps != [] {
      InvNext(s, steps[0]);
      ReadyIsReconciledNext(s, steps[0]);
      ReadyIsReconciledAlways(Next(s, steps[0]), steps[1..]);
    }
  }

  /** In every run a ready story is reconciled. */
  lemma ReadyStoriesAreReconciled(steps: seq<Step>)
    ensures Run(NEW_STORY, steps).ending.lifecycle == FinaleReady ==> Reconciled(Run(NEW_STORY, steps))
  {
    InvAtStart();
    ReadyIsReconciledAlways(NEW_STORY, steps);
  }

  /** In every run the step that makes a story ready, starts its finale, accepts its resolution, begins its epilogue or
      closes it finds the story reconciled. */
  lemma StagesAreReconciled(steps: seq<Step>, a: Step)
    ensures var s := Run(NEW_STORY, steps); var l := Next(s, a).ending.lifecycle;
      l != s.ending.lifecycle && (l == FinaleReady || l == Finale || l == ResolutionCommitted || l == EpiloguePending || l == Closed)
      ==> Reconciled(s)
  {
    InvAtStart();
    InvAlways(NEW_STORY, steps);
    FactsAreReconciled(Run(NEW_STORY, steps));
  }

  /** The last reconciliation is of no later history. */
  ghost predicate ReconciledBehind(s: State) { s.clock.reconciledRevision <= s.clock.historyRevision }

  lemma {:induction false} ReconciledBehindAlways(s: State, steps: seq<Step>)
    requires ReconciledBehind(s)
    ensures ReconciledBehind(Run(s, steps))
    decreases |steps|
  {
    if steps != [] {
      ReconciledBehindNext(s, steps[0]);
      ReconciledBehindAlways(Next(s, steps[0]), steps[1..]);
    }
  }

  lemma ReconciledBehindNext(s: State, a: Step)
    requires ReconciledBehind(s)
    ensures ReconciledBehind(Next(s, a))
    ensures Next(s, a).messages != s.messages ==> Next(s, a).clock.reconciledRevision < Next(s, a).clock.historyRevision
  {
  }

  /** In every run a step that changes the transcript leaves the story unreconciled. */
  lemma ChangeUnreconciles(steps: seq<Step>, a: Step)
    ensures var s := Run(NEW_STORY, steps); Next(s, a).messages != s.messages ==> !Reconciled(Next(s, a))
  {
    ReconciledBehindAlways(NEW_STORY, steps);
    ReconciledBehindNext(Run(NEW_STORY, steps), a);
  }

  // ---- When each step is taken ----

  /** Readiness is given exactly to an open, reconciled and developed closed story with at most 128 open arcs, at the
      revisions its caller read. */
  lemma ReadyExactly(steps: seq<Step>, x: Expected, arcs: nat)
    ensures var s := Run(NEW_STORY, steps); var s' := Next(s, DoMarkReady(x, arcs));
      if && s.ending.lifecycle == Open && Reconciled(s) && s.settings.closedStory && s.clock.developed && arcs <= 128
         && x.story == s.clock.stateRevision && x.lifecycle == s.ending.lifecycleRevision && x.goal == s.ending.goalRevision
      then && s'.ending.lifecycle == FinaleReady && s'.ending.readyRevision == Some(s.clock.stateRevision)
           && s'.ending.readySettings == Some(s.settings.revision) && s'.clock == s.clock && s'.messages == s.messages
      else s' == s
  {
    InvAtStart();
    InvAlways(NEW_STORY, steps);
    FactsAreReconciled(Run(NEW_STORY, steps));
  }

  /** The finale starts exactly from a ready and still closed story whose state and settings revisions are those readiness
      was given for, at the revisions the caller read; the checkpoint is then the last row. */
  lemma FinaleExactly(steps: seq<Step>, x: Expected, operation: string)
    ensures var s := Run(NEW_STORY, steps); var s' := Next(s, DoEnterFinale(x, operation));
      if && s.ending.lifecycle == FinaleReady && s.settings.closedStory
         && s.ending.readyRevision == Some(s.clock.stateRevision) && s.ending.readySettings == Some(s.settings.revision)
         && x.story == s.clock.stateRevision && x.lifecycle == s.ending.lifecycleRevision && x.goal == s.ending.goalRevision
      then && s'.ending.lifecycle == Finale && s'.ending.operationId == operation && s'.ending.checkpointThrough.Some?
           && s'.ending.checkpointThrough.value in s.messages && s'.ending.finaleRow.None? && s'.messages == s.messages
           && forall id :: id in s.messages ==> id <= s'.ending.checkpointThrough.value
      else s' == s
  {
    InvAtStart();
    ReadyIsReconciledAlways(NEW_STORY, steps);
    var s := Run(NEW_STORY, steps);
    FactsAreReconciled(s);
    if s.ending.lifecycle == FinaleReady {
      assert Latest(s) in s.messages;
    }
  }

  /** A resolution is accepted exactly in a reconciled finale through its last row, in its resolution phase, with no arc
      open, on evidence of assistant rows that includes the finale row. */
  lemma ResolvesExactly(steps: seq<Step>, evidence: seq<nat>, through: nat, inResolution: bool, arcsOpen: bool)
    ensures var s := Run(NEW_STORY, steps);
      var s' := Next(s, DoResolveFinale(evidence, through, inResolution, arcsOpen));
      if && s.ending.lifecycle == Finale && Reconciled(s) && (forall id :: id in s.messages ==> id <= through)
         && inResolution && !arcsOpen && s.ending.finaleRow.Some? && s.ending.finaleRow.value in evidence
         && (forall id :: id in evidence ==> id in s.messages && s.messages[id].role == "assistant")
      then s'.ending.lifecycle == ResolutionCommitted && s'.ending.resolutionRow == s.ending.finaleRow && s'.messages == s.messages
      else s' == s
  {
    InvAtStart();
    InvAlways(NEW_STORY, steps);
    var s := Run(NEW_STORY, steps);
    FactsAreReconciled(s);
    LastRowBounds(s, through);
    EvidenceIsRows(s.messages, evidence);
  }

  lemma LastRowBounds(s: State, through: nat)
    requires RowsInRange(s)
    ensures through >= Latest(s) <==> forall id :: id in s.messages ==> id <= through
  {
    if Latest(s) != 0 {
      assert Latest(s) in s.messages;
    }
  }

  lemma EvidenceIsRows(m: Transcript, evidence: seq<nat>)
    ensures (exists i :: 0 <= i < |evidence| && !IsAssistant(m, evidence[i]))
            <==> !(forall id :: id in evidence ==> id in m && m[id].role == "assistant")
  {
    if !(forall id :: id in evidence ==> id in m && m[id].role == "assistant") {
      var id :| id in evidence && !(id in m && m[id].role == "assistant");
      var i :| 0 <= i < |evidence| && evidence[i] == id;
      assert !IsAssistant(m, evidence[i]);
    }
  }

  /** The epilogue begins exactly from a reconciled resolution at the revision the worker read; that the resolution row is
      still an assistant row is known. */
  lemma EpilogueBeginsExactly(steps: seq<Step>, revision: nat)
    ensures var s := Run(NEW_STORY, steps); var s' := Next(s, DoBeginEpilogue(revision));
      if s.ending.lifecycle == ResolutionCommitted && s.ending.lifecycleRevision == revision && Reconciled(s)
      then s'.ending.lifecycle == EpiloguePending && s'.messages == s.messages && s'.ending.resolutionRow == s.ending.resolutionRow
      else s' == s
  {
    InvAtStart();
    InvAlways(NEW_STORY, steps);
    FactsAreReconciled(Run(NEW_STORY, steps));
  }

  /** The epilogue is committed exactly by the worker that holds the lease, over the clock and revision it read; it is the
      one new row. */
  lemma EpilogueCommitsExactly(steps: seq<Step>, token: string, revision: nat, source: Clock, content: string)
    ensures var s := Run(NEW_STORY, steps); var s' := Next(s, DoCommitEpilogue(token, revision, source, content));
      if && s.ending.lifecycle == EpiloguePending && token != "" && token == s.ending.workToken
         && source == s.clock && revision == s.ending.lifecycleRevision
      then && s'.ending.lifecycle == EpilogueCommitted && s'.ending.epilogueRow == Some(s.nextId)
           && s'.messages == s.messages[s.nextId := Message("assistant", content)] && s'.ending.workToken == token
      else s' == s
  {
    InvAtStart();
    InvAlways(NEW_STORY, steps);
  }

  /** A story closes exactly when its epilogue is committed and reconciled, by the worker that holds the lease. */
  lemma ClosesExactly(steps: seq<Step>, token: string)
    ensures var s := Run(NEW_STORY, steps); var s' := Next(s, DoCloseStory(token));
      if s.ending.lifecycle == EpilogueCommitted && token == s.ending.workToken && Reconciled(s)
      then s'.ending.lifecycle == Closed && s'.messages == s.messages && s'.ending.epilogueRow == s.ending.epilogueRow
      else s' == s
  {
    InvAtStart();
    InvAlways(NEW_STORY, steps);
    FactsAreReconciled(Run(NEW_STORY, steps));
  }

  /** A goal changes exactly before the finale, to another text of at most 4000 characters, at the revisions the caller
      read, and for the Director only in a reconciled closed story; readiness is then gone. */
  lemma GoalChangesExactly(steps: seq<Step>, goal: string, byDirector: bool, x: Expected)
    ensures var s := Run(NEW_STORY, steps); var s' := Next(s, DoSetGoal(goal, byDirector, x));
      if && (s.ending.lifecycle == Open || s.ending.lifecycle == FinaleReady) && goal != s.ending.goal && |goal| <= 4000
         && x.story == s.clock.stateRevision && x.lifecycle == s.ending.lifecycleRevision && x.goal == s.ending.goalRevision
         && (byDirector ==> Reconciled(s) && s.settings.closedStory)
      then && s'.ending.goal == goal && s'.ending.goalRevision == s.ending.goalRevision + 1 && s'.ending.lifecycle == Open
           && s'.goals != [] && s'.goals[|s'.goals| - 1] == GoalChange(s.ending.goalRevision + 1, s.ending.goal, goal)
      else s' == s
  {
    InvAtStart();
    InvAlways(NEW_STORY, steps);
    FactsAreReconciled(Run(NEW_STORY, steps));
  }

  /** Settings are saved exactly until the resolution, and in the finale only with the same mode and confirmation. */
  lemma SettingsSavedExactly(s: State, json: string, closedStory: bool, confirm: bool)
    requires s.settings.revision >= -1
    ensures var s' := Next(s, DoSaveSettings(json, closedStory, confirm));
      if s.ending.lifecycle == Open || s.ending.lifecycle == FinaleReady
         || (s.ending.lifecycle == Finale && closedStory == s.settings.closedStory && confirm == s.settings.confirm)
      then s'.settings == Settings(json, closedStory, confirm, s.settings.revision + 1) && s'.messages == s.messages
      else s' == s
  {
  }

  /** Rows change exactly outside the checkpoint's prefix and before the resolution; each change moves state and history
      by one and invalidates from the row on. */
  lemma RowsChangeExactly(s: State, id: nat, role: string, content: string)
    ensures var s' := Next(s, DoEdit(id, role, content, false)); var t := Next(s, DoDelete(id));
      var free := s.ending.lifecycle.Rank() <= 2
                  && (s.ending.checkpointThrough.Some? ==> s.ending.checkpointThrough.value < id);
      && (if id in s.messages && s.messages[id] != Message(role, content) && free
          then s'.messages == s.messages[id := Message(role, content)] && Rewrites(s, s', id) else s' == s)
      && (if id in s.messages && free then t.messages == s.messages - {id} && Rewrites(s, t, id) else t == s)
  {
  }

  /** One change of a row already there, at or before which everything has to be read again. */
  predicate Rewrites(s: State, s': State, id: nat) {
    && s'.clock.stateRevision == s.clock.stateRevision + 1 && s'.clock.historyRevision == s.clock.historyRevision + 1
    && s'.clock.rewriteRevision == s.clock.rewriteRevision + 1
    && s'.clock.invalidatedFrom.Some? && s'.clock.invalidatedFrom.value <= id
    && (s.clock.invalidatedFrom.Some? ==> s'.clock.invalidatedFrom.value <= s.clock.invalidatedFrom.value)
    && s'.clock.reconciledRevision == s.clock.reconciledRevision && s'.clock.updatedThrough == s.clock.updatedThrough
  }

  /** Until the resolution every insert is a new last row, which only a reconciliation reaching beyond it makes a rewrite. */
  lemma InsertsExactly(s: State, role: string, content: string)
    requires s.ending.lifecycle.Rank() <= 2
    ensures var s' := Next(s, DoInsert(role, content));
      && s'.messages == s.messages[s.nextId := Message(role, content)] && s'.nextId == s.nextId + 1
      && s'.clock.stateRevision == s.clock.stateRevision + 1 && s'.clock.historyRevision == s.clock.historyRevision + 1
      && (s.clock.updatedThrough < s.nextId ==> s'.clock.rewriteRevision == s.clock.rewriteRevision
                                                && s'.clock.invalidatedFrom == s.clock.invalidatedFrom)
      && (s.clock.updatedThrough >= s.nextId ==> Rewrites(s, s', s.nextId))
  {
  }

  /** A reconciliation is accepted exactly in a story that is not closed and that it does not take back, unless rows were
      invalidated. */
  lemma ReconcilesExactly(s: State, through: nat, developed: bool)
    ensures var s' := Next(s, DoReconcile(through, developed));
      if s.ending.lifecycle != Closed && (s.clock.updatedThrough <= through || s.clock.invalidatedFrom.Some?)
      then && s'.clock.reconciledRevision == s.clock.historyRevision == s'.clock.historyRevision
           && s'.clock.updatedThrough == through && s'.clock.invalidatedFrom.None? && s'.clock.developed == developed
           && s'.clock.stateRevision == s.clock.stateRevision + 1 && s'.messages == s.messages && s'.ending == s.ending
      else s' == s
  {
  }

  // ---- The work lease in time ----

  /** Times of the run are within 600 seconds of the claim, and its holder does not release the lease. */
  predicate LeaseLasts(steps: seq<Step>, token: string, started: int) {
    forall i :: 0 <= i < |steps| ==> KeepsLease(steps[i], token, started)
  }

  predicate KeepsLease(a: Step, token: string, started: int) {
    && (a.DoClaimWork? ==> a.now <= started + 600)
    && (a.DoReleaseWork? ==> a.token != token)
  }

  /** A live work lease keeps every other worker out, in every run its holder does not end, and then goes to whoever asks
      first. */
  lemma {:induction false} WorkLeaseHolds(s: State, steps: seq<Step>, token: string, started: int, other: string, now: int)
    requires Inv(s) && s.ending.lifecycle.Closing() && s.ending.workToken == token != "" && s.ending.workStarted == started
    requires LeaseLasts(steps, token, started)
    ensures var s' := Run(s, steps);
      && s'.ending.workToken == token && s'.ending.workStarted == started
      && (now <= started + 600 ==> Next(s', DoClaimWork(other, now)) == s')
      && (now > started + 600 ==> Next(s', DoClaimWork(other, now)).ending.workToken == other)
    decreases |steps|
  {
    if steps != [] {
      assert KeepsLease(steps[0], token, started);
      LeaseStep(s, steps[0], token, started);
      InvNext(s, steps[0]);
      assert forall i :: 0 <= i < |steps[1..]| ==> steps[1..][i] == steps[i + 1];
      WorkLeaseHolds(Next(s, steps[0]), steps[1..], token, started, other, now);
    }
  }

  lemma LeaseStep(s: State, a: Step, token: string, started: int)
    requires Inv(s) && s.ending.lifecycle.Closing() && s.ending.workToken == token != "" && s.ending.workStarted == started
    requires KeepsLease(a, token, started)
    ensures var s' := Next(s, a);
      s'.ending.workToken == token && s'.ending.workStarted == started && s'.ending.lifecycle.Closing()
  {
  }

  /** A free lease is claimed by any worker of a closing story, and by none before; its holder alone gives it back. */
  lemma LeaseIsGiven(s: State, token: string, now: int)
    requires s.ending.workToken == ""
    ensures var s' := Next(s, DoClaimWork(token, now));
      if s.ending.lifecycle.Rank() >= 3 then s'.ending.workToken == token && s'.ending.workStarted == now else s' == s
    ensures token != "" && s.ending.lifecycle.Rank() >= 3 ==>
              Next(Next(s, DoClaimWork(token, now)), DoReleaseWork(token)).ending.workToken == ""
  {
  }
}
