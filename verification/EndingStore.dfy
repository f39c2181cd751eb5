/** The ending's tables as the source updates them in place, each statement followed by the triggers it fires. */
module EndingStore {
  import opened Ending

  class Store {
    var messages: Transcript
    var nextId: nat
    var clock: Clock
    var settings: Settings
    var ending: EndingRow
    var goals: seq<GoalChange>

    function Snapshot(): State
      reads this
    {
      State(messages, nextId, clock, settings, ending, goals)
    }

    constructor ()
      ensures Snapshot() == NEW_STORY
    {
      messages, nextId, clock := map[], 1, Clock(0, 0, 0, 0, 0, None, false);
      settings, ending, goals := Settings("", false, false, -1), NO_ENDING, [];
    }

    // ---- Triggers ----

    method FireReadiness()
      modifies this`ending
      ensures ending == old(ending).Invalidated()
    {
      if ending.lifecycle == FinaleReady {
        ending := ending.(lifecycle := Open, lifecycleRevision := ending.lifecycleRevision + 1, readyRevision := None,
                          readyHistory := None, readySettings := None, readyRewrite := None, readyThrough := None);
      }
    }

    method FireFinaleRow(row: Option<nat>)
      modifies this`ending
      ensures ending == old(ending).FinaleAt(row)
    {
      if ending.lifecycle == Finale {
        ending := ending.(finaleRow := row, lifecycleRevision := ending.lifecycleRevision + 1);
      }
    }

    method FireClock(boundary: Option<nat>, rewrites: bool)
      modifies this`clock
      ensures clock == old(clock).Advance(boundary, rewrites)
    {
      clock := clock.(stateRevision := clock.stateRevision + 1, historyRevision := clock.historyRevision + 1);
      if boundary.Some? && (clock.invalidatedFrom.None? || boundary.value < clock.invalidatedFrom.value) {
        clock := clock.(invalidatedFrom := boundary);
      }
      if rewrites {
        clock := clock.(rewriteRevision := clock.rewriteRevision + 1);
      }
    }

    // ---- Statements on messages ----

    method InsertMessage(role: string, content: string) returns (rowid: Option<nat>)
      modifies this
      ensures Snapshot() == Insert(old(Snapshot()), role, content)
      ensures rowid == if Snapshot() == old(Snapshot()) then None else Some(old(nextId))
    {
      if ending.lifecycle.Closing()
         && !(role == "assistant" && ending.lifecycle == EpiloguePending
              && ending.workStage == CommitEpilogueStage && ending.workToken != "") {
        return None;
      }
      var id := nextId;
      messages := messages[id := Message(role, content)];
      nextId := nextId + 1;
      FireClock(if id <= clock.updatedThrough then Some(id) else None, id <= clock.updatedThrough);
      FireReadiness();
      if role == "assistant" {
        FireFinaleRow(Some(id));
      }
      rowid := Some(id);
    }

    method EditMessage(id: nat, role: string, content: string, leaves: bool)
      modifies this
      ensures Snapshot() == Edit(old(Snapshot()), id, role, content, leaves)
    {
      if id !in messages {
        return;
      }
      var was := messages[id];
      if was == Message(role, content) && !leaves {
        return;
      }
      if ending.lifecycle.Closing() || InPrefix(ending, id) {
        return;
      }
      messages := if leaves then messages - {id} else messages[id := Message(role, content)];
      FireClock(Some(id), true);
      FireReadiness();
      if was != Message(role, content) && (role == "assistant" || was.role == "assistant") {
        FireFinaleRow(LastAssistant(messages, ending.checkpointThrough, nextId));
      }
    }

    method DeleteMessage(id: nat)
      modifies this
      ensures Snapshot() == Delete(old(Snapshot()), id)
    {
      if id !in messages || ending.lifecycle.Closing() || InPrefix(ending, id) {
        return;
      }
      var was := messages[id];
      messages := messages - {id};
      FireClock(Some(id), true);
      FireReadiness();
      if was.role == "assistant" {
        FireFinaleRow(LastAssistant(messages, ending.checkpointThrough, nextId));
      }
    }

    method SaveNarrativeSettings(json: string, closedStory: bool, confirm: bool)
      modifies this
      ensures Snapshot() == SaveSettings(old(Snapshot()), json, closedStory, confirm)
    {
      if ending.lifecycle.Closing() {
        return;
      }
      if ending.lifecycle == Finale && (settings.closedStory != closedStory || settings.confirm != confirm) {
        return;
      }
      var was := settings;
      if was.revision == -1 {
        settings := Settings(json, closedStory, confirm, 0);
        return;
      }
      settings := Settings(json, closedStory, confirm, was.revision + 1);
      if json != was.json {
        FireReadiness();
      }
    }

    // ---- The ending row ----

    /** save_ending_row under publish_ending_state. */
    method PublishEnding(before: EndingRow, changed: EndingRow) returns (saved: bool)
      modifies this`ending
      ensures Snapshot() == Publish(old(Snapshot()), before, changed)
      ensures saved <==> (changed.lifecycle == before.lifecycle || Permitted(before.lifecycle, changed.lifecycle))
                         && old(ending).lifecycleRevision == before.lifecycleRevision
                         && (old(ending).lifecycle == Closed ==> Frozen(changed) == Frozen(old(ending)))
    {
      if changed.lifecycle != before.lifecycle && !Permitted(before.lifecycle, changed.lifecycle) {
        return false;
      }
      if ending.lifecycleRevision != before.lifecycleRevision
         || (ending.lifecycle == Closed && Frozen(changed) != Frozen(ending)) {
        return false;
      }
      ending := changed.(lifecycleRevision := ending.lifecycleRevision + 1);
      saved := true;
    }

    method SetEndingGoal(goal: string, byDirector: bool, x: Expected)
      modifies this
      ensures Snapshot() == SetGoal(old(Snapshot()), goal, byDirector, x)
    {
      if |goal| > 4000 || !Matches(Snapshot(), x)
         || (ending.lifecycle != Open && ending.lifecycle != FinaleReady)
         || (byDirector && (!FactsCurrent(Snapshot()) || !settings.closedStory))
         || ending.goal == goal {
        return;
      }
      var current := ending;
      var saved := PublishEnding(
        current, current.WithoutReadiness().(goal := goal, goalRevision := current.goalRevision + 1));
      goals := goals + [GoalChange(current.goalRevision + 1, current.goal, goal)];
      if |goals| > GOAL_HISTORY_LIMIT {
        goals := goals[|goals| - GOAL_HISTORY_LIMIT..];
      }
    }

    method MarkFinaleReady(x: Expected, arcs: nat)
      modifies this
      ensures Snapshot() == MarkReady(old(Snapshot()), x, arcs)
    {
      if !Matches(Snapshot(), x) || !FactsCurrent(Snapshot()) || !settings.closedStory || !clock.developed
         || ending.lifecycle != Open || arcs > MAX_ARCS {
        return;
      }
      var saved := PublishEnding(ending, ending.(
        lifecycle := FinaleReady, readyRevision := Some(x.story), readyHistory := Some(clock.historyRevision),
        readyRewrite := Some(clock.rewriteRevision), readySettings := Some(settings.revision),
        readyThrough := Some(Latest(Snapshot()))));
    }

    method AcceptResolution(evidence: seq<nat>, through: nat, inResolution: bool, arcsOpen: bool)
      modifies this
      ensures Snapshot() == ResolveFinale(old(Snapshot()), evidence, through, inResolution, arcsOpen)
    {
      if ending.lifecycle != Finale || through < Latest(Snapshot()) || !FactsCurrent(Snapshot())
         || !inResolution || ending.finaleRow.None? || arcsOpen {
        return;
      }
      var named := false;
      for i := 0 to |evidence|
        invariant forall j :: 0 <= j < i ==> IsAssistant(messages, evidence[j])
        invariant named <==> ending.finaleRow.value in evidence[..i]
        invariant Snapshot() == old(Snapshot())
      {
        if !IsAssistant(messages, evidence[i]) {
          return;
        }
        named := named || evidence[i] == ending.finaleRow.value;
      }
      assert evidence[..|evidence|] == evidence;
      if named {
        var saved := PublishEnding(
          ending, ending.(lifecycle := ResolutionCommitted, resolutionRow := ending.finaleRow));
      }
    }

    // ---- The work lease ----

    method ClaimEndingWork(token: string, now: int) returns (claimed: bool)
      modifies this`ending
      ensures Snapshot() == ClaimWork(old(Snapshot()), token, now)
      ensures claimed <==> old(ending).lifecycle.Closing()
                           && (old(ending).workToken == "" || old(ending).workStarted < now - WORK_LEASE)
    {
      claimed := ending.lifecycle.Closing() && (ending.workToken == "" || ending.workStarted < now - WORK_LEASE);
      if claimed {
        ending := ending.(workToken := token, workStarted := now);
      }
    }

    method ReleaseEndingWork(token: string)
      modifies this`ending
      ensures Snapshot() == ReleaseWork(old(Snapshot()), token)
    {
      if ending.workToken == token {
        ending := ending.(workToken := "", workStarted := 0, workStage := NoStage);
      }
    }

    /** The transaction that appends the epilogue: an aborted insert or a lost compare-and-set rolls it back. */
    method CommitEpilogueRow(token: string, revision: nat, source: Clock, content: string)
      modifies this
      ensures Snapshot() == CommitEpilogue(old(Snapshot()), token, revision, source, content)
    {
      var current := ending;
      if current.workToken != token || token == "" || clock != source || current.lifecycleRevision != revision
         || current.lifecycle != EpiloguePending || current.epilogueRow.Some? {
        return;
      }
      ending := ending.(workStage := CommitEpilogueStage);
      var rowid := InsertMessage("assistant", content);
      var saved := PublishEnding(current, current.(
        lifecycle := EpilogueCommitted, epilogueRow := Some(nextId - 1), workStage := ReconcileStage));
    }
  }
}
