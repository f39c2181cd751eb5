/** Two runs of a new story in which the ending's clocks and triggers do not do what they are for. */
module EndingWitness {
  import opened Ending
  import opened EndingProofs

  const HI := Message("user", "hi")
  const HO := Message("assistant", "ho")
  const END := Message("assistant", "end")

  lemma RunSteps(s: State, a: Step, rest: seq<Step>)
    ensures Run(s, [a] + rest) == Run(Next(s, a), rest)
  {
    assert ([a] + rest)[1..] == rest;
  }

  lemma RunTwo(s: State, a: Step, b: Step, rest: seq<Step>)
    ensures Run(s, [a, b] + rest) == Run(Next(Next(s, a), b), rest)
  {
    RunSteps(s, a, [b] + rest);
    RunSteps(Next(s, a), b, rest);
    assert [a] + ([b] + rest) == [a, b] + rest;
  }

  /** A closed story with one exchange, reconciled. */
  const TALK := State(map[1 := HI, 2 := HO], 3, Clock(3, 2, 0, 2, 2, None, true), Settings("j", true, false, 0), NO_ENDING, [])

  const OPENING := [DoSaveSettings("j", true, false), DoInsert("user", "hi")] + ([DoInsert("assistant", "ho"), DoReconcile(2, true)] + [])

  lemma StoryTalks()
    ensures Run(NEW_STORY, OPENING) == TALK
  {
    var s1 := Next(NEW_STORY, DoSaveSettings("j", true, false));
    var s2 := Next(s1, DoInsert("user", "hi"));
    assert s2.messages == map[1 := HI];
    var s3 := Next(s2, DoInsert("assistant", "ho"));
    assert s3.messages == map[1 := HI, 2 := HO];
    RunTwo(NEW_STORY, DoSaveSettings("j", true, false), DoInsert("user", "hi"), [DoInsert("assistant", "ho"), DoReconcile(2, true)] + []);
    RunTwo(s2, DoInsert("assistant", "ho"), DoReconcile(2, true), []);
  }

  /** The same, ready, and then in its finale with one finale row. */
  const READY := TALK.(ending := NO_ENDING.(
    lifecycle := FinaleReady, lifecycleRevision := 1, readyRevision := Some(3), readyHistory := Some(2),
    readySettings := Some(0), readyRewrite := Some(0), readyThrough := Some(2)))

  const FINALE := READY.(ending := READY.ending.(
    lifecycle := Finale, lifecycleRevision := 2, checkpointThrough := Some(2), operationId := "op"))

  const ENDED := FINALE.(
    messages := map[1 := HI, 2 := HO, 3 := END], nextId := 4, clock := Clock(4, 3, 0, 2, 2, None, true),
    ending := FINALE.ending.(lifecycleRevision := 3, finaleRow := Some(3)))

  lemma TalkIsLatest()
    ensures Latest(TALK) == 2 && Latest(READY) == 2
  {
    assert LatestBelow(TALK.messages, 3) == 2;
  }

  lemma StoryGetsReady()
    ensures Next(TALK, DoMarkReady(Expected(3, 0, 0), 0)) == READY
  {
    TalkIsLatest();
  }

  lemma StoryEnds()
    ensures Next(Next(READY, DoEnterFinale(Expected(3, 1, 0), "op")), DoInsert("assistant", "end")) == ENDED
  {
    TalkIsLatest();
    assert Next(READY, DoEnterFinale(Expected(3, 1, 0), "op")) == FINALE;
    assert FINALE.messages[3 := END] == ENDED.messages;
  }

  const TO_READY := OPENING + ([DoMarkReady(Expected(3, 0, 0), 0)] + [])

  const TO_FINALE := TO_READY + ([DoEnterFinale(Expected(3, 1, 0), "op"), DoInsert("assistant", "end")] + [])

  lemma {:induction false} RunAppend(s: State, a: seq<Step>, b: seq<Step>)
    ensures Run(s, a + b) == Run(Run(s, a), b)
    decreases |a|
  {
    if a == [] {
      assert a + b == b;
    } else {
      assert (a + b)[1..] == a[1..] + b;
      RunAppend(Next(s, a[0]), a[1..], b);
    }
  }

  lemma ReachesReady()
    ensures Run(NEW_STORY, TO_READY) == READY
  {
    RunAppend(NEW_STORY, OPENING, [DoMarkReady(Expected(3, 0, 0), 0)] + []);
    StoryTalks();
    RunSteps(TALK, DoMarkReady(Expected(3, 0, 0), 0), []);
    StoryGetsReady();
  }

  lemma ReachesFinale()
    ensures Run(NEW_STORY, TO_FINALE) == ENDED
  {
    RunAppend(NEW_STORY, TO_READY, [DoEnterFinale(Expected(3, 1, 0), "op"), DoInsert("assistant", "end")] + []);
    ReachesReady();
    RunTwo(READY, DoEnterFinale(Expected(3, 1, 0), "op"), DoInsert("assistant", "end"), []);
    StoryEnds();
  }

  /** A story reaches its finale, and its one finale row is moved to another session unchanged: the ending still names it,
      although no assistant row after the checkpoint is left. */
  lemma MovedRowIsStillNamed()
    ensures var s := Run(NEW_STORY, TO_FINALE); var a := DoEdit(3, "assistant", "end", true); var s' := Next(s, a);
      && TracksFinale(s) && MissedByTriggers(s, a) && !TracksFinale(s')
      && s'.ending.finaleRow == Some(3) && 3 !in s'.messages
  {
    ReachesFinale();
    var s' := Next(ENDED, DoEdit(3, "assistant", "end", true));
    assert s'.messages == ENDED.messages - {3};
    assert LastAssistant(ENDED.messages, Some(2), 4) == Some(3);
    assert 3 !in s'.messages;
  }

  /** A ready story whose settings are saved again with the same text stays ready, and the confirmed start of its finale
      with every revision current is refused. */
  lemma SavedAgainIsRefused()
    ensures var s := Run(NEW_STORY, TO_READY); var s' := Next(s, DoSaveSettings("j", true, false));
      && Next(s, DoEnterFinale(Expected(3, 1, 0), "op")).ending.lifecycle == Finale
      && s'.ending.lifecycle == FinaleReady && Matches(s', Expected(3, 1, 0)) && FactsCurrent(s')
      && Next(s', DoEnterFinale(Expected(3, 1, 0), "op")) == s'
  {
    ReachesReady();
    TalkIsLatest();
    StoryEnds();
  }
}
