/** When each step of an action check is taken: who may evaluate an action, what a decision stores, what binding records. */
module ActionLaws {
  import opened ActionCheck

  // ---- The lease in time ----

  /** The row of key waits for a decision under token t until u. */
  predicate Leased(s: State, key: Key, t: nat, u: int) {
    key in s.rows && s.rows[key].token == t && s.rows[key].until == u && s.rows[key].receipt.None?
  }

  /** A decision, failure or clean-up of a worker that holds token t. */
  predicate ByHolder(s: State, a: Step, t: nat) {
    (a.Decide? || a.Fail? || a.CleanUp?) && a.worker < |s.workers| && !s.workers[a.worker].Gone? && s.workers[a.worker].token == t
  }

  predicate Before(a: Step, u: int) { a.Prepare? || a.Decide? ==> a.now < u }

  /** Every step comes before time u, none is by the holder of t, and none is a reset. */
  predicate LeftAlone(s: State, steps: seq<Step>, t: nat, u: int)
    decreases |steps|
  {
    steps != [] ==> && Before(steps[0], u) && !ByHolder(s, steps[0], t) && !steps[0].Reset?
                    && LeftAlone(Next(s, steps[0]), steps[1..], t, u)
  }

  /** No worker for the key among those added since the nth. */
  predicate NoneAdded(s: State, n: nat, key: Key) {
    n <= |s.workers| && forall j :: n <= j < |s.workers| ==> s.workers[j].Gone? || s.workers[j].key != key
  }

  lemma LeasedStep(s: State, a: Step, n: nat, key: Key, t: nat, u: int)
    requires Recorded(s) && Leased(s, key, t, u) && NoneAdded(s, n, key)
    requires Before(a, u) && !ByHolder(s, a, t) && !a.Reset?
    ensures Leased(Next(s, a), key, t, u) && NoneAdded(Next(s, a), n, key)
    ensures a.Prepare? && a.key == key ==> Next(s, a) == s
  {
    if a.Prepare? {
      ReserveEffect(s.rows, a.key, s.scope, s.nextToken, a.now);
    }
  }

  lemma {:induction false} LeasedWhile(s: State, steps: seq<Step>, n: nat, key: Key, t: nat, u: int)
    requires Recorded(s) && Leased(s, key, t, u) && NoneAdded(s, n, key) && LeftAlone(s, steps, t, u)
    ensures Recorded(Run(s, steps)) && Leased(Run(s, steps), key, t, u) && NoneAdded(Run(s, steps), n, key)
    decreases |steps|
  {
    if steps != [] {
      LeasedStep(s, steps[0], n, key, t, u);
      RecordedNext(s, steps[0]);
      LeasedWhile(Next(s, steps[0]), steps[1..], n, key, t, u);
    }
  }

  /** A live lease keeps every other evaluation of the action out: from any reachable state in which its row waits under
      token t until u, whatever happens before u except by the holder of t or through a reset, the row is as it was, no
      worker was added for it, and a retry changes nothing. */
  lemma LeaseKeepsOthersOut(before: seq<Step>, after: seq<Step>, key: Key, t: nat, u: int, now: int)
    requires Leased(Run(EMPTY, before), key, t, u) && LeftAlone(Run(EMPTY, before), after, t, u) && now < u
    ensures var s := Run(EMPTY, before); var s' := Run(s, after);
      && Leased(s', key, t, u) && NoneAdded(s', |s.workers|, key)
      && Next(s', Prepare(key, now)) == s'
  {
    var s := Run(EMPTY, before);
    RecordedAlways(EMPTY, before);
    LeasedWhile(s, after, |s.workers|, key, t, u);
    LeasedStep(Run(s, after), Prepare(key, now), |s.workers|, key, t, u);
  }

  // ---- Who evaluates an action ----

  /** What a retry of an action does, from the stored state: a stored decision of the same story is handed out again; a
      recorded one, one of another story, and one another worker may still decide are refused; otherwise the caller
      evaluates it for 120 seconds, one of at most 64. */
  lemma PreparesExactly(before: seq<Step>, key: Key, now: int)
    ensures var s := Run(EMPTY, before); var s' := Next(s, Prepare(key, now));
      && s'.checks == s.checks && s'.rolls == s.rolls && s'.records == s.records
      && (forall k :: k != key ==> (k in s'.rows <==> k in s.rows) && (k in s.rows ==> s'.rows[k] == s.rows[k]))
      && (if key in s.rows && s.rows[key].receipt.Some? && s.rows[key].scope == s.scope
          then && s'.turns == s.turns + [Turn(key, s.scope, s.rows[key].receipt.value)]
               && s'.rows == s.rows && s'.workers == s.workers
          else if key in s.checks || (key in s.rows && (s.rows[key].scope != s.scope || s.rows[key].until > now))
                  || (key !in s.rows && |s.rows| >= 64)
          then s' == s
          else && s'.turns == s.turns && s'.workers == s.workers + [Inferring(key, s.scope, s.nextToken)]
               && Leased(s', key, s.nextToken, now + 120) && s'.rows[key].scope == s.scope && s'.nextToken == s.nextToken + 1)
  {
    RecordedAlways(EMPTY, before);
    OpenRowsAlways(EMPTY, before);
    var s := Run(EMPTY, before);
    ReserveEffect(s.rows, key, s.scope, s.nextToken, now);
  }

  /** A decided row is leased to nobody, and an undecided one has been leased. */
  ghost predicate OpenRows(s: State) {
    && s.nextToken > 0
    && forall key :: key in s.rows ==> (s.rows[key].token == 0 <==> s.rows[key].receipt.Some?)
  }

  lemma OpenRowsNext(s: State, a: Step)
    requires OpenRows(s)
    ensures OpenRows(Next(s, a))
  {
  }

  lemma {:induction false} OpenRowsAlways(s: State, steps: seq<Step>)
    requires OpenRows(s)
    ensures OpenRows(Run(s, steps))
    decreases |steps|
  {
    if steps != [] {
      OpenRowsNext(s, steps[0]);
      OpenRowsAlways(Next(s, steps[0]), steps[1..]);
    }
  }

  // ---- What a decision stores ----

  /** A decision is accepted exactly while the story and the mode are those it was asked for, its row still waits under its
      token and within its lease, and it fits: then it is stored, no one leases the row, the turn carries it, and a check
      is rolled. Otherwise only the worker goes on, to its clean-up. */
  lemma DecidesExactly(before: seq<Step>, w: nat, receipt: Receipt, fits: bool, modeKept: bool, now: int)
    requires var s := Run(EMPTY, before); w < |s.workers| && s.workers[w].Inferring?
    ensures var s := Run(EMPTY, before); var me := s.workers[w]; var s' := Next(s, Decide(w, receipt, fits, modeKept, now));
      && s'.checks == s.checks && s'.records == s.records && s'.messages == s.messages && s'.scope == s.scope
      && (if && s.scope == me.scope && modeKept && fits && me.key in s.rows && s.rows[me.key].token == me.token
             && s.rows[me.key].until > now
          then && s'.rows == s.rows[me.key := s.rows[me.key].(token := 0, until := 0, receipt := Some(receipt))]
               && s'.turns == s.turns + [Turn(me.key, me.scope, receipt)] && s'.workers == s.workers[w := Gone]
               && s'.rolls == (if receipt.isCheck then s.rolls + [(me.key, receipt)] else s.rolls)
          else && s'.rows == s.rows && s'.turns == s.turns && s'.rolls == s.rolls
               && s'.workers == s.workers[w := Abandoning(me.key, me.token)])
  {
    OpenRowsAlways(EMPTY, before);
    TokensAlways(EMPTY, before);
  }

  /** A worker that raised frees its action for the next try, unless another one took it over. */
  lemma FailureFreesTheAction(before: seq<Step>, w: nat)
    requires var s := Run(EMPTY, before); w < |s.workers| && s.workers[w].Inferring?
    ensures var s := Run(EMPTY, before); var me := s.workers[w]; var s' := Next(Next(s, Fail(w)), CleanUp(w));
      && s'.workers == s.workers[w := Gone] && s'.checks == s.checks && s'.turns == s.turns && s'.rolls == s.rolls
      && s'.rows == (if me.key in s.rows && s.rows[me.key].token == me.token then s.rows - {me.key} else s.rows)
  {
    OpenRowsAlways(EMPTY, before);
    TokensAlways(EMPTY, before);
    var s := Run(EMPTY, before);
    var s1 := Next(s, Fail(w));
    assert s1.workers[w := Gone] == s.workers[w := Gone];
  }

  // ---- What binding records ----

  /** A turn is bound exactly to a user row of its action's text and while its decision is still stored: then the decision
      leaves its row, and a check is recorded against that very row. */
  lemma BindsExactly(before: seq<Step>, t: nat, row: nat)
    requires t < |Run(EMPTY, before).turns|
    ensures var s := Run(EMPTY, before); var turn := s.turns[t]; var s' := Next(s, Bind(t, row));
      && s'.turns == s.turns && s'.workers == s.workers && s'.rolls == s.rolls
      && (if && row in s.messages && s.messages[row].role == "user" && s.messages[row].content == turn.key.action
             && turn.key in s.rows && s.rows[turn.key].receipt == Some(turn.receipt)
          then && s'.rows == s.rows - {turn.key}
               && (if turn.receipt.isCheck
                   then && s'.checks == s.checks[turn.key := Check(turn.receipt, row, s.messages[row])]
                        && s'.records == s.records + [(turn.key, Check(turn.receipt, row, s.messages[row]))]
                   else s'.checks == s.checks && s'.records == s.records)
          else s' == s)
  {
    RecordedAlways(EMPTY, before);
  }

  /** Only a reset drops a decision that was not bound, and only a rollback to its row or before drops a recorded one; a
      change of the story drops neither. */
  lemma ForgetsExactly(s: State, from: nat, key: Key, scope: nat, messages: map<nat, Message>)
    ensures Next(s, Reset) == s.(rows := map[])
    ensures var s' := Next(s, Rollback(from));
      && s'.rows == s.rows
      && (key in s'.checks <==> key in s.checks && s.checks[key].row < from)
      && (key in s'.checks ==> s'.checks[key] == s.checks[key])
    ensures var s' := Next(s, StoryChange(scope, messages));
      s'.scope == scope && s'.messages == messages && s'.rows == s.rows && s'.checks == s.checks && s'.workers == s.workers
  {
  }
}
