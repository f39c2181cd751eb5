/** Durable action checks (bridge/action_adjudication.py, action_repository.py, action_schema.py): a lease over a
    stored preflight row, one roll, and its binding to a committed user turn. */
module ActionCheck {

  datatype Option<+T> = None | Some(value: T)

  /** The request key: a digest of the caller's identity and the action text. Text stands for its own digest. */
  datatype Key = Key(identity: string, action: string)

  /** A stored decision; isCheck tells a roll from a decision that needs none. */
  datatype Receipt = Receipt(isCheck: bool, body: nat)

  /** Token 0 is the empty token of a row nobody leases. */
  datatype Preflight = Preflight(scope: nat, input: string, token: nat, until: int, receipt: Option<Receipt>)

  datatype Check = Check(receipt: Receipt, row: nat, source: Message)

  datatype Message = Message(role: string, content: string)

  const LEASE: int := 120
  const MAX_PREFLIGHTS: nat := 64

  /** What prepare_action_turn returns to its caller. */
  datatype Turn = Turn(key: Key, scope: nat, receipt: Receipt)

  type Rows = map<Key, Preflight>

  // ---- action_repository.py ----

  /** reserve_preflight: None when it raises. */
  function Reserve(rows: Rows, key: Key, scope: nat, token: nat, now: int): Option<Rows> {
    if key in rows then
      if rows[key].scope != scope || rows[key].receipt.Some? || rows[key].until > now then None
      else Some(rows[key := rows[key].(token := token, until := now + LEASE)])
    else if |rows| >= MAX_PREFLIGHTS then None
    else Some(rows[key := Preflight(scope, key.action, token, now + LEASE, None)])
  }

  predicate Owned(rows: Rows, key: Key, token: nat, now: int) {
    key in rows && rows[key].token == token && rows[key].until > now && rows[key].receipt.None?
  }

  /** finish_preflight: None when no row with this token awaits its receipt. */
  function Finish(rows: Rows, key: Key, token: nat, receipt: Receipt): Option<Rows> {
    if key in rows && rows[key].token == token && rows[key].receipt.None?
    then Some(rows[key := rows[key].(token := 0, until := 0, receipt := Some(receipt))])
    else None
  }

  function Abandon(rows: Rows, key: Key, token: nat): Rows {
    if key in rows && rows[key].token == token && rows[key].receipt.None? then rows - {key} else rows
  }

  class PreflightTable {
    var rows: Rows

    constructor ()
      ensures rows == map[]
    {
      rows := map[];
    }

    method ReservePreflight(key: Key, scope: nat, token: nat, now: int) returns (reserved: bool)
      modifies this
      ensures var r := Reserve(old(rows), key, scope, token, now);
        reserved == r.Some? && rows == (if r.Some? then r.value else old(rows))
    {
      if key in rows {
        if rows[key].scope != scope {
          return false;
        }
        if rows[key].receipt.Some? || rows[key].until > now {
          return false;
        }
        rows := rows[key := rows[key].(token := token, until := now + LEASE)];
        return true;
      }
      if |rows| >= MAX_PREFLIGHTS {
        return false;
      }
      rows := rows[key := Preflight(scope, key.action, token, now + LEASE, None)];
      reserved := true;
    }

    method FinishPreflight(key: Key, token: nat, receipt: Receipt) returns (finished: bool)
      modifies this
      ensures var r := Finish(old(rows), key, token, receipt);
        finished == r.Some? && rows == (if r.Some? then r.value else old(rows))
    {
      if key !in rows || rows[key].token != token || rows[key].receipt.Some? {
        return false;
      }
      rows := rows[key := rows[key].(token := 0, until := 0, receipt := Some(receipt))];
      finished := true;
    }

    method AbandonPreflight(key: Key, token: nat)
      modifies this
      ensures rows == Abandon(old(rows), key, token)
    {
      if key in rows && rows[key].token == token && rows[key].receipt.None? {
        rows := rows - {key};
      }
    }

    method DeletePreflight(key: Key)
      modifies this
      ensures rows == old(rows) - {key}
    {
      rows := rows - {key};
    }

    /** The conversation-epoch triggers. */
    method FireConversationReset()
      modifies this
      ensures rows == map[]
    {
      rows := map[];
    }
  }

  // ---- Workers over the stored state ----

  datatype Worker =
    | Gone
    | Inferring(key: Key, scope: nat, token: nat)      // reserved, outside any transaction
    | Abandoning(key: Key, token: nat)                 // raised, about to clean up

  /** One session. rolls and records are history: every check receipt stored, and every check recorded. */
  datatype State = State(
    rows: Rows, checks: map<Key, Check>, scope: nat, messages: map<nat, Message>,
    workers: seq<Worker>, turns: seq<Turn>, nextToken: nat,
    rolls: seq<(Key, Receipt)>, records: seq<(Key, Check)>)

  const EMPTY := State(map[], map[], 0, map[], [], [], 1, [], [])

  datatype Step =
    | Prepare(key: Key, now: int)
    | Decide(worker: nat, receipt: Receipt, fits: bool, modeKept: bool, now: int)
    | Fail(worker: nat)
    | CleanUp(worker: nat)
    | Crash(worker: nat)
    | Bind(turn: nat, row: nat)
    | StoryChange(scope: nat, messages: map<nat, Message>)
    | Reset
    | Rollback(fromRow: nat)

  function Next(s: State, a: Step): State {
    match a
    case Prepare(key, now) => PrepareTurn(s, key, now)
    case Decide(w, receipt, fits, modeKept, now) =>
      if w < |s.workers| && s.workers[w].Inferring? then Accept(s, w, receipt, fits, modeKept, now) else s
    case Fail(w) =>
      if w < |s.workers| && s.workers[w].Inferring?
      then s.(workers := s.workers[w := Abandoning(s.workers[w].key, s.workers[w].token)]) else s
    case CleanUp(w) =>
      if w < |s.workers| && s.workers[w].Abandoning?
      then s.(rows := Abandon(s.rows, s.workers[w].key, s.workers[w].token), workers := s.workers[w := Gone]) else s
    case Crash(w) => if w < |s.workers| then s.(workers := s.workers[w := Gone]) else s
    case Bind(t, row) => if t < |s.turns| then BindTurn(s, s.turns[t], row) else s
    case StoryChange(scope, messages) => s.(scope := scope, messages := messages)
    case Reset => s.(rows := map[])
    case Rollback(from) => s.(checks := map k | k in s.checks && s.checks[k].row < from :: s.checks[k])
  }

  /** The first transaction of prepare_action_turn (lines 161-189). */
  function PrepareTurn(s: State, key: Key, now: int): State {
    if key in s.rows && s.rows[key].receipt.Some? then
      if s.rows[key].scope != s.scope then s
      else s.(turns := s.turns + [Turn(key, s.scope, s.rows[key].receipt.value)])
    else if key in s.checks then s
    else
      match Reserve(s.rows, key, s.scope, s.nextToken, now)
      case None => s
      case Some(rows) =>
        s.(rows := rows, workers := s.workers + [Inferring(key, s.scope, s.nextToken)], nextToken := s.nextToken + 1)
  }

  /** The accepting transaction (lines 208-234); fits says whether the receipt keeps its storage bound. */
  function Accept(s: State, w: nat, receipt: Receipt, fits: bool, modeKept: bool, now: int): State
    requires w < |s.workers| && s.workers[w].Inferring?
  {
    var me := s.workers[w];
    var failed := s.(workers := s.workers[w := Abandoning(me.key, me.token)]);
    if s.scope != me.scope || !modeKept || !Owned(s.rows, me.key, me.token, now) || !fits then failed
    else
      match Finish(s.rows, me.key, me.token, receipt)
      case None => failed
      case Some(rows) =>
        s.(rows := rows, workers := s.workers[w := Gone],
           turns := s.turns + [Turn(me.key, me.scope, receipt)],
           rolls := if receipt.isCheck then s.rolls + [(me.key, receipt)] else s.rolls)
  }

  /** ActionTurn.bind; perform_check inserts once per key and refuses a rewritten source. */
  function BindTurn(s: State, t: Turn, row: nat): State {
    if row !in s.messages || s.messages[row] != Message("user", t.key.action) then s
    else if t.key !in s.rows || s.rows[t.key].receipt != Some(t.receipt) then s
    else if !t.receipt.isCheck then s.(rows := s.rows - {t.key})
    else if t.key in s.checks then
      (if s.checks[t.key].row in s.messages && s.messages[s.checks[t.key].row] == s.checks[t.key].source
       then s.(rows := s.rows - {t.key}) else s)
    else
      var check := Check(t.receipt, row, s.messages[row]);
      s.(rows := s.rows - {t.key}, checks := s.checks[t.key := check], records := s.records + [(t.key, check)])
  }

  function Run(s: State, steps: seq<Step>): State
    decreases |steps|
  {
    if steps == [] then s else Run(Next(s, steps[0]), steps[1..])
  }

  /** A run in which neither a reset nor a history rollback discards stored rows. */
  predicate KeepsHistory(steps: seq<Step>) {
    forall i :: 0 <= i < |steps| ==> !steps[i].Reset? && !steps[i].Rollback?
  }

  // ---- One stretch of history, from any reachable state ----

  /** The check receipt stored for a key: in its preflight row until it is bound, then in its check. */
  function StoredCheck(s: State, key: Key): Option<Receipt> {
    if key in s.checks then Some(s.checks[key].receipt)
    else if key in s.rows && s.rows[key].receipt.Some? && s.rows[key].receipt.value.isCheck then s.rows[key].receipt
    else None
  }

  /** A recorded key has no preflight row, and what is recorded is a roll against the admitted text. */
  ghost predicate Recorded(s: State) {
    forall key :: key in s.checks ==>
      key !in s.rows && s.checks[key].receipt.isCheck && s.checks[key].source == Message("user", key.action)
  }

  ghost predicate StoredChecksStay(b: State, s: State) {
    && (forall key :: StoredCheck(b, key).Some? ==> StoredCheck(s, key) == StoredCheck(b, key))
    && (forall key :: key in b.checks ==> key in s.checks && s.checks[key] == b.checks[key])
  }

  /** Each roll since b is the stored check of a key that had none at b, and no key was rolled twice. */
  ghost predicate RollsStand(b: State, s: State) {
    && b.rolls <= s.rolls
    && (forall i :: |b.rolls| <= i < |s.rolls| ==>
          && StoredCheck(s, s.rolls[i].0) == Some(s.rolls[i].1)
          && StoredCheck(b, s.rolls[i].0).None?)
    && (forall i, j :: |b.rolls| <= i < j < |s.rolls| ==> s.rolls[i].0 != s.rolls[j].0)
  }

  ghost predicate TurnsCarryChecks(b: State, s: State) {
    && b.turns <= s.turns
    && (forall t :: |b.turns| <= t < |s.turns| && s.turns[t].receipt.isCheck ==>
          StoredCheck(s, s.turns[t].key) == Some(s.turns[t].receipt))
  }

  ghost predicate RecordsStand(b: State, s: State) {
    && b.records <= s.records
    && (forall i :: |b.records| <= i < |s.records| ==>
          && s.records[i].0 in s.checks && s.checks[s.records[i].0] == s.records[i].1
          && s.records[i].0 !in b.checks)
    && (forall i, j :: |b.records| <= i < j < |s.records| ==> s.records[i].0 != s.records[j].0)
  }

  /** What a stretch from b to s without a reset or rollback keeps; b may itself follow any number of them. */
  ghost predicate Since(b: State, s: State) {
    StoredChecksStay(b, s) && RollsStand(b, s) && TurnsCarryChecks(b, s) && RecordsStand(b, s)
  }

  /** A reservation opens or re-leases one row and gives it the new token. */
  lemma ReserveEffect(rows: Rows, key: Key, scope: nat, token: nat, now: int)
    ensures var r := Reserve(rows, key, scope, token, now);
      r.Some? ==>
        && key in r.value && r.value[key].token == token && r.value[key].receipt.None?
        && (key in rows ==> rows[key].receipt.None?)
        && (forall k :: k != key ==> (k in r.value <==> k in rows))
        && (forall k :: k != key && k in rows ==> r.value[k] == rows[k])
  {
  }

  lemma RecordedNext(s: State, a: Step)
    requires Recorded(s)
    ensures Recorded(Next(s, a))
  {
    if a.Prepare? {
      ReserveEffect(s.rows, a.key, s.scope, s.nextToken, a.now);
    }
  }

  lemma PrepareStands(s: State, key: Key, now: int)
    requires Recorded(s)
    ensures Since(s, PrepareTurn(s, key, now))
  {
    ReserveEffect(s.rows, key, s.scope, s.nextToken, now);
  }

  lemma AcceptStands(s: State, w: nat, receipt: Receipt, fits: bool, modeKept: bool, now: int)
    requires Recorded(s) && w < |s.workers| && s.workers[w].Inferring?
    ensures Since(s, Accept(s, w, receipt, fits, modeKept, now))
  {
  }

  lemma BindStands(s: State, t: Turn, row: nat)
    requires Recorded(s)
    ensures Since(s, BindTurn(s, t, row))
  {
  }

  lemma StandsNext(s: State, a: Step)
    requires Recorded(s) && !a.Reset? && !a.Rollback?
    ensures Since(s, Next(s, a))
  {
    match a
    case Prepare(key, now) => PrepareStands(s, key, now);
    case Decide(w, receipt, fits, modeKept, now) =>
      if w < |s.workers| && s.workers[w].Inferring? {
        AcceptStands(s, w, receipt, fits, modeKept, now);
      }
    case Bind(t, row) =>
      if t < |s.turns| {
        BindStands(s, s.turns[t], row);
      }
    case CleanUp(w) =>
      assert forall k :: StoredCheck(Next(s, a), k) == StoredCheck(s, k);
    case _ =>
  }

  lemma RollsJoin(b: State, s: State, t: State)
    requires StoredChecksStay(b, s) && StoredChecksStay(s, t) && RollsStand(b, s) && RollsStand(s, t)
    ensures RollsStand(b, t)
  {
    assert forall i :: 0 <= i < |s.rolls| ==> t.rolls[i] == s.rolls[i];
  }

  lemma RecordsJoin(b: State, s: State, t: State)
    requires StoredChecksStay(b, s) && StoredChecksStay(s, t) && RecordsStand(b, s) && RecordsStand(s, t)
    ensures RecordsStand(b, t)
  {
    assert forall i :: 0 <= i < |s.records| ==> t.records[i] == s.records[i];
  }

  lemma TurnsJoin(b: State, s: State, t: State)
    requires StoredChecksStay(s, t) && TurnsCarryChecks(b, s) && TurnsCarryChecks(s, t)
    ensures TurnsCarryChecks(b, t)
  {
    assert forall i :: 0 <= i < |s.turns| ==> t.turns[i] == s.turns[i];
  }

  lemma SinceJoin(b: State, s: State, t: State)
    requires Since(b, s) && Since(s, t)
    ensures Since(b, t)
  {
    RollsJoin(b, s, t);
    RecordsJoin(b, s, t);
    TurnsJoin(b, s, t);
  }

  function TokenOf(w: Worker): nat {
    if w.Gone? then 0 else w.token
  }

  /** Live workers hold distinct tokens, and a leased row's token was handed out for that row's key. */
  ghost predicate TokensDistinct(s: State) {
    && s.nextToken > 0
    && (forall i :: 0 <= i < |s.workers| ==> TokenOf(s.workers[i]) < s.nextToken)
    && (forall i :: 0 <= i < |s.workers| && !s.workers[i].Gone? ==> TokenOf(s.workers[i]) > 0)
    && (forall i, j :: 0 <= i < j < |s.workers| && !s.workers[i].Gone? ==> TokenOf(s.workers[i]) != TokenOf(s.workers[j]))
    && (forall key :: key in s.rows ==> s.rows[key].token < s.nextToken)
    && (forall i, key ::
          (0 <= i < |s.workers| && !s.workers[i].Gone? && key in s.rows && s.rows[key].token == TokenOf(s.workers[i]))
          ==> s.workers[i].key == key)
  }

  lemma TokenGiven(s: State, s': State, key: Key)
    requires TokensDistinct(s) && s'.nextToken == s.nextToken + 1
    requires exists scope :: s'.workers == s.workers + [Inferring(key, scope, s.nextToken)]
    requires key in s'.rows && s'.rows[key].token == s.nextToken
    requires forall k :: k != key ==> (k in s'.rows <==> k in s.rows)
    requires forall k :: k != key && k in s.rows ==> s'.rows[k] == s.rows[k]
    ensures TokensDistinct(s')
  {
    forall k | k in s'.rows ensures s'.rows[k].token < s'.nextToken {
      if k != key {
        assert s.rows[k].token < s.nextToken;
      }
    }
    forall i, k | 0 <= i < |s'.workers| && !s'.workers[i].Gone? && k in s'.rows
                  && s'.rows[k].token == TokenOf(s'.workers[i])
      ensures s'.workers[i].key == k
    {
      if k == key {
        assert i == |s.workers|;
      } else {
        assert k in s.rows && i < |s.workers|;
      }
    }
  }

  lemma PrepareTokens(s: State, key: Key, now: int)
    requires TokensDistinct(s)
    ensures TokensDistinct(PrepareTurn(s, key, now))
  {
    ReserveEffect(s.rows, key, s.scope, s.nextToken, now);
    var s' := PrepareTurn(s, key, now);
    if s'.workers != s.workers {
      assert s'.workers == s.workers + [Inferring(key, s.scope, s.nextToken)];
      TokenGiven(s, s', key);
    }
  }

  lemma WorkerTokens(s: State, s': State, w: nat)
    requires TokensDistinct(s) && w < |s.workers| == |s'.workers| && s'.nextToken == s.nextToken
    requires s'.workers == s.workers[w := s'.workers[w]]
    requires s'.workers[w].Gone?
          || (!s.workers[w].Gone? && TokenOf(s'.workers[w]) == TokenOf(s.workers[w]) && s'.workers[w].key == s.workers[w].key)
    requires forall k :: k in s'.rows ==> k in s.rows && (s'.rows[k].token == s.rows[k].token || s'.rows[k].token == 0)
    ensures TokensDistinct(s')
  {
  }

  lemma TokensNext(s: State, a: Step)
    requires TokensDistinct(s)
    ensures TokensDistinct(Next(s, a))
  {
    match a
    case Prepare(key, now) => PrepareTokens(s, key, now);
    case Decide(w, receipt, fits, modeKept, now) =>
      if Next(s, a) != s { WorkerTokens(s, Next(s, a), w); }
    case Fail(w) => if Next(s, a) != s { WorkerTokens(s, Next(s, a), w); }
    case CleanUp(w) => if Next(s, a) != s { WorkerTokens(s, Next(s, a), w); }
    case Crash(w) => if w < |s.workers| { WorkerTokens(s, Next(s, a), w); }
    case Bind(t, row) =>
    case _ =>
  }

  // ---- Roll once ----

  lemma {:induction false} RecordedAlways(s: State, steps: seq<Step>)
    requires Recorded(s)
    ensures Recorded(Run(s, steps))
    decreases |steps|
  {
    if steps != [] {
      RecordedNext(s, steps[0]);
      RecordedAlways(Next(s, steps[0]), steps[1..]);
    }
  }

  lemma {:induction false} SinceAlways(b: State, s: State, steps: seq<Step>)
    requires Recorded(s) && Since(b, s) && KeepsHistory(steps)
    ensures Since(b, Run(s, steps))
    decreases |steps|
  {
    if steps != [] {
      StandsNext(s, steps[0]);
      RecordedNext(s, steps[0]);
      SinceJoin(b, s, Next(s, steps[0]));
      assert forall i :: 0 <= i < |steps[1..]| ==> steps[1..][i] == steps[i + 1];
      SinceAlways(b, Next(s, steps[0]), steps[1..]);
    }
  }

  /** In any stretch of any run between resets and rollbacks, whatever came before it, however leases expire, workers
      left over from before a reset go on, and turns held since then are bound: a key is rolled at most once, and not at
      all when a check was stored for it at the start; every roll and every check turn handed out carries the one stored
      check of its key; and a key is recorded at most once, with that check, against a user row of the admitted text. */
  lemma RollOnce(before: seq<Step>, after: seq<Step>, key: Key)
    requires KeepsHistory(after)
    ensures var b := Run(EMPTY, before); var s := Run(b, after);
      && b.rolls <= s.rolls && b.turns <= s.turns && b.records <= s.records
      && (forall i, j :: |b.rolls| <= i < j < |s.rolls| ==> s.rolls[i].0 != key || s.rolls[j].0 != key)
      && (forall i :: |b.rolls| <= i < |s.rolls| && s.rolls[i].0 == key ==>
            StoredCheck(b, key).None? && StoredCheck(s, key) == Some(s.rolls[i].1))
      && (StoredCheck(b, key).Some? ==> StoredCheck(s, key) == StoredCheck(b, key))
      && (forall t :: |b.turns| <= t < |s.turns| && s.turns[t].key == key && s.turns[t].receipt.isCheck ==>
            StoredCheck(s, key) == Some(s.turns[t].receipt))
      && (forall i, j :: |b.records| <= i < j < |s.records| ==> s.records[i].0 != key || s.records[j].0 != key)
      && (forall i :: |b.records| <= i < |s.records| && s.records[i].0 == key ==>
            && key !in b.checks
            && StoredCheck(s, key) == Some(s.records[i].1.receipt)
            && s.records[i].1.source == Message("user", key.action))
  {
    var b := Run(EMPTY, before);
    RecordedAlways(EMPTY, before);
    SinceAlways(b, b, after);
    RecordedAlways(b, after);
  }

  lemma {:induction false} TokensAlways(s: State, steps: seq<Step>)
    requires TokensDistinct(s)
    ensures TokensDistinct(Run(s, steps))
    decreases |steps|
  {
    if steps != [] {
      TokensNext(s, steps[0]);
      TokensAlways(Next(s, steps[0]), steps[1..]);
    }
  }

  /** In every run, a worker whose lease another worker took over, or whose row is finished or gone, neither writes
      nor deletes any row: its decision and its clean-up leave the table as it is. */
  lemma FencedWorkerIsHarmless(steps: seq<Step>, w: nat, receipt: Receipt, fits: bool, modeKept: bool, now: int)
    requires var s := Run(EMPTY, steps);
      && w < |s.workers| && !s.workers[w].Gone?
      && !(s.workers[w].key in s.rows && s.rows[s.workers[w].key].token == s.workers[w].token)
    ensures var s := Run(EMPTY, steps);
      && Next(s, Decide(w, receipt, fits, modeKept, now)).rows == s.rows
      && Next(s, Decide(w, receipt, fits, modeKept, now)).turns == s.turns
      && Next(s, CleanUp(w)).rows == s.rows
  {
  }

  /** At most one worker is not fenced out of a row. */
  lemma OneHolder(steps: seq<Step>, v: nat, w: nat, key: Key)
    requires var s := Run(EMPTY, steps);
      && v < |s.workers| && w < |s.workers| && !s.workers[v].Gone? && !s.workers[w].Gone? && key in s.rows
      && s.rows[key].token == s.workers[v].token == s.workers[w].token
    ensures v == w && Run(EMPTY, steps).workers[v].key == key
  {
    TokensAlways(EMPTY, steps);
  }
}
