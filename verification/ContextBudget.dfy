/** From a model's window to an admitted prompt: context_profile and budget_chat_messages (bridge/context_compaction.py). */
module ContextBudget {
  import opened TextTools
  import opened Compaction
  import opened CompactionPhases
  import opened CompactionTheorems
  import E = CompactionEstimates
  import L = CompactionLaws

  const MIN_INPUT: nat := 2048
  const MIN_SAFETY: nat := 512
  const MAX_SAFETY: nat := 8192

  function Max(a: int, b: int): int { if a < b then b else a }

  function Min(a: int, b: int): int { if a < b then a else b }

  function Safety(window: int): (s: int)
    ensures MIN_SAFETY <= s <= MAX_SAFETY
    ensures s < MAX_SAFETY ==> s as real * 50.0 >= window as real
  {
    var share := Ceil(window as real / 50.0);
    assert share as real * 50.0 >= window as real;
    Min(MAX_SAFETY, Max(MIN_SAFETY, share))
  }

  /** The margin is the fiftieth part of the window, rounded up, but at least 512 and at most 8192. */
  lemma SafetyExactly(window: int, s: int)
    ensures s == Safety(window)
            <==> 512 <= s <= 8192 && (s < 8192 ==> window <= 50 * s) && (s > 512 ==> 50 * (s - 1) < window)
  {
    var share := Ceil(window as real / 50.0);
    assert share as real * 50.0 >= window as real > (share - 1) as real * 50.0;
    assert 50 * share >= window > 50 * (share - 1);
  }

  datatype Profile = Profile(window: int, reserve: int, safety: int, budget: int, requested: int)

  /** The last lines of context_profile: the cap, then the refusal of an empty allocation. */
  function Capped(window: int, reserve: int, budget: int, requested: int, cap: int): Option<Profile> {
    var capped := Min(budget, cap);
    if requested <= 0 || capped <= 0 then None else Some(Profile(window, reserve, Safety(window), capped, requested))
  }

  /** context_profile for a request with its output setting; muse is the transport with a floor of 3000. */
  function RequestProfile(window: int, requested: int, muse: bool, cap: int): Option<Profile> {
    var reserve := if muse then Max(3000, requested) else requested;
    Capped(window, reserve, window - reserve - Safety(window), requested, cap)
  }

  /** context_profile without a request, as panels and defaults use it. */
  function DefaultProfile(window: int, setting: int, cap: int): Option<Profile> {
    var reserve := Min(setting, Max(512, window - Safety(window) - MIN_INPUT));
    Capped(window, reserve, Max(MIN_INPUT, window - reserve - Safety(window)), reserve, cap)
  }

  /** What a profile promises: input, output reserve and margin share the window. */
  predicate SharesWindow(p: Profile) { p.budget + p.reserve + p.safety <= p.window }

  /** A request is refused exactly when nothing is asked for or nothing is left for the input; an accepted one keeps the
      whole output reservation and stays inside the window. */
  lemma RequestsShareTheWindow(window: int, requested: int, muse: bool, cap: int)
    ensures var p := RequestProfile(window, requested, muse, cap);
            var least := if muse && requested < 3000 then 3000 else requested;
            && (p.Some? <==> requested > 0 && cap > 0 && window > least + Safety(window))
            && (p.Some? ==> SharesWindow(p.value) && p.value.reserve == least >= requested && 0 < p.value.budget <= cap)
  {
  }

  /** For any arguments at all: a default profile exists exactly when both settings are positive, and shares its window
      exactly when the margin, 512 tokens of reserve (less if fewer are set) and 2048 of input (less under the cap) fit. */
  lemma DefaultsShareTheWindow(window: int, setting: int, cap: int)
    ensures var p := DefaultProfile(window, setting, cap);
            && (p.Some? <==> setting > 0 && cap > 0)
            && (p.Some? ==> (SharesWindow(p.value) <==> window >= Safety(window) + Min(512, setting) + Min(MIN_INPUT, cap)))
  {
  }

  /** A request gets the cap or all that is left of the window for its input. A default gets its reserve as set, unless that
      leaves less than 2048 tokens of input: then what leaves these, or 512. */
  lemma NothingIsWasted(window: int, amount: int, muse: bool, cap: int)
    ensures var p := RequestProfile(window, amount, muse, cap);
            p.Some? ==> && p.value.window == window && p.value.requested == amount && p.value.safety == Safety(window)
                        && (p.value.budget == cap || p.value.budget + p.value.reserve + p.value.safety == window)
    ensures var p := DefaultProfile(window, amount, cap); var left := window - Safety(window);
            p.Some? ==> && p.value.window == window && p.value.requested == p.value.reserve && p.value.safety == Safety(window)
                        && (left >= amount + 2048 ==> p.value.reserve == amount)
                        && (left < amount + 2048 && amount > 512 ==>
                              (p.value.reserve == 512 && left <= 2560) || (p.value.reserve > 512 && p.value.reserve + 2048 == left))
                        && (amount <= 512 ==> p.value.reserve == amount)
                        && (p.value.budget == cap || p.value.budget == 2048 || p.value.budget + p.value.reserve == left)
                        && p.value.budget <= cap && (p.value.budget < cap ==> p.value.budget >= 2048)
  {
  }

  // ---- the windows and settings a profile is computed from ----

  const MIN_WINDOW: nat := 4096
  const MAX_WINDOW: nat := 1_000_000
  const ALIAS_WINDOW: nat := 900_000

  /** read_int past its decimal syntax: None is the configuration error. */
  function ReadInt(value: int, minimum: int, maximum: int): Option<int> {
    if minimum <= value <= maximum then Some(value) else None
  }

  /** A declared or discovered window; one out of range is ignored. */
  function ContextInt(raw: Option<int>): Option<int> {
    if raw.Some? then ReadInt(raw.value, MIN_WINDOW, MAX_WINDOW) else None
  }

  datatype Settings = Settings(window: int, cap: int, reserve: int)

  function ReadSettings(window: int, cap: int, reserve: int): Option<Settings> {
    if ReadInt(window, MIN_WINDOW, MAX_WINDOW).None? || ReadInt(cap, 1024, MAX_WINDOW).None? || ReadInt(reserve, 512, 131072).None?
    then None
    else Some(Settings(window, cap, reserve))
  }

  /** What the catalogue says of a model: its window as discovered, as declared by the provider, and as declared for it. */
  datatype Catalogued = Catalogued(discovered: Option<int>, provider: Option<int>, model: Option<int>)

  /** The window context_profile starts from: an alias, then the last catalogue entry in range, then the setting. */
  function WindowOf(alias: bool, entry: Catalogued, st: Settings): int {
    if alias then ALIAS_WINDOW
    else if ContextInt(entry.model).Some? then ContextInt(entry.model).value
    else if ContextInt(entry.provider).Some? then ContextInt(entry.provider).value
    else if ContextInt(entry.discovered).Some? then ContextInt(entry.discovered).value
    else st.window
  }

  predicate InRange(raw: Option<int>) { raw.Some? && 4096 <= raw.value <= 1_000_000 }

  /** w is the last window in range, or the first of all. */
  predicate LastInRange(sources: seq<Option<int>>, k: nat, w: int) {
    && k < |sources| && sources[k] == Some(w) && (k > 0 ==> InRange(sources[k]))
    && forall j :: k < j < |sources| ==> !InRange(sources[j])
  }

  lemma LastIsOne(sources: seq<Option<int>>, j: nat, v: int, k: nat, w: int)
    requires LastInRange(sources, j, v) && LastInRange(sources, k, w)
    ensures v == w
  {
  }

  /** The window is the alias's, or else the last in range of setting, discovery, provider and model entry. */
  lemma WindowExactly(alias: bool, entry: Catalogued, st: Settings, w: int)
    ensures var sources := [Some(st.window), entry.discovered, entry.provider, entry.model];
            w == WindowOf(alias, entry, st) <==> if alias then w == 900_000 else exists k :: LastInRange(sources, k, w)
  {
    var sources := [Some(st.window), entry.discovered, entry.provider, entry.model];
    var k := if InRange(entry.model) then 3 else if InRange(entry.provider) then 2 else if InRange(entry.discovered) then 1 else 0;
    var window := WindowOf(false, entry, st);
    assert LastInRange(sources, k, window);
    forall j: nat, v | LastInRange(sources, j, v) ensures v == window {
      LastIsOne(sources, j, v, k, window);
    }
  }

  /** Every default profile the code can compute shares its window: whatever the settings, the catalogue and the model, it
      exists and is the very profile a request for its reserve would get, with at least 1024 tokens of input and no more
      output than was set. */
  lemma DefaultsAreRequests(window: int, cap: int, reserve: int, alias: bool, entry: Catalogued)
    requires ReadSettings(window, cap, reserve).Some?
    ensures var st := ReadSettings(window, cap, reserve).value;
            var w := WindowOf(alias, entry, st);
            var p := DefaultProfile(w, st.reserve, st.cap);
            && MIN_WINDOW <= w <= MAX_WINDOW
            && p.Some? && SharesWindow(p.value)
            && p == RequestProfile(w, p.value.reserve, false, st.cap)
            && 1024 <= p.value.budget <= st.cap && 512 <= p.value.reserve <= st.reserve
  {
    var w := WindowOf(alias, entry, ReadSettings(window, cap, reserve).value);
    assert Safety(w) + MIN_INPUT + 512 <= w by {
      assert w as real / 50.0 <= (w / 50 + 1) as real;
      assert Ceil(w as real / 50.0) <= w / 50 + 1;
    }
  }

  // ---- budget_chat_messages ----

  function LimitsOf(p: Profile, r: Ratio, keepAssistant: bool): Limits {
    Limits(if p.budget < 0 then 0 else p.budget, r, 6, keepAssistant)
  }

  /** None is the error raised before any request is made. */
  function BudgetChat(ms: seq<Message>, p: Profile, ratio: real, compact: bool, keepAssistant: bool): Option<seq<Message>> {
    var st := LimitsOf(p, NormalizeRatio(ratio), keepAssistant);
    if compact then (if Over(Compacted(ms, st), st) then None else Some(Stripped(Compacted(ms, st))))
    else if Over(ms, st) then None
    else Some(ms)
  }

  lemma {:induction false} StrippedCosts(ms: seq<Message>, r: Ratio)
    ensures Costs(Stripped(ms), r) == Costs(ms, r)
  {
    if ms != [] {
      assert Stripped(ms)[1..] == Stripped(ms[1..]);
      StrippedCosts(ms[1..], r);
    }
  }

  /** An admitted prompt, its output reserve and the margin fit the window together; with compaction on, a prompt is
      refused only when its compaction is exhausted. */
  lemma AdmittedPromptsFit(ms: seq<Message>, p: Profile, ratio: real, compact: bool, keepAssistant: bool)
    requires Unmarked(ms) && UsersOrderly(ms) && SharesWindow(p) && p.budget > 0
    ensures var r := NormalizeRatio(ratio); var st := LimitsOf(p, r, keepAssistant);
            var out := BudgetChat(ms, p, ratio, compact, keepAssistant);
            && (out.Some? ==> Estimate(out.value, r) + p.reserve + p.safety <= p.window)
            && (out.None? && compact ==> Exhausted(Compacted(ms, st), st))
            && (Estimate(ms, r) <= p.budget ==> out.Some?)
  {
    var st := LimitsOf(p, NormalizeRatio(ratio), keepAssistant);
    StrippedCosts(Compacted(ms, st), st.r);
    E.CompactionNeverGrows(ms, st);
    if compact && Over(Compacted(ms, st), st) {
      OverBudgetIsExhausted(ms, st);
    }
  }

  /** The prompt that is sent: the one given if it is within budget, untouched but for its records. */
  lemma WithinBudgetIsSent(ms: seq<Message>, p: Profile, ratio: real, compact: bool, keepAssistant: bool)
    requires p.budget >= 0
    ensures var out := BudgetChat(ms, p, ratio, compact, keepAssistant);
            var fits := Estimate(ms, NormalizeRatio(ratio)) <= p.budget;
            && (!compact ==> out == if fits then Some(ms) else None)
            && (compact && fits ==> out == Some(Stripped(ms)))
  {
  }

  lemma {:induction false} StrippedTurns(ms: seq<Message>, n: nat, st: Limits)
    requires n <= |ms|
    ensures L.Unprotected(Stripped(ms), n, st) == L.Unprotected(ms, n, st)
    decreases n
  {
    if n > 0 {
      StrippedTurns(ms, n - 1, st);
      StrippedTurn(ms, n - 1, st);
    }
  }

  lemma StrippedTurn(ms: seq<Message>, i: nat, st: Limits)
    requires i < |ms|
    ensures L.IsUnprotected(Stripped(ms), i, st) <==> L.IsUnprotected(ms, i, st)
  {
    forall j | 0 <= j < |ms| ensures Stripped(ms)[j].role == ms[j].role {
    }
  }

  /** Five old turns are sent, or all there were, unless the prompt was over budget without the others. */
  lemma FiveTurnsAreSent(ms: seq<Message>, p: Profile, ratio: real, keepAssistant: bool)
    requires Unmarked(ms) && BudgetChat(ms, p, ratio, true, keepAssistant).Some?
    ensures var st := LimitsOf(p, NormalizeRatio(ratio), keepAssistant);
            var out := BudgetChat(ms, p, ratio, true, keepAssistant).value;
            && L.Turns(out, st) == L.Turns(Compacted(ms, st), st)
            && (L.Turns(out, st) < L.Least(L.Turns(ms, st), 5) ==> Over(Trimmed(ms, st), st))
  {
    var st := LimitsOf(p, NormalizeRatio(ratio), keepAssistant);
    StrippedTurns(Compacted(ms, st), |Compacted(ms, st)|, st);
    L.TurnsGoLast(ms, st);
  }
}
