/** Prompt compaction (bridge/context_compaction.py): estimates, optional spans, trimming and the phases. */
module Compaction {
  import opened TextTools

  // ---- Messages ----

  datatype Kind = Rag | Memory | Episodic | Npc | Simulation | Summary

  datatype Span = Span(kind: Kind, start: int, end: int)

  /** One item of a list content: text, an image, another dict with its text, or any other value as str() shows it. */
  datatype Item = TextItem(text: string) | ImageItem | OtherItem(text: string) | Shown(text: string)

  datatype Content = Plain(text: string) | Items(items: seq<Item>) | Other(shown: string)

  /** id is the dict's identity; spans is its recorded _context_optional list; dropped its _drop_for_context mark. */
  datatype Message = Message(id: nat, role: string, content: Content, spans: Option<seq<Span>>, dropped: bool)
  {
    predicate IsTurn() { role == "user" || role == "assistant" }
  }

  // ---- Estimates ----

  type Ratio = r: real | 1.0 <= r <= 8.0 witness 4.0

  function NormalizeRatio(value: real): Ratio {
    if 1.0 <= value <= 8.0 then value else 4.0
  }

  function Ceil(x: real): (n: int)
    ensures n as real >= x > n as real - 1.0
  {
    if x.Floor as real == x then x.Floor else x.Floor + 1
  }

  function TextTokens(n: nat, r: Ratio): (t: nat)
    ensures t >= 1
  {
    var c := Ceil(n as real / r);
    if c < 1 then 1 else c
  }

  function ItemTokens(item: Item, r: Ratio): nat {
    if item.ImageItem? then 1024 else TextTokens(|item.text|, r)
  }

  function ItemsTokens(items: seq<Item>, r: Ratio): nat {
    if items == [] then 0 else ItemTokens(items[0], r) + ItemsTokens(items[1..], r)
  }

  function ContentTokens(c: Content, r: Ratio): nat {
    match c
    case Plain(text) => TextTokens(|text|, r)
    case Items(items) => ItemsTokens(items, r)
    case Other(shown) => TextTokens(|shown|, r)
  }

  function Cost(m: Message, r: Ratio): nat {
    if m.dropped then 0 else 8 + ContentTokens(m.content, r)
  }

  function Costs(ms: seq<Message>, r: Ratio): nat {
    if ms == [] then 0 else Cost(ms[0], r) + Costs(ms[1..], r)
  }

  /** current_tokens: the estimate over the messages not marked as dropped. */
  function Estimate(ms: seq<Message>, r: Ratio): nat {
    Costs(ms, r) + 16
  }

  // ---- The editable text and its optional spans ----

  function FirstText(items: seq<Item>): Option<string> {
    if items == [] then None
    else if items[0].TextItem? then Some(items[0].text)
    else FirstText(items[1..])
  }

  function TextOf(c: Content): string {
    match c
    case Plain(text) => text
    case Items(items) => (match FirstText(items) case None => "" case Some(t) => t)
    case Other(_) => ""
  }

  function WithFirstText(items: seq<Item>, text: string): seq<Item> {
    if items == [] then []
    else if items[0].TextItem? then [TextItem(text)] + items[1..]
    else [items[0]] + WithFirstText(items[1..], text)
  }

  function WithText(c: Content, text: string): Content {
    match c
    case Plain(_) => Plain(text)
    case Items(items) => Items(WithFirstText(items, text))
    case Other(_) => c
  }

  function Tag(kind: Kind): string {
    match kind
    case Rag => "untrusted_data_bank_references"
    case Memory => "untrusted_memory"
    case Episodic => "untrusted_episodic_memory"
    case Npc => "untrusted_npc_state"
    case Simulation => "untrusted_simulation_state"
    case Summary => ""
  }

  predicate SpanFits(s: Span, kind: Kind, n: nat) {
    s.kind == kind && 0 <= s.start <= s.end <= n
  }

  function RecordedSpan(spans: seq<Span>, kind: Kind, n: nat): Option<Span> {
    if spans == [] then None
    else if SpanFits(spans[0], kind, n) then Some(spans[0])
    else RecordedSpan(spans[1..], kind, n)
  }

  /** A close tag, or a newline and one. */
  predicate Shuts(text: string, close: string, i: int) { At(text, close, i) || At(text, "\n" + close, i) }

  function CloseOf(text: string, close: string, start: nat): Option<nat>
    decreases |text| + 1 - start
  {
    if start > |text| then None
    else if Shuts(text, close, start) then Some(start)
    else CloseOf(text, close, start + 1)
  }

  /** Past one newline, if there is one. */
  function Start(text: string, i: nat): nat { if i < |text| && text[i] == '\n' then i + 1 else i }

  /** The bounds that re.search of open, newline?, (.*?), newline?, close gives its group. */
  function TagSection(text: string, open: string, close: string): Option<(nat, nat)> {
    match Find(text, open, 0)
    case None => None
    case Some(at) =>
      (match CloseOf(text, close, Start(text, at + |open|))
       case None => None
       case Some(end) => Some((Start(text, at + |open|), end)))
  }

  const SUMMARY_MARK := "## Session continuity summary\n"
  const NEXT_MARK := "\n\n## "

  function SummarySection(text: string): Option<(nat, nat)> {
    match Find(text, SUMMARY_MARK, 0)
    case None => None
    case Some(at) =>
      var start := at + |SUMMARY_MARK|;
      (match Find(text, NEXT_MARK, start)
       case None => Some((start, |text|))
       case Some(end) => Some((start, end)))
  }

  function Opening(kind: Kind): string { "<" + Tag(kind) + ">" }

  function Closing(kind: Kind): string { "</" + Tag(kind) + ">" }

  /** The section a message without a record shows in its text. */
  function FoundSection(text: string, kind: Kind): Option<(nat, nat)> {
    if kind == Summary then SummarySection(text) else TagSection(text, Opening(kind), Closing(kind))
  }

  /** _optional_span: the recorded span, or on messages without a record the marked section found in the text. */
  function OptionalSpan(m: Message, kind: Kind): (s: Option<Span>)
    ensures s.Some? ==> SpanFits(s.value, kind, |TextOf(m.content)|)
  {
    var text := TextOf(m.content);
    match m.spans
    case Some(spans) => FitsRecorded(spans, kind, |text|); RecordedSpan(spans, kind, |text|)
    case None =>
      FoundFits(text, kind);
      (match FoundSection(text, kind)
       case None => None
       case Some(bounds) => Some(Span(kind, bounds.0, bounds.1)))
  }

  lemma FoundFits(text: string, kind: Kind)
    ensures FoundSection(text, kind).Some? ==>
              FoundSection(text, kind).value.0 <= FoundSection(text, kind).value.1 <= |text|
  {
    if kind != Summary {
      var at := Find(text, Opening(kind), 0);
      if at.Some? {
        CloseBounds(text, Closing(kind), Start(text, at.value + |Opening(kind)|));
      }
    }
  }

  lemma {:induction false} FitsRecorded(spans: seq<Span>, kind: Kind, n: nat)
    ensures RecordedSpan(spans, kind, n).Some? ==> SpanFits(RecordedSpan(spans, kind, n).value, kind, n)
  {
    if spans != [] {
      FitsRecorded(spans[1..], kind, n);
    }
  }

  lemma {:induction false} CloseBounds(text: string, close: string, start: nat)
    ensures CloseOf(text, close, start).Some? ==> start <= CloseOf(text, close, start).value <= |text|
    decreases |text| + 1 - start
  {
    if start <= |text| {
      CloseBounds(text, close, start + 1);
    }
  }

  // ---- Trimming ----

  const ELLIPSIS := "\n\U{2026}[compacted]\U{2026}\n"

  function TrimMiddle(value: string, maximum: int): (t: string)
    ensures |t| <= |value| && (maximum <= 0 ==> t == "") && (maximum > 0 ==> |t| <= maximum)
    ensures |value| <= maximum ==> t == value
  {
    if maximum <= 0 then ""
    else if |value| <= maximum then value
    else if maximum < 80 then value[..maximum]
    else
      var head := maximum * 2 / 3;
      var tail := maximum - head - 18;
      RStrip(value[..head]) + ELLIPSIS + LStrip(value[|value| - tail..])
  }

  /** A long text keeps its beginning and its end around the mark, losing at the seams only whitespace. */
  lemma TrimKeepsEnds(value: string, maximum: nat) returns (a: nat, b: nat)
    requires 80 <= maximum < |value|
    ensures var head := maximum * 2 / 3; var tail := maximum - head - 18;
            && a <= head <= |value| - tail <= b <= |value|
            && TrimMiddle(value, maximum) == value[..a] + ELLIPSIS + value[b..]
            && (forall i :: a <= i < head ==> IsSpace(value[i]))
            && (forall i :: |value| - tail <= i < b ==> IsSpace(value[i]))
  {
    var head := maximum * 2 / 3;
    var tail := maximum - head - 18;
    var left, right := value[..head], value[|value| - tail..];
    a := |RStrip(left)|;
    b := |value| - |LStrip(right)|;
    KeptStart(value, head);
    KeptEnd(value, |value| - tail);
    LongTrim(value, maximum);
    assert RStrip(left) == value[..a] && LStrip(right) == value[b..];
  }

  lemma LongTrim(value: string, maximum: nat)
    requires 80 <= maximum < |value|
    ensures var head := maximum * 2 / 3; var tail := maximum - head - 18;
            TrimMiddle(value, maximum) == RStrip(value[..head]) + ELLIPSIS + LStrip(value[|value| - tail..])
  {
  }

  lemma KeptStart(value: string, head: nat)
    requires head <= |value|
    ensures var t := RStrip(value[..head]); t == value[..|t|] && forall i :: |t| <= i < head ==> IsSpace(value[i])
  {
    var left := value[..head];
    RStripCuts(left);
    forall i | |RStrip(left)| <= i < head ensures IsSpace(value[i]) {
      assert left[i] == value[i];
    }
  }

  lemma KeptEnd(value: string, from: nat)
    requires from <= |value|
    ensures var t := LStrip(value[from..]);
            t == value[|value| - |t|..] && forall i :: from <= i < |value| - |t| ==> IsSpace(value[i])
  {
    var right := value[from..];
    LStripCuts(right);
    forall i | from <= i < |value| - |LStrip(right)| ensures IsSpace(value[i]) {
      assert right[i - from] == value[i];
    }
  }

  function Shift(s: Span, kind: Kind, end: int, change: int): Span {
    if s.kind == kind then s.(end := s.end + change)
    else if s.start >= end then s.(start := s.start + change, end := s.end + change)
    else s
  }

  function ShiftAll(spans: seq<Span>, kind: Kind, end: int, change: int): seq<Span> {
    seq(|spans|, i requires 0 <= i < |spans| => Shift(spans[i], kind, end, change))
  }

  function ShrinkSpan(m: Message, kind: Kind, s: Span, maximum: int): Message
    requires 0 <= s.start <= s.end <= |TextOf(m.content)|
  {
    var text := TextOf(m.content);
    var trimmed := TrimMiddle(text[s.start..s.end], maximum);
    if trimmed == text[s.start..s.end] then m
    else
      m.(content := WithText(m.content, text[..s.start] + trimmed + text[s.end..]),
         spans := match m.spans
                  case None => None
                  case Some(spans) => Some(ShiftAll(spans, kind, s.end, |trimmed| - (s.end - s.start))))
  }

  /** _shrink_optional; an unchanged message means it returned False. */
  function Shrink(m: Message, kind: Kind, maximum: int): Message {
    match OptionalSpan(m, kind)
    case None => m
    case Some(s) => ShrinkSpan(m, kind, s, maximum)
  }
}
