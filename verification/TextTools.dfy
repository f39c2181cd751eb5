/** The primitives of Python the modelled code calls. */
module TextTools {

  datatype Option<+T> = None | Some(value: T)

  /** The ASCII whitespace of str.strip and the two Latin-1 ones. */
  predicate IsSpace(c: char) {
    c == ' ' || '\t' <= c <= '\r' || '\U{1C}' <= c <= '\U{1F}' || c == '\U{85}' || c == '\U{A0}'
  }

  function LStrip(s: string): (t: string)
    ensures |t| <= |s|
  {
    if s != [] && IsSpace(s[0]) then LStrip(s[1..]) else s
  }

  function RStrip(s: string): (t: string)
    ensures |t| <= |s|
  {
    if s != [] && IsSpace(s[|s| - 1]) then RStrip(s[..|s| - 1]) else s
  }

  /** Stripping cuts whitespace alone, and all of it, at its end. */
  lemma {:induction false} LStripCuts(s: string)
    ensures var t := LStrip(s);
            && t == s[|s| - |t|..] && (forall i :: 0 <= i < |s| - |t| ==> IsSpace(s[i])) && (t != [] ==> !IsSpace(t[0]))
  {
    if s != [] && IsSpace(s[0]) {
      LStripCuts(s[1..]);
    }
  }

  lemma {:induction false} RStripCuts(s: string)
    ensures var t := RStrip(s);
            && t == s[..|t|] && (forall i :: |t| <= i < |s| ==> IsSpace(s[i])) && (t != [] ==> !IsSpace(t[|t| - 1]))
  {
    if s != [] && IsSpace(s[|s| - 1]) {
      RStripCuts(s[..|s| - 1]);
    }
  }

  predicate At(s: string, pat: string, i: int) {
    0 <= i && i + |pat| <= |s| && s[i..i + |pat|] == pat
  }

  /** str.find from a position on: the least index at which the pattern stands. */
  function Find(s: string, pat: string, start: nat): (r: Option<nat>)
    ensures r.Some? ==> start <= r.value && At(s, pat, r.value)
                        && forall i :: start <= i < r.value ==> !At(s, pat, i)
    ensures r.None? ==> forall i :: start <= i ==> !At(s, pat, i)
    decreases |s| + 1 - start
  {
    if start + |pat| > |s| then None
    else if At(s, pat, start) then Some(start)
    else Find(s, pat, start + 1)
  }

  /** range(n). */
  function UpTo(n: nat): (out: seq<nat>)
    ensures |out| == n && forall i :: 0 <= i < n ==> out[i] == i
  {
    if n == 0 then [] else UpTo(n - 1) + [n - 1]
  }
}
