/** The parts of JavaScript's string API that the router uses on file paths. */
module Strings {
  import opened Wrappers

  /** `pat` occurs in `s` starting at index `i`. */
  predicate OccursAt(s: string, pat: string, i: nat) {
    i + |pat| <= |s| && s[i..i + |pat|] == pat
  }

  /** The search `replace` runs for a string pattern: the first occurrence of
      `pat` at or after `from`. It agrees with `s.indexOf(pat, from)` for
      `from <= |s|`; `indexOf` would clamp a larger `from` to `|s|`. */
  function IndexOfFrom(s: string, pat: string, from: nat): (r: Option<nat>)
    decreases |s| - from
    ensures r.Some? ==> from <= r.value && OccursAt(s, pat, r.value)
    ensures r.Some? ==> forall j :: from <= j < r.value ==> !OccursAt(s, pat, j)
    ensures r.None? ==> forall j :: from <= j ==> !OccursAt(s, pat, j)
  {
    if from + |pat| > |s| then None
    else if s[from..from + |pat|] == pat then Some(from)
    else IndexOfFrom(s, pat, from + 1)
  }

  /** Replaces the first occurrence of `pat` in `s` by `rep`, taken literally;
      `s` is returned unchanged when `pat` does not occur. */
  function ReplaceFirst(s: string, pat: string, rep: string): (r: string)
    ensures IndexOfFrom(s, pat, 0).None? ==> r == s
    ensures IndexOfFrom(s, pat, 0).Some? ==>
              var i := IndexOfFrom(s, pat, 0).value;
              |r| == |s| - |pat| + |rep| && r[..i] == s[..i] && r[i..i + |rep|] == rep && r[i + |rep|..] == s[i + |pat|..]
  {
    match IndexOfFrom(s, pat, 0)
    case None => s
    case Some(i) => s[..i] + rep + s[i + |pat|..]
  }

  /** The replacement happens at the first occurrence of the pattern. */
  lemma ReplaceFirstAt(s: string, pat: string, rep: string, i: nat)
    requires OccursAt(s, pat, i)
    requires forall j: nat :: j < i ==> !OccursAt(s, pat, j)
    ensures ReplaceFirst(s, pat, rep) == s[..i] + rep + s[i + |pat|..]
  {
  }

  /** A string without the pattern is left unchanged. */
  lemma ReplaceFirstAbsent(s: string, pat: string, rep: string)
    requires forall j: nat :: !OccursAt(s, pat, j)
    ensures ReplaceFirst(s, pat, rep) == s
  {
  }

  /** A path that starts with `prefix` is moved under `newPrefix`: the rest of
      the path is kept. */
  lemma ReplacePrefix(prefix: string, rest: string, newPrefix: string)
    ensures ReplaceFirst(prefix + rest, prefix, newPrefix) == newPrefix + rest
  {
  }

  /** The replacement text as `String.prototype.replace` builds it when the
      pattern is a string: `$$` stands for `$`, `$&` for the matched text,
      `` $` `` for the text before the match and `$'` for the text after it;
      every other character is taken literally. */
  function ExpandReplacement(rep: string, matched: string, before: string, after: string): (r: string)
    ensures (forall k :: 0 <= k < |rep| ==> rep[k] != '$') ==> r == rep
  {
    if rep == [] then []
    else if rep[0] == '$' && |rep| >= 2 && rep[1] == '$' then
      "$" + ExpandReplacement(rep[2..], matched, before, after)
    else if rep[0] == '$' && |rep| >= 2 && rep[1] == '&' then
      matched + ExpandReplacement(rep[2..], matched, before, after)
    else if rep[0] == '$' && |rep| >= 2 && rep[1] == '`' then
      before + ExpandReplacement(rep[2..], matched, before, after)
    else if rep[0] == '$' && |rep| >= 2 && rep[1] == '\'' then
      after + ExpandReplacement(rep[2..], matched, before, after)
    else
      [rep[0]] + ExpandReplacement(rep[1..], matched, before, after)
  }

  /** `s.replace(pat, rep)` as JavaScript evaluates it: the first occurrence of
      `pat` is replaced by the EXPANDED replacement text. */
  function ReplaceFirstJs(s: string, pat: string, rep: string): (r: string)
    ensures IndexOfFrom(s, pat, 0).None? ==> r == s
  {
    match IndexOfFrom(s, pat, 0)
    case None => s
    case Some(i) => s[..i] + ExpandReplacement(rep, pat, s[..i], s[i + |pat|..]) + s[i + |pat|..]
  }

  /** JavaScript's `replace` leaves a string without the pattern unchanged. */
  lemma ReplaceFirstJsAbsent(s: string, pat: string, rep: string)
    requires forall j: nat :: !OccursAt(s, pat, j)
    ensures ReplaceFirstJs(s, pat, rep) == s
  {
  }

  /** With no `$` in the replacement, JavaScript's `replace` is the literal
      replacement. */
  lemma ReplaceFirstJsWithoutDollar(s: string, pat: string, rep: string)
    requires forall k :: 0 <= k < |rep| ==> rep[k] != '$'
    ensures ReplaceFirstJs(s, pat, rep) == ReplaceFirst(s, pat, rep)
  {
  }

  /** A new path that contains `$$` is not carried over literally: renaming
      `a.vue` to `$$.vue` turns the module path `a.vue.ts` into `$.vue.ts`
      instead of `$$.vue.ts`. */
  lemma DollarInNewPathIsExpanded()
    ensures ReplaceFirstJs("a.vue.ts", "a.vue", "$$.vue") == "$.vue.ts"
    ensures ReplaceFirst("a.vue.ts", "a.vue", "$$.vue") == "$$.vue.ts"
    ensures ReplaceFirstJs("a.vue.ts", "a.vue", "$$.vue") != ReplaceFirst("a.vue.ts", "a.vue", "$$.vue")
  {
  }
}
