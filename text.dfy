/**
 * The JavaScript string operations the plugin relies on: `indexOf`,
 * `replace` with a string pattern, `replace` of a character class with `g`,
 * `Array.prototype.join`, and `path.basename`.
 */
module Text {
  import opened Wrappers

  /** `pat` occurs in `s` starting at index `i`. */
  predicate OccursAt(pat: string, s: string, i: nat) {
    i + |pat| <= |s| && s[i..i + |pat|] == pat
  }

  /** `s.indexOf(pat) > -1`. */
  predicate Contains(s: string, pat: string) {
    exists i: nat :: i <= |s| && OccursAt(pat, s, i)
  }

  /** `s.indexOf(pat, from)`: the first index at or after `from` where `pat` occurs. */
  function IndexOfFrom(s: string, pat: string, from: nat): (r: Option<nat>)
    decreases |s| - from
    ensures r.Some? ==> from <= r.value && OccursAt(pat, s, r.value)
    ensures r.Some? ==> forall j: nat :: from <= j < r.value ==> !OccursAt(pat, s, j)
    ensures r.None? ==> forall j: nat :: from <= j ==> !OccursAt(pat, s, j)
  {
    if |s| < from + |pat| then None
    else if s[from..from + |pat|] == pat then Some(from)
    else IndexOfFrom(s, pat, from + 1)
  }

  /**
   * `s.replace(pat, rep)` with a string pattern: only the FIRST occurrence
   * is replaced, and `s` is returned unchanged when `pat` does not occur.
   * (The `$`-patterns JavaScript expands inside `rep` are not modelled.)
   */
  function ReplaceFirst(s: string, pat: string, rep: string): (r: string)
    ensures (forall j: nat :: !OccursAt(pat, s, j)) ==> r == s
    ensures (exists j: nat :: OccursAt(pat, s, j)) ==> |r| == |s| - |pat| + |rep|
  {
    match IndexOfFrom(s, pat, 0)
    case None => s
    case Some(i) => s[..i] + rep + s[i + |pat|..]
  }

  /** When `pat` first occurs right after `pre`, exactly that occurrence is replaced. */
  lemma ReplaceFirstAt(pre: string, pat: string, post: string, rep: string)
    requires forall j: nat :: j < |pre| ==> !OccursAt(pat, pre + pat + post, j)
    ensures ReplaceFirst(pre + pat + post, pat, rep) == pre + rep + post
  {
    var s := pre + pat + post;
    assert OccursAt(pat, s, |pre|) by {
      assert s[|pre|..|pre| + |pat|] == pat;
    }
    assert IndexOfFrom(s, pat, 0) == Some(|pre|);
    assert s[..|pre|] == pre;
    assert s[|pre| + |pat|..] == post;
  }

  /** `s.replace(/[cs]/g, '')`: `s` with every character of `cs` deleted, the rest kept in order. */
  function RemoveChars(s: string, cs: set<char>): (r: string)
    ensures |r| <= |s|
  {
    if s == [] then [] else (if s[0] in cs then [] else [s[0]]) + RemoveChars(s[1..], cs)
  }

  /** Exactly the characters outside `cs` survive. */
  lemma {:induction false} RemoveCharsSpec(s: string, cs: set<char>)
    ensures forall k :: 0 <= k < |RemoveChars(s, cs)| ==> RemoveChars(s, cs)[k] !in cs
    ensures forall c :: c in RemoveChars(s, cs) <==> c in s && c !in cs
  {
    if s != [] {
      RemoveCharsSpec(s[1..], cs);
      var head, rest := if s[0] in cs then [] else [s[0]], RemoveChars(s[1..], cs);
      assert RemoveChars(s, cs) == head + rest;
      assert forall c :: c in s <==> c == s[0] || c in s[1..];
      assert forall c :: c in head + rest <==> c in head || c in rest;
    }
  }

  /** A string with none of the characters of `cs` is left as it is. */
  lemma {:induction false} RemoveCharsIdentity(s: string, cs: set<char>)
    requires forall k :: 0 <= k < |s| ==> s[k] !in cs
    ensures RemoveChars(s, cs) == s
  {
    if s != [] {
      RemoveCharsIdentity(s[1..], cs);
      assert s == [s[0]] + s[1..];
    }
  }

  /** Deleting characters distributes over concatenation. */
  lemma {:induction false} RemoveCharsAppend(a: string, b: string, cs: set<char>)
    ensures RemoveChars(a + b, cs) == RemoveChars(a, cs) + RemoveChars(b, cs)
  {
    if a == [] {
      assert a + b == b;
    } else {
      assert (a + b)[0] == a[0] && (a + b)[1..] == a[1..] + b;
      RemoveCharsAppend(a[1..], b, cs);
    }
  }

  /** `parts.join(sep)`. */
  function Join(parts: seq<string>, sep: string): string
  {
    if |parts| == 0 then ""
    else if |parts| == 1 then parts[0]
    else parts[0] + sep + Join(parts[1..], sep)
  }

  /** What a loop appending `part + sep` for every part builds. */
  function Terminated(parts: seq<string>, sep: string): string
  {
    if parts == [] then "" else parts[0] + sep + Terminated(parts[1..], sep)
  }

  /** Appending one more part to a `Terminated` string. */
  lemma {:induction false} TerminatedAppend(parts: seq<string>, p: string, sep: string)
    ensures Terminated(parts + [p], sep) == Terminated(parts, sep) + p + sep
  {
    if parts == [] {
      assert Terminated([p][1..], sep) == "";
    } else {
      assert (parts + [p])[1..] == parts[1..] + [p];
      TerminatedAppend(parts[1..], p, sep);
    }
  }

  /** Dropping the trailing separator of a `Terminated` string gives the `Join`. */
  lemma {:induction false} TerminatedDropLast(parts: seq<string>, sep: string)
    requires |parts| > 0
    ensures |Terminated(parts, sep)| >= |sep|
    ensures Terminated(parts, sep)[..|Terminated(parts, sep)| - |sep|] == Join(parts, sep)
  {
    var t := Terminated(parts[1..], sep);
    assert Terminated(parts, sep) == parts[0] + sep + t;
    if |parts| == 1 {
      assert t == "";
      assert (parts[0] + sep)[..|parts[0]|] == parts[0];
    } else {
      TerminatedDropLast(parts[1..], sep);
      assert (parts[0] + sep + t)[..|parts[0] + sep + t| - |sep|]
          == parts[0] + sep + t[..|t| - |sep|];
    }
  }

  /** Every part of a join appears in it. */
  lemma {:induction false} JoinHasPart(parts: seq<string>, sep: string, i: nat)
    requires i < |parts|
    ensures Contains(Join(parts, sep), parts[i])
  {
    if |parts| == 1 {
      assert OccursAt(parts[0], Join(parts, sep), 0);
    } else if i == 0 {
      var s := Join(parts, sep);
      assert s[0..|parts[0]|] == parts[0];
      assert OccursAt(parts[0], s, 0);
    } else {
      JoinHasPart(parts[1..], sep, i - 1);
      var k: nat :| OccursAt(parts[i], Join(parts[1..], sep), k);
      var pre := parts[0] + sep;
      InfixShift(pre, Join(parts[1..], sep), parts[i], k);
    }
  }

  /** An occurrence in `t` is an occurrence in `pre + t`, shifted by `|pre|`. */
  lemma InfixShift(pre: string, t: string, pat: string, k: nat)
    requires OccursAt(pat, t, k)
    ensures OccursAt(pat, pre + t, |pre| + k)
  {
    assert (pre + t)[|pre| + k..|pre| + k + |pat|] == t[k..k + |pat|];
  }

  /** Text found in `t` is still found once `t` is wrapped between `pre` and `post`. */
  lemma ContainsInside(pre: string, t: string, post: string, pat: string)
    requires Contains(t, pat)
    ensures Contains(pre + t + post, pat)
  {
    var k: nat :| k <= |t| && OccursAt(pat, t, k);
    InfixShift(pre, t, pat, k);
    var s := pre + t + post;
    assert s[|pre| + k..|pre| + k + |pat|] == (pre + t)[|pre| + k..|pre| + k + |pat|];
    assert OccursAt(pat, s, |pre| + k);
  }

  /** A text contains its last piece. */
  lemma {:induction false} ContainsLast(pre: string, t: string)
    ensures Contains(pre + t, t)
  {
    assert (pre + t)[|pre|..|pre| + |t|] == t;
    assert OccursAt(t, pre + t, |pre|);
  }

  /** Text found in `t` is found in `t + post`. */
  lemma {:induction false} ContainsBefore(t: string, post: string, pat: string)
    requires Contains(t, pat)
    ensures Contains(t + post, pat)
  {
    var k: nat :| k <= |t| && OccursAt(pat, t, k);
    assert (t + post)[k..k + |pat|] == t[k..k + |pat|];
    assert OccursAt(pat, t + post, k);
  }

  /** Text found in `t` is found in `pre + t`. */
  lemma {:induction false} ContainsAfter(pre: string, t: string, pat: string)
    requires Contains(t, pat)
    ensures Contains(pre + t, pat)
  {
    var k: nat :| k <= |t| && OccursAt(pat, t, k);
    InfixShift(pre, t, pat, k);
  }

  /** Text found in a piece of `s` is found in `s`. */
  lemma {:induction false} ContainsTransitive(s: string, piece: string, pat: string)
    requires Contains(s, piece) && Contains(piece, pat)
    ensures Contains(s, pat)
  {
    var i: nat :| i <= |s| && OccursAt(piece, s, i);
    var j: nat :| j <= |piece| && OccursAt(pat, piece, j);
    forall k | 0 <= k < |pat| ensures s[i + j + k] == pat[k] {
      assert pat[k] == piece[j..j + |pat|][k] == piece[j + k];
      assert piece[j + k] == s[i..i + |piece|][j + k];
    }
    assert s[i + j..i + j + |pat|] == pat;
    assert OccursAt(pat, s, i + j);
  }

  /** `path.basename` of a path that does not end in '/': everything after the last '/'. */
  function Basename(p: string): (b: string)
    ensures '/' !in b && |b| <= |p|
  {
    if p == [] || p[|p| - 1] == '/' then "" else Basename(p[..|p| - 1]) + [p[|p| - 1]]
  }

  /** The basename is a suffix of the path, and the character before it (if any) is '/'. */
  lemma {:induction false} BasenameSuffix(p: string)
    ensures var b := Basename(p); p[|p| - |b|..] == b && (|b| < |p| ==> p[|p| - |b| - 1] == '/')
  {
    if p != [] && p[|p| - 1] != '/' {
      var init := p[..|p| - 1];
      BasenameSuffix(init);
      var b := Basename(init);
      assert p[|p| - |b| - 1..] == init[|init| - |b|..] + [p[|p| - 1]];
    }
  }

  /** The basename of `dir + leaf`, where `dir` is empty or ends in '/', is `leaf`. */
  lemma {:induction false} BasenameAfterSlash(dir: string, leaf: string)
    requires '/' !in leaf
    requires dir == [] || dir[|dir| - 1] == '/'
    ensures Basename(dir + leaf) == leaf
  {
    if leaf == [] {
      assert dir + leaf == dir;
    } else {
      var init, last := leaf[..|leaf| - 1], leaf[|leaf| - 1];
      assert leaf == init + [last];
      assert last in leaf;
      assert '/' !in init by {
        forall k | 0 <= k < |init| ensures init[k] != '/' { assert init[k] == leaf[k]; }
      }
      var p := dir + leaf;
      assert p == (dir + init) + [last];
      BasenameAfterSlash(dir, init);
      assert p[..|p| - 1] == dir + init;
    }
  }

  /** `String(b)` for a boolean, as a template literal renders it. */
  function BoolText(b: bool): (r: string)
    ensures b <==> r == "true"
  {
    if b then "true" else "false"
  }
}
