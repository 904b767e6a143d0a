/**
 * The remote table: the configured remotes in configuration order, the test
 * that decides whether an import source names a module of a remote, the
 * first-match lookup, the remote-relative module name, and the `remotesMap`
 * object literal that the `__federation__` virtual module is generated with.
 */
module Remotes {
  import opened Wrappers
  import opened Text

  /** A remote's configuration: its entry URLs (`external`), its module format and its origin builder (`from`). */
  datatype RemoteConfig = RemoteConfig(external: seq<string>, format: string, from: string)

  /**
   * One entry of the table. Its match pattern is the regular expression
   * `^<id>/.+?`, built from `id` without escaping; `Matches` gives its
   * meaning for ids free of regular-expression metacharacters.
   */
  datatype Remote = Remote(id: string, config: RemoteConfig)

  /** The characters a regular expression's `.` does not match. */
  predicate IsLineTerminator(c: char)
  {
    c == '\n' || c == '\r' || c == '\U{2028}' || c == '\U{2029}'
  }

  /**
   * `/^<id>\/.+?/.test(source)` for an id with no metacharacters: `source`
   * starts with `id + "/"` and at least one more character that is not a
   * line terminator follows.
   */
  predicate Matches(id: string, source: string)
  {
    |source| >= |id| + 2 && source[..|id|] == id && source[|id|] == '/'
    && !IsLineTerminator(source[|id| + 1])
  }

  /** The loop that builds the table: one entry per configured remote, in configuration order. */
  method BuildRemotes(items: seq<(string, RemoteConfig)>) returns (remotes: seq<Remote>)
    ensures |remotes| == |items|
    ensures forall i :: 0 <= i < |items| ==> remotes[i].id == items[i].0 && remotes[i].config == items[i].1
  {
    remotes := [];
    for i := 0 to |items|
      invariant |remotes| == i
      invariant forall k :: 0 <= k < i ==> remotes[k].id == items[k].0 && remotes[k].config == items[k].1
    {
      remotes := remotes + [Remote(items[i].0, items[i].1)];
    }
  }

  /** `remotes.find(r => r.regexp.test(source))`, searching from index `k`: the earliest match wins. */
  function FindFrom(remotes: seq<Remote>, source: string, k: nat): (r: Option<nat>)
    requires k <= |remotes|
    decreases |remotes| - k
    ensures r.Some? ==> k <= r.value < |remotes| && Matches(remotes[r.value].id, source)
    ensures r.Some? ==> forall j :: k <= j < r.value ==> !Matches(remotes[j].id, source)
    ensures r.None? ==> forall j :: k <= j < |remotes| ==> !Matches(remotes[j].id, source)
  {
    if k == |remotes| then None
    else if Matches(remotes[k].id, source) then Some(k)
    else FindFrom(remotes, source, k + 1)
  }

  /** The index of the first remote whose pattern matches `source`. */
  function Find(remotes: seq<Remote>, source: string): (r: Option<nat>)
    ensures r.Some? <==> exists k :: 0 <= k < |remotes| && Matches(remotes[k].id, source)
    ensures r.Some? ==> r.value < |remotes| && Matches(remotes[r.value].id, source)
    ensures r.Some? ==> forall j :: 0 <= j < r.value ==> !Matches(remotes[j].id, source)
  {
    FindFrom(remotes, source, 0)
  }

  /** A source a remote matches always contains a '/', so the walk's `indexOf('/')` filter loses no match. */
  lemma MatchHasSlash(id: string, source: string)
    requires Matches(id, source)
    ensures Contains(source, "/")
  {
    assert OccursAt("/", source, |id|);
  }

  /**
   * No prefix confusion: two ids without '/' that both match one source
   * are the same id (so `app2` and `app2x` never compete).
   */
  lemma MatchUnique(id1: string, id2: string, source: string)
    requires '/' !in id1 && '/' !in id2
    requires Matches(id1, source) && Matches(id2, source)
    ensures id1 == id2
  {
    if |id1| == |id2| {
      assert id1 == source[..|id1|];
    }
  }

  /** `'.' + source.slice(id.length)`: the module name relative to the remote. */
  function ModName(id: string, source: string): (m: string)
    requires Matches(id, source)
    ensures |m| >= 3 && m[..2] == "./" && !IsLineTerminator(m[2])
    ensures id + m[1..] == source
  {
    "." + source[|id|..]
  }

  /** `app2/Button` is `./Button` of `app2`, and `app2x/Button` is not `app2`'s. */
  lemma ModNameExamples()
    ensures Matches("app2", "app2/Button") && ModName("app2", "app2/Button") == "./Button"
    ensures !Matches("app2", "app2x/Button")
  {
  }

  /** `remote.config.external[0]` in a template literal: `undefined` when there is none. */
  function EntryUrl(c: RemoteConfig): string
  {
    if |c.external| > 0 then c.external[0] else "undefined"
  }

  /** One property of the generated `remotesMap` object literal. */
  function RemotesMapEntry(r: Remote): string
  {
    "'" + r.id + "':{url:'" + EntryUrl(r.config) + "',format:'" + r.config.format
    + "',from:'" + r.config.from + "'}"
  }

  function RemotesMapEntries(remotes: seq<Remote>): (es: seq<string>)
    ensures |es| == |remotes|
    ensures forall i :: 0 <= i < |remotes| ==> es[i] == RemotesMapEntry(remotes[i])
  {
    if remotes == [] then [] else [RemotesMapEntry(remotes[0])] + RemotesMapEntries(remotes[1..])
  }

  /** The `remotesMap` declaration at the head of the `__federation__` module. */
  function RemotesMapLiteral(remotes: seq<Remote>): string
  {
    "const remotesMap = {\n  " + Join(RemotesMapEntries(remotes), ",\n  ") + "\n};"
  }

  /** Every configured remote has its entry in the generated `remotesMap`. */
  lemma RemotesMapListsEvery(remotes: seq<Remote>, i: nat)
    requires i < |remotes|
    ensures Contains(RemotesMapLiteral(remotes), RemotesMapEntry(remotes[i]))
  {
    var es := RemotesMapEntries(remotes);
    JoinHasPart(es, ",\n  ", i);
    ContainsInside("const remotesMap = {\n  ", Join(es, ",\n  "), "\n};", es[i]);
  }

  /**
   * The object the runtime reads from the generated literal: with duplicate
   * ids, the LAST entry of the literal wins (whereas `Find` prefers the first).
   */
  function RuntimeTable(remotes: seq<Remote>): (t: map<string, RemoteConfig>)
    ensures forall i :: 0 <= i < |remotes| ==> remotes[i].id in t
    ensures forall id :: id in t ==> exists i :: 0 <= i < |remotes| && remotes[i].id == id
  {
    if remotes == [] then map[]
    else
      var last := remotes[|remotes| - 1];
      var t := RuntimeTable(remotes[..|remotes| - 1]);
      assert forall i :: 0 <= i < |remotes| - 1 ==> remotes[..|remotes| - 1][i] == remotes[i];
      t[last.id := last.config]
  }

  /** An id configured once (or last configured at index `i`) gets the configuration of index `i`. */
  lemma {:induction false} RuntimeTableLastWins(remotes: seq<Remote>, i: nat)
    requires i < |remotes|
    requires forall j :: i < j < |remotes| ==> remotes[j].id != remotes[i].id
    ensures RuntimeTable(remotes)[remotes[i].id] == remotes[i].config
  {
    if i < |remotes| - 1 {
      var init := remotes[..|remotes| - 1];
      assert init[i] == remotes[i];
      RuntimeTableLastWins(init, i);
    }
  }
}
