/**
 * The import rewrite of the host build's `transform` hook. The walk over
 * the syntax tree is given as the module's import sites, in the order the
 * walk enters them; every site whose string source matches a remote is rewritten into a call
 * of the `__federation__` runtime, and the runtime import is prepended once
 * when anything matched. MagicString's edits are modelled as an ordered
 * list of range replacements, each followed by the text appended at the
 * end of its range.
 */
module ImportRewrite {
  import opened Wrappers
  import opened Text
  import opened Remotes
  import JsonQuote

  /** The specifiers of an import declaration. */
  datatype Specifier =
    | DefaultSpecifier(local: string)                  // import a from '...'
    | NamedSpecifier(imported: string, local: string)  // import {a as b} from '...'
    | NamespaceSpecifier(local: string)                // import * as a from '...'

  datatype SiteKind = ImportExpression | ImportDeclaration

  /** What `node.source?.value` is. */
  datatype SourceValue =
    | NoValue                 // not a literal, or the `null` literal: nullish, so the site is skipped
    | StringValue(value: string)
    | OtherValue              // a number, boolean, regular-expression or bigint literal: it has no `indexOf`

  /**
   * An `ImportExpression` or `ImportDeclaration` node: the value of its
   * source, its specifiers, and `[start, end)`, its range in the module text.
   */
  datatype ImportSite = ImportSite(kind: SiteKind, source: SourceValue, specifiers: seq<Specifier>,
                                   start: nat, end: nat)

  /**
   * The source is a literal other than `null`. Only such a site can be
   * rewritten or make the walk throw, and no import can sit inside it.
   */
  predicate HasLiteralSource(site: ImportSite)
  {
    !site.source.NoValue?
  }

  /**
   * The sites in the walk's order (an outer node before the nodes inside
   * it), all inside a text of length `n`. Sites with a literal source are
   * disjoint and in document order; a site with any other source, such as
   * `import((await import('app2/cfg')).default)`, may hold others.
   */
  predicate SitesFit(sites: seq<ImportSite>, n: nat)
  {
    && (forall i :: 0 <= i < |sites| ==> sites[i].start <= sites[i].end <= n)
    && (forall i, j :: 0 <= i < j < |sites| && HasLiteralSource(sites[i]) && HasLiteralSource(sites[j]) ==>
          sites[i].end <= sites[j].start)
  }

  // ----- Splicing edits into the module text -----

  /**
   * `overwrite(start, end, text)`, followed by `appendRight(end, appended)`
   * for the bindings of a declaration (empty for a dynamic import).
   */
  datatype Edit = Edit(start: nat, end: nat, text: string, appended: string)

  /** Ordered, disjoint edits, all inside `[pos, n]`. */
  predicate EditsFit(edits: seq<Edit>, pos: nat, n: nat)
  {
    && (forall i :: 0 <= i < |edits| ==> pos <= edits[i].start <= edits[i].end <= n)
    && (forall i, j :: 0 <= i < j < |edits| ==> edits[i].end <= edits[j].start)
  }

  /** The text from `pos` on, with the edits applied (MagicString's `toString`). */
  function SpliceFrom(code: string, edits: seq<Edit>, pos: nat): string
    requires pos <= |code| && EditsFit(edits, pos, |code|)
    decreases |edits|
  {
    if edits == [] then code[pos..]
    else
      assert EditsFit(edits[1..], edits[0].end, |code|) by {
        forall i | 0 <= i < |edits| - 1 ensures edits[0].end <= edits[1..][i].start {
          assert edits[1..][i] == edits[i + 1];
        }
      }
      code[pos..edits[0].start] + edits[0].text + edits[0].appended + SpliceFrom(code, edits[1..], edits[0].end)
  }

  function Splice(code: string, edits: seq<Edit>): string
    requires EditsFit(edits, 0, |code|)
  {
    SpliceFrom(code, edits, 0)
  }

  /** Edits that write back what they cover change nothing. */
  lemma {:induction false} SpliceIdentity(code: string, edits: seq<Edit>, pos: nat)
    requires pos <= |code| && EditsFit(edits, pos, |code|)
    requires forall i :: 0 <= i < |edits| ==> edits[i].text == code[edits[i].start..edits[i].end] && edits[i].appended == ""
    ensures SpliceFrom(code, edits, pos) == code[pos..]
  {
    if edits != [] {
      var e := edits[0];
      assert EditsFit(edits[1..], e.end, |code|) by {
        forall i | 0 <= i < |edits| - 1 ensures e.end <= edits[1..][i].start {
          assert edits[1..][i] == edits[i + 1];
        }
      }
      assert forall i :: 0 <= i < |edits| - 1 ==> edits[1..][i] == edits[i + 1];
      SpliceIdentity(code, edits[1..], e.end);
      assert code[pos..e.start] + code[e.start..e.end] + code[e.end..] == code[pos..];
    }
  }

  /** Every edit's text, with what is appended after it, appears whole in the result. */
  lemma {:induction false} SpliceKeepsEdits(code: string, edits: seq<Edit>, pos: nat, e: Edit)
    requires pos <= |code| && EditsFit(edits, pos, |code|)
    requires e in edits
    ensures Contains(SpliceFrom(code, edits, pos), e.text + e.appended)
  {
    var first := edits[0];
    assert EditsFit(edits[1..], first.end, |code|) by {
      forall i | 0 <= i < |edits| - 1 ensures first.end <= edits[1..][i].start {
        assert edits[1..][i] == edits[i + 1];
      }
    }
    var rest := SpliceFrom(code, edits[1..], first.end);
    var head := code[pos..first.start];
    assert SpliceFrom(code, edits, pos) == head + (first.text + first.appended) + rest;
    if e == first {
      assert OccursAt(e.text + e.appended, "" + (e.text + e.appended) + rest, 0);
      InfixShift(head, (e.text + e.appended) + rest, e.text + e.appended, 0);
      assert head + ((e.text + e.appended) + rest) == head + (first.text + first.appended) + rest;
    } else {
      SpliceKeepsEdits(code, edits[1..], first.end, e);
      ContainsInside(head + (first.text + first.appended), rest, "", e.text + e.appended);
      assert head + (first.text + first.appended) + rest + "" == SpliceFrom(code, edits, pos);
    }
  }

  /**
   * MagicString's own result for the same calls. `overwrite` clears what
   * was appended to the chunk it starts at, so the text appended at an
   * edit's end is lost when the next edit starts exactly there.
   */
  function MagicSpliceFrom(code: string, edits: seq<Edit>, pos: nat): string
    requires pos <= |code| && EditsFit(edits, pos, |code|)
    decreases |edits|
  {
    if edits == [] then code[pos..]
    else
      assert EditsFit(edits[1..], edits[0].end, |code|) by {
        forall i | 0 <= i < |edits| - 1 ensures edits[0].end <= edits[1..][i].start {
          assert edits[1..][i] == edits[i + 1];
        }
      }
      var kept := if |edits| > 1 && edits[1].start == edits[0].end then "" else edits[0].appended;
      code[pos..edits[0].start] + edits[0].text + kept + MagicSpliceFrom(code, edits[1..], edits[0].end)
  }

  /** Some edit ends exactly where the next one starts. */
  predicate Touching(edits: seq<Edit>)
  {
    exists i :: 0 <= i < |edits| - 1 && edits[i].end == edits[i + 1].start
  }

  /** When no two edits touch, MagicString's splice is the intended one. */
  lemma {:induction false} MagicSpliceAgrees(code: string, edits: seq<Edit>, pos: nat)
    requires pos <= |code| && EditsFit(edits, pos, |code|) && !Touching(edits)
    ensures MagicSpliceFrom(code, edits, pos) == SpliceFrom(code, edits, pos)
    decreases |edits|
  {
    if edits != [] {
      var rest := edits[1..];
      assert forall i :: 0 <= i < |rest| ==> rest[i] == edits[i + 1];
      assert EditsFit(rest, edits[0].end, |code|);
      assert !Touching(rest) by {
        forall i | 0 <= i < |rest| - 1 ensures rest[i].end != rest[i + 1].start {
          assert rest[i] == edits[i + 1] && rest[i + 1] == edits[i + 2];
        }
      }
      MagicSpliceAgrees(code, rest, edits[0].end);
      if |edits| > 1 {
        assert edits[0].end != edits[1].start;
      }
    }
  }

  /** A single edit: both splices write its text and what is appended after it. */
  lemma {:induction false} SpliceOne(code: string, e: Edit, pos: nat)
    requires pos <= e.start <= e.end <= |code|
    ensures EditsFit([e], pos, |code|)
    ensures SpliceFrom(code, [e], pos) == code[pos..e.start] + e.text + e.appended + code[e.end..]
    ensures MagicSpliceFrom(code, [e], pos) == SpliceFrom(code, [e], pos)
  {
    assert [e][0] == e && [e][1..] == [];
  }

  /** Two touching edits: MagicString drops the first one's appended text, which the intended splice keeps. */
  lemma {:induction false} TouchingEditsSplice(code: string, e1: Edit, e2: Edit)
    requires e1.start <= e1.end == e2.start <= e2.end <= |code|
    ensures EditsFit([e1, e2], 0, |code|)
    ensures MagicSpliceFrom(code, [e1, e2], 0) == code[..e1.start] + e1.text + e2.text + e2.appended + code[e2.end..]
    ensures SpliceFrom(code, [e1, e2], 0)
         == code[..e1.start] + e1.text + e1.appended + e2.text + e2.appended + code[e2.end..]
  {
    var es := [e1, e2];
    assert es[0] == e1 && es[1] == e2 && es[1..] == [e2];
    assert EditsFit(es, 0, |code|);
    SpliceOne(code, e2, e1.end);
    var head, tail := code[..e1.start], code[e2.end..];
    var m2 := MagicSpliceFrom(code, [e2], e1.end);
    Regroup(code[e1.end..e2.start], e2.text, e2.appended, tail, head, e1.text, "");
    Regroup(code[e1.end..e2.start], e2.text, e2.appended, tail, head, e1.text, e1.appended);
    assert code[0..e1.start] == head;
    assert head + e1.text + "" == head + e1.text;
    assert MagicSpliceFrom(code, es, 0) == head + e1.text + "" + m2;
  }

  /** Regrouping a concatenation whose first piece is empty. */
  lemma {:induction false} Regroup(gap: string, x: string, y: string, z: string, a: string, b: string, c: string)
    requires gap == []
    ensures a + b + c + (gap + x + y + z) == a + b + c + x + y + z
  {
    assert gap + x + y + z == x + y + z;
  }

  // ----- The generated text -----

  const GetRemoteFunction := "__federation_method_getRemote"
  const VarPrefix := "__federation_var_"
  const VarStrippedChars: set<char> := {'@', '/', '\\', '.', '-'}

  /** The line prepended to a module with at least one rewritten import. */
  const RuntimeImport := "import {__federation_method_ensure, __federation_method_getRemote , "
    + "__federation_method_wrapDefault , __federation_method_unwrapDefault} from '__federation__';\n\n"

  /** `__federation_method_getRemote("<id>" , "<modName>")`, both arguments JSON-quoted. */
  function GetRemoteText(id: string, modName: string): string
  {
    GetRemoteFunction + "(" + JsonQuote.Quote(id) + " , " + JsonQuote.Quote(modName) + ")"
  }

  /** What a matched `import(...)` expression becomes. */
  function DynamicImportText(id: string, modName: string, needWrap: bool): string
  {
    GetRemoteText(id, modName) + ".then(module=>__federation_method_wrapDefault(module, "
    + BoolText(needWrap) + "))"
  }

  /** The one variable a rewritten declaration binds: the source with `@ / \ . -` removed. */
  function VarName(source: string): (v: string)
    ensures |v| >= |VarPrefix| && v[..|VarPrefix|] == VarPrefix
    ensures forall k :: |VarPrefix| <= k < |v| ==> v[k] !in VarStrippedChars
    ensures forall c :: c in source && c !in VarStrippedChars ==> c in v
  {
    var rest := RemoveChars(source, VarStrippedChars);
    RemoveCharsSpec(source, VarStrippedChars);
    assert forall k :: |VarPrefix| <= k < |VarPrefix + rest| ==> (VarPrefix + rest)[k] == rest[k - |VarPrefix|];
    VarPrefix + rest
  }

  /** What the whole range of a matched declaration with specifiers becomes. */
  function DeclarationText(v: string, id: string, modName: string): string
  {
    "const " + v + " = await " + GetRemoteText(id, modName) + ";"
  }

  /** Appended for a default specifier. */
  function DefaultBinding(local: string, v: string): string
  {
    "\n let " + local + " = __federation_method_unwrapDefault(" + v + ") "
  }

  /** Appended for a namespace specifier: a destructuring, with no leading newline. */
  function NamespaceBinding(local: string, v: string): string
  {
    "let {" + local + "} = " + v
  }

  /** One entry of the destructuring of named specifiers: `a`, or `a : b` when renamed. */
  function NamedItem(imported: string, local: string): string
  {
    if imported == local then local else imported + " : " + local
  }

  /** The text a specifier appends on its own (named specifiers append nothing here). */
  function SpecifierText(s: Specifier, v: string): string
  {
    match s
    case DefaultSpecifier(local) => DefaultBinding(local, v)
    case NamedSpecifier(_, _) => ""
    case NamespaceSpecifier(local) => NamespaceBinding(local, v)
  }

  function SpecifierTexts(specs: seq<Specifier>, v: string): string
  {
    if specs == [] then ""
    else SpecifierTexts(specs[..|specs| - 1], v) + SpecifierText(specs[|specs| - 1], v)
  }

  /** The entries of the named specifiers, in declaration order. */
  function NamedItems(specs: seq<Specifier>): seq<string>
  {
    if specs == [] then []
    else
      var s := specs[|specs| - 1];
      NamedItems(specs[..|specs| - 1]) + if s.NamedSpecifier? then [NamedItem(s.imported, s.local)] else []
  }

  /** The one destructuring of the named specifiers' entries `items`. */
  function Destructuring(items: string, v: string): string
  {
    "\n let {" + items + "} = " + v
  }

  /** Everything appended after a rewritten declaration. */
  function Bindings(specs: seq<Specifier>, v: string): string
  {
    SpecifierTexts(specs, v)
    + if NamedItems(specs) == [] then "" else Destructuring(Join(NamedItems(specs), ","), v)
  }

  /** What one more specifier adds to the appended text and to the gathered entries. */
  lemma BindingsStep(specs: seq<Specifier>, i: nat, v: string)
    requires i < |specs|
    ensures SpecifierTexts(specs[..i + 1], v) == SpecifierTexts(specs[..i], v) + SpecifierText(specs[i], v)
    ensures Terminated(NamedItems(specs[..i + 1]), ",")
         == Terminated(NamedItems(specs[..i]), ",")
            + if specs[i].NamedSpecifier? then NamedItem(specs[i].imported, specs[i].local) + "," else ""
  {
    var init := specs[..i + 1][..i];
    assert init == specs[..i];
    assert NamedItems(specs[..i + 1])
        == NamedItems(init) + if specs[i].NamedSpecifier? then [NamedItem(specs[i].imported, specs[i].local)] else [];
    if specs[i].NamedSpecifier? {
      TerminatedAppend(NamedItems(init), NamedItem(specs[i].imported, specs[i].local), ",");
    } else {
      assert NamedItems(specs[..i + 1]) == NamedItems(init);
    }
  }

  /** The destructuring built from the comma-terminated entries, after cutting the last comma. */
  lemma DestructuringOfTerminated(items: seq<string>, v: string)
    ensures var t := Terminated(items, ",");
      (if items == [] then "" else Destructuring(Join(items, ","), v))
      == if |t| > 0 then Destructuring(t[..|t| - 1], v) else ""
  {
    if items != [] {
      TerminatedDropLast(items, ",");
      assert |","| == 1;
    }
  }

  /** The bindings in terms of the loop's two accumulators: the appended texts and the comma-terminated entries. */
  lemma BindingsOfGathered(specs: seq<Specifier>, v: string)
    ensures var t := Terminated(NamedItems(specs), ",");
      Bindings(specs, v) == SpecifierTexts(specs, v) + if |t| > 0 then Destructuring(t[..|t| - 1], v) else ""
  {
    DestructuringOfTerminated(NamedItems(specs), v);
  }

  /** The text of every default or namespace specifier is among the specifier texts. */
  lemma {:induction false} SpecifierTextsHas(specs: seq<Specifier>, v: string, i: nat)
    requires i < |specs|
    ensures Contains(SpecifierTexts(specs, v), SpecifierText(specs[i], v))
  {
    var init, last := specs[..|specs| - 1], specs[|specs| - 1];
    var front, back := SpecifierTexts(init, v), SpecifierText(last, v);
    assert SpecifierTexts(specs, v) == front + back;
    if i == |specs| - 1 {
      ContainsLast(front, back);
    } else {
      assert init[i] == specs[i];
      SpecifierTextsHas(init, v, i);
      ContainsBefore(front, back, SpecifierText(specs[i], v));
    }
  }

  /** The entry of every named specifier is among the gathered entries. */
  lemma {:induction false} NamedItemsHas(specs: seq<Specifier>, i: nat)
    requires i < |specs| && specs[i].NamedSpecifier?
    ensures NamedItem(specs[i].imported, specs[i].local) in NamedItems(specs)
  {
    var init := specs[..|specs| - 1];
    if i < |specs| - 1 {
      assert init[i] == specs[i];
      NamedItemsHas(init, i);
    }
  }

  /**
   * A rewritten declaration binds every local name it imported: a default
   * or namespace specifier's own binding, and a named specifier's entry in
   * the one destructuring, occur in the appended text.
   */
  lemma {:induction false} BindingsBindEvery(specs: seq<Specifier>, v: string, i: nat)
    requires i < |specs|
    ensures !specs[i].NamedSpecifier? ==> Contains(Bindings(specs, v), SpecifierText(specs[i], v))
    ensures specs[i].NamedSpecifier? ==> Contains(Bindings(specs, v), NamedItem(specs[i].imported, specs[i].local))
  {
    var texts := SpecifierTexts(specs, v);
    var items := NamedItems(specs);
    var tail := if items == [] then "" else Destructuring(Join(items, ","), v);
    assert Bindings(specs, v) == texts + tail;
    if specs[i].NamedSpecifier? {
      var item := NamedItem(specs[i].imported, specs[i].local);
      NamedItemsHas(specs, i);
      var k :| 0 <= k < |items| && items[k] == item;
      DestructuringHas(items, v, k);
      ContainsAfter(texts, tail, item);
    } else {
      SpecifierTextsHas(specs, v, i);
      ContainsBefore(texts, tail, SpecifierText(specs[i], v));
    }
  }

  /** Every entry appears in the destructuring built from the entries. */
  lemma {:induction false} DestructuringHas(items: seq<string>, v: string, k: nat)
    requires k < |items|
    ensures Contains(Destructuring(Join(items, ","), v), items[k])
  {
    var j := Join(items, ",");
    JoinHasPart(items, ",", k);
    ContainsAfter("\n let {", j, items[k]);
    ContainsBefore("\n let {" + j, "} = ", items[k]);
    ContainsBefore("\n let {" + j + "} = ", v, items[k]);
  }

  /**
   * The `forEach` over the specifiers: default and namespace bindings are
   * appended as met, named ones gathered into `deconstructStr` with a
   * trailing comma, which is cut before the one destructuring is appended.
   */
  method AppendBindings(specs: seq<Specifier>, v: string) returns (appended: string)
    ensures appended == Bindings(specs, v)
  {
    var deconstructStr := "";
    appended := "";
    for i := 0 to |specs|
      invariant appended == SpecifierTexts(specs[..i], v)
      invariant deconstructStr == Terminated(NamedItems(specs[..i]), ",")
    {
      BindingsStep(specs, i, v);
      match specs[i]
      case DefaultSpecifier(local) =>
        appended := appended + DefaultBinding(local, v);
      case NamedSpecifier(imported, local) =>
        deconstructStr := deconstructStr + NamedItem(imported, local) + ",";
      case NamespaceSpecifier(local) =>
        appended := appended + NamespaceBinding(local, v);
    }
    assert specs[..|specs|] == specs;
    BindingsOfGathered(specs, v);
    if |deconstructStr| > 0 {
      appended := appended + Destructuring(deconstructStr[..|deconstructStr| - 1], v);
    }
  }

  // ----- Which sites are rewritten -----

  /** `node.source?.value?.indexOf('/') > -1`. */
  predicate Considered(site: ImportSite)
  {
    site.source.StringValue? && IndexOfFrom(site.source.value, "/", 0).Some?
  }

  /** `indexOf` is called on a value that has none: the walk throws a `TypeError` at this site. */
  predicate Throws(site: ImportSite)
  {
    site.source.OtherValue?
  }

  /** Some site makes the walk throw. */
  predicate WalkThrows(sites: seq<ImportSite>)
  {
    exists i :: 0 <= i < |sites| && Throws(sites[i])
  }

  /** The remote a site is rewritten against: the first that matches its source. */
  function MatchedRemote(remotes: seq<Remote>, site: ImportSite): (r: Option<nat>)
    ensures r.Some? <==> Considered(site) && exists k :: 0 <= k < |remotes| && Matches(remotes[k].id, site.source.value)
    ensures r.Some? ==> r.value < |remotes| && Matches(remotes[r.value].id, site.source.value)
    ensures r.Some? ==> forall j :: 0 <= j < r.value ==> !Matches(remotes[j].id, site.source.value)
  {
    if Considered(site) then Find(remotes, site.source.value) else None
  }

  predicate SiteMatched(remotes: seq<Remote>, site: ImportSite)
  {
    MatchedRemote(remotes, site).Some?
  }

  /**
   * The edit a site contributes: matched dynamic imports and matched
   * declarations with specifiers are replaced over exactly their range;
   * everything else, including a matched declaration without specifiers,
   * is left alone.
   */
  function SiteEdit(remotes: seq<Remote>, site: ImportSite): (r: Option<Edit>)
    ensures r.Some? <==> SiteMatched(remotes, site) && (site.kind == ImportExpression || site.specifiers != [])
    ensures r.Some? ==> r.value.start == site.start && r.value.end == site.end
  {
    match MatchedRemote(remotes, site)
    case None => None
    case Some(k) =>
      var remote, source := remotes[k], site.source.value;
      var modName := ModName(remote.id, source);
      if site.kind == ImportExpression then
        Some(Edit(site.start, site.end, DynamicImportText(remote.id, modName, remote.config.from == "vite"), ""))
      else if site.specifiers == [] then None
      else
        var v := VarName(source);
        Some(Edit(site.start, site.end, DeclarationText(v, remote.id, modName), Bindings(site.specifiers, v)))
  }

  /** The edits of all sites, in document order. */
  function EditsOf(remotes: seq<Remote>, sites: seq<ImportSite>): seq<Edit>
  {
    if sites == [] then []
    else
      var e := SiteEdit(remotes, sites[|sites| - 1]);
      EditsOf(remotes, sites[..|sites| - 1]) + if e.Some? then [e.value] else []
  }

  predicate AnyMatched(remotes: seq<Remote>, sites: seq<ImportSite>)
  {
    exists i :: 0 <= i < |sites| && SiteMatched(remotes, sites[i])
  }

  /** Edits stay within the span that holds the sites they come from. */
  lemma {:induction false} EditsWithin(remotes: seq<Remote>, sites: seq<ImportSite>, lo: nat, hi: nat)
    requires forall i :: 0 <= i < |sites| && HasLiteralSource(sites[i]) ==> lo <= sites[i].start <= sites[i].end <= hi
    ensures forall k :: 0 <= k < |EditsOf(remotes, sites)| ==>
      lo <= EditsOf(remotes, sites)[k].start <= EditsOf(remotes, sites)[k].end <= hi
  {
    if sites != [] {
      var init := sites[..|sites| - 1];
      assert forall j :: 0 <= j < |init| ==> init[j] == sites[j];
      EditsWithin(remotes, init, lo, hi);
      var es, e := EditsOf(remotes, init), SiteEdit(remotes, sites[|sites| - 1]);
      var all := EditsOf(remotes, sites);
      assert all == es + if e.Some? then [e.value] else [];
      forall k | 0 <= k < |all| ensures lo <= all[k].start <= all[k].end <= hi {
        if k < |es| {
          assert all[k] == es[k];
        } else {
          assert e.Some? && k == |es| && all[k] == e.value;
          var last := sites[|sites| - 1];
          assert e.value.start == last.start && e.value.end == last.end;
          assert HasLiteralSource(last);
          assert lo <= last.start <= last.end <= hi;
        }
      }
    }
  }

  /** Dropping the last site keeps the rest fitting, and a literal last site follows every other literal one. */
  lemma {:induction false} SitesFitInit(init: seq<ImportSite>, last: ImportSite, n: nat)
    requires SitesFit(init + [last], n)
    ensures SitesFit(init, n)
    ensures HasLiteralSource(last) ==>
      forall j :: 0 <= j < |init| && HasLiteralSource(init[j]) ==> init[j].start <= init[j].end <= last.start
  {
    var sites := init + [last];
    assert forall j :: 0 <= j < |init| ==> sites[j] == init[j];
    assert sites[|init|] == last;
  }

  /** Sites in the walk's order give edits MagicString can apply in order. */
  lemma {:induction false} EditsOfFit(remotes: seq<Remote>, sites: seq<ImportSite>, n: nat)
    requires SitesFit(sites, n)
    ensures EditsFit(EditsOf(remotes, sites), 0, n)
  {
    if sites != [] {
      var init, last := sites[..|sites| - 1], sites[|sites| - 1];
      assert sites == init + [last];
      SitesFitInit(init, last, n);
      EditsOfFit(remotes, init, n);
      var es, e := EditsOf(remotes, init), SiteEdit(remotes, last);
      if e.Some? {
        assert HasLiteralSource(last);
        EditsWithin(remotes, init, 0, last.start);
      }
      var all := EditsOf(remotes, sites);
      assert all == es + if e.Some? then [e.value] else [];
      assert EditsFit(es, 0, n);
      forall i | 0 <= i < |all| ensures 0 <= all[i].start <= all[i].end <= n {
        if i < |es| {
          assert all[i] == es[i];
        }
      }
      forall i, j | 0 <= i < j < |all| ensures all[i].end <= all[j].start {
        assert all[i] == es[i];
        if j < |es| {
          assert all[j] == es[j];
        } else {
          assert all[j] == e.value && e.value.start == last.start;
          assert es[i].end <= last.start;
        }
      }
    }
  }

  /** One more site adds its edit, if any, at the end, and counts towards `AnyMatched`. */
  lemma EditsOfStep(remotes: seq<Remote>, sites: seq<ImportSite>, i: nat)
    requires i < |sites|
    ensures var e := SiteEdit(remotes, sites[i]);
      EditsOf(remotes, sites[..i + 1]) == EditsOf(remotes, sites[..i]) + if e.Some? then [e.value] else []
    ensures AnyMatched(remotes, sites[..i + 1]) <==> AnyMatched(remotes, sites[..i]) || SiteMatched(remotes, sites[i])
  {
    assert sites[..i + 1][..i] == sites[..i] && sites[..i + 1][i] == sites[i];
  }

  /** Sites none of which is edited give no edits. */
  lemma {:induction false} EditsOfNone(remotes: seq<Remote>, sites: seq<ImportSite>)
    requires forall i :: 0 <= i < |sites| ==> SiteEdit(remotes, sites[i]).None?
    ensures EditsOf(remotes, sites) == []
  {
    if sites != [] {
      var init := sites[..|sites| - 1];
      assert forall j :: 0 <= j < |init| ==> init[j] == sites[j];
      EditsOfNone(remotes, init);
    }
  }

  /** An edited site's edit is among the walk's edits. */
  lemma {:induction false} EditsOfHas(remotes: seq<Remote>, sites: seq<ImportSite>, i: nat)
    requires i < |sites| && SiteEdit(remotes, sites[i]).Some?
    ensures SiteEdit(remotes, sites[i]).value in EditsOf(remotes, sites)
  {
    var init := sites[..|sites| - 1];
    if i < |sites| - 1 {
      assert init[i] == sites[i];
      EditsOfHas(remotes, init, i);
    }
  }

  /** Every edit of the walk is the edit of one of its sites. */
  lemma {:induction false} EditsOfFromSites(remotes: seq<Remote>, sites: seq<ImportSite>, k: nat)
    requires k < |EditsOf(remotes, sites)|
    ensures exists i :: 0 <= i < |sites| && SiteEdit(remotes, sites[i]) == Some(EditsOf(remotes, sites)[k])
  {
    var init, last := sites[..|sites| - 1], sites[|sites| - 1];
    var es, e := EditsOf(remotes, init), SiteEdit(remotes, last);
    assert EditsOf(remotes, sites) == es + if e.Some? then [e.value] else [];
    if k < |es| {
      EditsOfFromSites(remotes, init, k);
      var i :| 0 <= i < |init| && SiteEdit(remotes, init[i]) == Some(es[k]);
      assert init[i] == sites[i];
    } else {
      assert SiteEdit(remotes, sites[|sites| - 1]) == Some(EditsOf(remotes, sites)[k]);
    }
  }

  /**
   * What the walk's `enter` does at one site whose source value is a string
   * or nullish: the edit it records, if any, and whether it raises
   * `requiresRuntime`.
   */
  method VisitSite(remotes: seq<Remote>, site: ImportSite) returns (edit: Option<Edit>, matched: bool)
    requires !Throws(site)
    ensures edit == SiteEdit(remotes, site)
    ensures matched <==> SiteMatched(remotes, site)
  {
    edit, matched := None, false;
    if site.source.StringValue? && IndexOfFrom(site.source.value, "/", 0).Some? {
      var moduleId := site.source.value;
      var found := Find(remotes, moduleId);
      assert found == MatchedRemote(remotes, site);
      if found.Some? {
        var remote := remotes[found.value];
        var needWrap := remote.config.from == "vite";
        matched := true;
        var modName := ModName(remote.id, moduleId);
        match site.kind
        case ImportExpression =>
          edit := Some(Edit(site.start, site.end, DynamicImportText(remote.id, modName, needWrap), ""));
        case ImportDeclaration =>
          if |site.specifiers| > 0 {
            var afterImportName := VarName(moduleId);
            var appended := AppendBindings(site.specifiers, afterImportName);
            edit := Some(Edit(site.start, site.end, DeclarationText(afterImportName, remote.id, modName), appended));
          }
      }
    }
  }

  /**
   * The walk: collects the edits in document order and raises
   * `requiresRuntime` on any match, unless a site's source value has no
   * `indexOf`, where it throws.
   */
  method Walk(remotes: seq<Remote>, sites: seq<ImportSite>) returns (edits: seq<Edit>, requiresRuntime: bool, threw: bool)
    ensures threw <==> WalkThrows(sites)
    ensures !threw ==> edits == EditsOf(remotes, sites)
    ensures !threw ==> (requiresRuntime <==> AnyMatched(remotes, sites))
  {
    edits, requiresRuntime, threw := [], false, false;
    for i := 0 to |sites|
      invariant edits == EditsOf(remotes, sites[..i])
      invariant requiresRuntime <==> AnyMatched(remotes, sites[..i])
      invariant forall j :: 0 <= j < i ==> !Throws(sites[j])
    {
      if Throws(sites[i]) {
        threw := true;
        return;
      }
      EditsOfStep(remotes, sites, i);
      var edit, matched := VisitSite(remotes, sites[i]);
      if matched {
        requiresRuntime := true;
      }
      if edit.Some? {
        edits := edits + [edit.value];
      }
    }
    assert sites[..|sites|] == sites;
  }

  /** The rewritten module text, every declaration keeping its bindings. */
  function Rewritten(remotes: seq<Remote>, code: string, sites: seq<ImportSite>): string
    requires SitesFit(sites, |code|)
  {
    EditsOfFit(remotes, sites, |code|);
    (if AnyMatched(remotes, sites) then RuntimeImport else "") + Splice(code, EditsOf(remotes, sites))
  }

  /** Every rewritten site appears whole in the output: its replacement followed by its bindings. */
  lemma {:induction false} RewrittenKeepsEdits(remotes: seq<Remote>, code: string, sites: seq<ImportSite>, i: nat)
    requires SitesFit(sites, |code|) && i < |sites| && SiteEdit(remotes, sites[i]).Some?
    ensures var e := SiteEdit(remotes, sites[i]).value;
      Contains(Rewritten(remotes, code, sites), e.text + e.appended)
  {
    var e := SiteEdit(remotes, sites[i]).value;
    EditsOfFit(remotes, sites, |code|);
    EditsOfHas(remotes, sites, i);
    SpliceKeepsEdits(code, EditsOf(remotes, sites), 0, e);
    var prefix := if AnyMatched(remotes, sites) then RuntimeImport else "";
    ContainsInside(prefix, Splice(code, EditsOf(remotes, sites)), "", e.text + e.appended);
    assert prefix + Splice(code, EditsOf(remotes, sites)) + "" == Rewritten(remotes, code, sites);
  }

  /**
   * Every local name a rewritten declaration imports is bound in the
   * intended output: a default or namespace specifier by its own binding,
   * a named one by its entry in the destructuring.
   */
  lemma {:induction false} RewrittenBindsEvery(remotes: seq<Remote>, code: string, sites: seq<ImportSite>, i: nat, j: nat)
    requires SitesFit(sites, |code|) && i < |sites| && SiteEdit(remotes, sites[i]).Some?
    requires sites[i].kind == ImportDeclaration && j < |sites[i].specifiers|
    ensures var s, v := sites[i].specifiers[j], VarName(sites[i].source.value);
      Contains(Rewritten(remotes, code, sites),
               if s.NamedSpecifier? then NamedItem(s.imported, s.local) else SpecifierText(s, v))
  {
    var site := sites[i];
    var e := SiteEdit(remotes, site).value;
    var specs, v := site.specifiers, VarName(site.source.value);
    var s := specs[j];
    var pat := if s.NamedSpecifier? then NamedItem(s.imported, s.local) else SpecifierText(s, v);
    assert e.appended == Bindings(specs, v);
    RewrittenKeepsEdits(remotes, code, sites, i);
    BindingsBindEvery(specs, v, j);
    ContainsAfter(e.text, e.appended, pat);
    ContainsTransitive(Rewritten(remotes, code, sites), e.text + e.appended, pat);
  }

  /**
   * The module text as the hook is written: the same MagicString calls,
   * where an `overwrite` starting at a declaration's end erases the
   * bindings appended there.
   */
  function RewrittenAsWritten(remotes: seq<Remote>, code: string, sites: seq<ImportSite>): string
    requires SitesFit(sites, |code|)
  {
    EditsOfFit(remotes, sites, |code|);
    (if AnyMatched(remotes, sites) then RuntimeImport else "") + MagicSpliceFrom(code, EditsOf(remotes, sites), 0)
  }

  /** The output as written is the intended one whenever no two rewritten sites touch. */
  lemma {:induction false} RewrittenAsWrittenAgrees(remotes: seq<Remote>, code: string, sites: seq<ImportSite>)
    requires SitesFit(sites, |code|) && !Touching(EditsOf(remotes, sites))
    ensures RewrittenAsWritten(remotes, code, sites) == Rewritten(remotes, code, sites)
  {
    EditsOfFit(remotes, sites, |code|);
    MagicSpliceAgrees(code, EditsOf(remotes, sites), 0);
  }

  /** Text `x` inserted after the first `cut == |pre| + |h| + |t|` characters. */
  lemma {:induction false} InsertedAt(pre: string, h: string, t: string, x: string, b: string, c: string, d: string, cut: nat)
    requires cut == |pre| + |h| + |t|
    ensures cut <= |pre + (h + t + b + c + d)|
    ensures pre + (h + t + x + b + c + d)
         == (pre + (h + t + b + c + d))[..cut] + x + (pre + (h + t + b + c + d))[cut..]
  {
    var w := pre + (h + t + b + c + d);
    assert w[..cut] == pre + h + t;
    assert w[cut..] == b + c + d;
  }

  /** `actual` is `intended` with `lost`, which stood at index `cut`, missing. */
  predicate MissingAt(actual: string, intended: string, cut: nat, lost: string)
  {
    cut <= |actual| && intended == actual[..cut] + lost + actual[cut..]
  }

  /**
   * A walk whose edits are two touching ones: the output as written is the
   * intended output without the first edit's appended bindings.
   */
  lemma {:induction false} TouchingSitesLoseBindings(remotes: seq<Remote>, code: string, sites: seq<ImportSite>,
                                                    eA: Edit, eB: Edit, cut: nat)
    requires SitesFit(sites, |code|) && AnyMatched(remotes, sites)
    requires EditsOf(remotes, sites) == [eA, eB] && eA.end == eB.start
    requires cut == |RuntimeImport| + eA.start + |eA.text|
    ensures MissingAt(RewrittenAsWritten(remotes, code, sites), Rewritten(remotes, code, sites), cut, eA.appended)
  {
    RewrittenOfEdits(remotes, code, sites, [eA, eB]);
    assert [eA, eB][0] == eA && [eA, eB][1] == eB;
    TouchingSpliceLosesAppended(RuntimeImport, code, eA, eB);
  }

  /** Whatever comes in front, the as-written splice of two touching edits misses the first one's appended text. */
  lemma {:induction false} TouchingSpliceLosesAppended(pre: string, code: string, e1: Edit, e2: Edit)
    requires e1.start <= e1.end == e2.start <= e2.end <= |code|
    ensures EditsFit([e1, e2], 0, |code|)
    ensures MissingAt(pre + MagicSpliceFrom(code, [e1, e2], 0), pre + SpliceFrom(code, [e1, e2], 0),
                      |pre| + e1.start + |e1.text|, e1.appended)
  {
    TouchingEditsSplice(code, e1, e2);
    var head, tail := code[..e1.start], code[e2.end..];
    InsertedAt(pre, head, e1.text, e1.appended, e2.text, e2.appended, tail, |pre| + e1.start + |e1.text|);
  }

  /** Both outputs, once the walk's edits are known and something matched. */
  lemma {:induction false} RewrittenOfEdits(remotes: seq<Remote>, code: string, sites: seq<ImportSite>, edits: seq<Edit>)
    requires SitesFit(sites, |code|) && EditsOf(remotes, sites) == edits && AnyMatched(remotes, sites)
    ensures EditsFit(edits, 0, |code|)
    ensures Rewritten(remotes, code, sites) == RuntimeImport + SpliceFrom(code, edits, 0)
    ensures RewrittenAsWritten(remotes, code, sites) == RuntimeImport + MagicSpliceFrom(code, edits, 0)
  {
    EditsOfFit(remotes, sites, |code|);
  }

  /** The edits of two sites: the first one's, then the second one's. */
  lemma {:induction false} EditsOfTwo(remotes: seq<Remote>, x: ImportSite, y: ImportSite)
    ensures var ex := SiteEdit(remotes, x); EditsOf(remotes, [x]) == if ex.Some? then [ex.value] else []
    ensures var ey := SiteEdit(remotes, y); EditsOf(remotes, [x, y]) == EditsOf(remotes, [x]) + if ey.Some? then [ey.value] else []
  {
    assert [x, y][..1] == [x] && [x][..0] == [];
    assert [x, y][1] == y && [x][0] == x;
  }

  /** Two edited sites give their two edits, and the runtime import. */
  lemma {:induction false} PairEdits(remotes: seq<Remote>, siteA: ImportSite, siteB: ImportSite, eA: Edit, eB: Edit)
    requires SiteEdit(remotes, siteA) == Some(eA) && SiteEdit(remotes, siteB) == Some(eB)
    ensures EditsOf(remotes, [siteA, siteB]) == [eA, eB]
    ensures AnyMatched(remotes, [siteA, siteB])
  {
    EditsOfTwo(remotes, siteA, siteB);
    assert EditsOf(remotes, [siteA]) == [eA];
    assert EditsOf(remotes, [siteA, siteB]) == [eA] + [eB];
    assert [siteA, siteB][0] == siteA;
    assert SiteMatched(remotes, [siteA, siteB][0]);
  }

  /** A declaration with one default specifier, on a source the remote matches: its edit. */
  lemma {:induction false} DefaultDeclarationEdit(remote: Remote, source: string, a: string, start: nat, end: nat)
    requires Matches(remote.id, source)
    ensures var v := VarName(source);
      SiteEdit([remote], ImportSite(ImportDeclaration, StringValue(source), [DefaultSpecifier(a)], start, end))
      == Some(Edit(start, end, DeclarationText(v, remote.id, ModName(remote.id, source)), DefaultBinding(a, v)))
  {
    var site := ImportSite(ImportDeclaration, StringValue(source), [DefaultSpecifier(a)], start, end);
    assert OccursAt("/", source, |remote.id|);
    assert IndexOfFrom(source, "/", 0).Some?;
    assert [remote][0] == remote;
    assert MatchedRemote([remote], site) == Some(0);
    var v := VarName(source);
    assert [DefaultSpecifier(a)][..0] == [];
    assert SpecifierTexts([DefaultSpecifier(a)], v) == SpecifierTexts([], v) + DefaultBinding(a, v);
    assert NamedItems([DefaultSpecifier(a)]) == NamedItems([]) + [];
    assert Bindings([DefaultSpecifier(a)], v) == DefaultBinding(a, v);
  }

  /** Two declarations with one default specifier each, covering `[0, mid)` and `[mid, n)`. */
  function AdjacentDefaultSites(sourceA: string, sourceB: string, a: string, b: string, mid: nat, n: nat): seq<ImportSite>
  {
    [ImportSite(ImportDeclaration, StringValue(sourceA), [DefaultSpecifier(a)], 0, mid),
     ImportSite(ImportDeclaration, StringValue(sourceB), [DefaultSpecifier(b)], mid, n)]
  }

  /**
   * The input `import a from 'app2/A';import b from 'app2/B'` with remote
   * `app2` configured, in general form: two declarations with a default
   * specifier each, on sources one remote matches, written with no gap.
   * As written, the output lacks exactly the first one's `let a = ...`
   * binding, which the rewrite keeps.
   */
  lemma {:induction false} AdjacentDeclarationsLoseBinding(remote: Remote, code: string, sourceA: string, sourceB: string,
                                        a: string, b: string, mid: nat, cut: nat)
    requires Matches(remote.id, sourceA) && Matches(remote.id, sourceB) && mid <= |code|
    requires cut == |RuntimeImport| + |DeclarationText(VarName(sourceA), remote.id, ModName(remote.id, sourceA))|
    ensures SitesFit(AdjacentDefaultSites(sourceA, sourceB, a, b, mid, |code|), |code|)
    ensures var sites := AdjacentDefaultSites(sourceA, sourceB, a, b, mid, |code|);
      MissingAt(RewrittenAsWritten([remote], code, sites), Rewritten([remote], code, sites),
                cut, DefaultBinding(a, VarName(sourceA)))
  {
    var siteA := ImportSite(ImportDeclaration, StringValue(sourceA), [DefaultSpecifier(a)], 0, mid);
    var siteB := ImportSite(ImportDeclaration, StringValue(sourceB), [DefaultSpecifier(b)], mid, |code|);
    var sites := AdjacentDefaultSites(sourceA, sourceB, a, b, mid, |code|);
    assert sites == [siteA, siteB];
    assert SitesFit(sites, |code|);
    DefaultDeclarationEdit(remote, sourceA, a, 0, mid);
    DefaultDeclarationEdit(remote, sourceB, b, mid, |code|);
    var vA := VarName(sourceA);
    var eA := Edit(0, mid, DeclarationText(vA, remote.id, ModName(remote.id, sourceA)), DefaultBinding(a, vA));
    var eB := SiteEdit([remote], siteB).value;
    PairEdits([remote], siteA, siteB, eA, eB);
    TouchingSitesLoseBindings([remote], code, sites, eA, eB, cut);
  }

  /** How the host's rewrite of an ordinary module ends. */
  datatype ModuleResult =
    | Unparsed              // parsing failed: logged, and `transform` answers `null`
    | WalkError             // the walk threw
    | Output(text: string)  // the rewritten text

  /**
   * The host's rewrite of an ordinary module. `parsed` is the parser's
   * output, `None` when parsing failed.
   */
  method TransformModule(remotes: seq<Remote>, code: string, parsed: Option<seq<ImportSite>>)
    returns (out: ModuleResult)
    requires parsed.Some? ==> SitesFit(parsed.value, |code|)
    ensures parsed.None? ==> out == Unparsed
    ensures parsed.Some? && WalkThrows(parsed.value) ==> out == WalkError
    ensures parsed.Some? && !WalkThrows(parsed.value) ==> out == Output(Rewritten(remotes, code, parsed.value))
  {
    if parsed.None? {
      return Unparsed;
    }
    var sites := parsed.value;
    var edits, requiresRuntime, threw := Walk(remotes, sites);
    if threw {
      return WalkError;
    }
    EditsOfFit(remotes, sites, |code|);
    var text := Splice(code, edits);
    if requiresRuntime {
      text := RuntimeImport + text;
    }
    out := Output(text);
  }

  /** A module without a matching import comes out byte for byte as it went in. */
  lemma NoMatchUnchanged(remotes: seq<Remote>, code: string, sites: seq<ImportSite>)
    requires SitesFit(sites, |code|)
    requires !AnyMatched(remotes, sites)
    ensures Rewritten(remotes, code, sites) == code
  {
    EditsOfNone(remotes, sites);
    assert Splice(code, []) == code[0..] == code;
  }

  /**
   * An import nested in the argument of a dynamic import whose source is
   * not a literal: the walk meets the outer site first and skips it, and
   * the inner one is rewritten in place.
   */
  lemma {:induction false} NestedImportRewritten(remotes: seq<Remote>, code: string, outer: ImportSite, inner: ImportSite)
    requires outer.source.NoValue? && outer.start <= inner.start <= inner.end <= outer.end <= |code|
    requires SiteEdit(remotes, inner).Some?
    ensures SitesFit([outer, inner], |code|)
    ensures var e := SiteEdit(remotes, inner).value;
      Rewritten(remotes, code, [outer, inner]) == RuntimeImport + (code[..inner.start] + e.text + e.appended + code[inner.end..])
  {
    var sites := [outer, inner];
    var e := SiteEdit(remotes, inner).value;
    NestedEdits(remotes, outer, inner, |code|);
    RewrittenOfEdits(remotes, code, sites, [e]);
    SpliceOne(code, e, 0);
    assert code[0..inner.start] == code[..inner.start];
  }

  /** The outer site of a nested pair contributes no edit and does not constrain the inner one. */
  lemma {:induction false} NestedEdits(remotes: seq<Remote>, outer: ImportSite, inner: ImportSite, n: nat)
    requires outer.source.NoValue? && outer.start <= inner.start <= inner.end <= outer.end <= n
    requires SiteEdit(remotes, inner).Some?
    ensures SitesFit([outer, inner], n)
    ensures EditsOf(remotes, [outer, inner]) == [SiteEdit(remotes, inner).value]
    ensures AnyMatched(remotes, [outer, inner])
  {
    NestedSitesFit(outer, inner, n);
    assert SiteEdit(remotes, outer).None?;
    EditsOfTwo(remotes, outer, inner);
    assert [outer, inner][1] == inner;
    assert SiteMatched(remotes, [outer, inner][1]);
  }

  /** A site whose source is not a literal may hold another one. */
  lemma {:induction false} NestedSitesFit(outer: ImportSite, inner: ImportSite, n: nat)
    requires outer.source.NoValue? && outer.start <= inner.start <= inner.end <= outer.end <= n
    ensures SitesFit([outer, inner], n)
  {
    var sites := [outer, inner];
    assert sites[0] == outer && sites[1] == inner && !HasLiteralSource(outer);
  }

  /**
   * Matched declarations without specifiers change no text but still cause
   * the runtime import: when they are the only matches, the output is the
   * input with the runtime import in front.
   */
  lemma SpecifierlessMatchesOnlyPrepend(remotes: seq<Remote>, code: string, sites: seq<ImportSite>)
    requires SitesFit(sites, |code|)
    requires AnyMatched(remotes, sites)
    requires forall i :: 0 <= i < |sites| && SiteMatched(remotes, sites[i]) ==>
               sites[i].kind == ImportDeclaration && sites[i].specifiers == []
    ensures Rewritten(remotes, code, sites) == RuntimeImport + code
  {
    EditsOfNone(remotes, sites);
    assert Splice(code, []) == code[0..] == code;
  }
}
