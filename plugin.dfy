/**
 * The production remote plugin: its configuration (builder flags, remotes,
 * shared and exposed entries) and its `transform` hook, which emits each
 * shared and exposed chunk once, fills in the virtual modules it owns, and
 * rewrites remote imports in every other module of a host build.
 */
module ProdRemote {
  import opened Wrappers
  import opened Text
  import opened Remotes
  import opened ImportRewrite
  import opened Chunks

  /** The ids of the virtual modules whose code `transform` fills in. */
  const FnImportId := "\0virtual:__federation_fn_import"
  const SemverId := "\0virtual:__federation_lib_semver"
  const RemoteEntryHelperId := "\0virtual:__remoteEntryHelper__"
  const FederationId := "\0virtual:__federation__"

  /**
   * A shared dependency's options. An unset or empty `requiredVersion` is
   * written `""` (both are falsy where it is read); `importFlag` is the
   * `import` option.
   */
  datatype SharedConfig = SharedConfig(
    id: Option<string>, root: Option<seq<string>>, version: string, requiredVersion: string, importFlag: bool)

  /** An entry of the shared list: the package name and its options. */
  datatype SharedEntry = SharedEntry(name: string, config: SharedConfig)

  /** An entry of the exposes list: the exposed name and the module it points at. */
  datatype ExposeEntry = ExposeEntry(name: string, id: string)

  /** What `transform` returns. */
  datatype TransformResult =
    | Skip                     // `undefined`: the module is left as it is
    | Code(text: string)       // a string of code
    | CodeNoMap(text: string)  // `{code, map: null}`
    | NullResult               // `null`: the module could not be parsed
    | Thrown                   // the hook threw: `getFileName` was asked about a chunk never emitted,
                               // or the import walk called `indexOf` on a non-string literal

  /** Every reference is set. */
  predicate AllSet(refs: seq<Option<nat>>)
  {
    forall k :: 0 <= k < |refs| ==> refs[k].Some?
  }

  /** Every reference is set, and one that was set in `before` is unchanged. */
  predicate SetKeeping(refs: seq<Option<nat>>, before: seq<Option<nat>>)
  {
    |refs| == |before| && forall j :: 0 <= j < |refs| ==> refs[j].Some? && (before[j].Some? ==> refs[j] == before[j])
  }

  /**
   * A loop over entries whose references were `before` has reached index
   * `i`: every entry before `i` now has a reference, the one it started
   * with if it had one, and the entries from `i` on are untouched.
   */
  predicate ProgressOf(refs: seq<Option<nat>>, before: seq<Option<nat>>, i: nat)
  {
    && |refs| == |before|
    && (forall j :: 0 <= j < i && j < |refs| ==> refs[j].Some? && (before[j].Some? ==> refs[j] == before[j]))
    && (forall j :: i <= j < |refs| ==> refs[j] == before[j])
  }

  /** Every reference is set and names one of `requests`: `getFileName` answers for each. */
  predicate Resolved(refs: seq<Option<nat>>, requests: seq<ChunkRequest>)
  {
    forall i :: 0 <= i < |refs| ==> refs[i].Some? && refs[i].value < |requests|
  }

  /** The file names the bundler gives back for `refs`. */
  function FileNames(refs: seq<Option<nat>>, requests: seq<ChunkRequest>): (names: seq<string>)
    requires Resolved(refs, requests)
    ensures |names| == |refs|
  {
    seq(|refs|, i requires 0 <= i < |refs| => requests[refs[i].value].fileName)
  }

  lemma ProgressDone(refs: seq<Option<nat>>, before: seq<Option<nat>>)
    requires ProgressOf(refs, before, |refs|)
    ensures SetKeeping(refs, before) && AllSet(refs)
  {
  }

  lemma AppendAssociative<T>(a: seq<T>, b: seq<T>, c: seq<T>)
    ensures (a + b) + c == a + (b + c)
  {
  }

  /**
   * The plugin as `transform` sees it. The `emitFile` option that the hook
   * stores on each shared and exposed entry is kept, in entry order, in
   * `sharedRefs` and `exposeRefs`.
   */
  class Plugin {
    const builder: BuilderInfo
    const remotes: seq<Remote>
    const shared: seq<SharedEntry>
    const exposes: seq<ExposeEntry>
    const emitter: ChunkEmitter
    /** `removeNonLetter` of the plugin's utilities (not part of this model). */
    const removeNonLetter: string -> string
    /** `getModuleMarker('shareScope')` and `getModuleMarker('moduleMap', 'var')`. */
    const shareScopeMarker: string
    const moduleMapMarker: string
    var sharedRefs: seq<Option<nat>>
    var exposeRefs: seq<Option<nat>>

    /** The chunk requested for a shared entry. */
    function SharedRequest(e: SharedEntry): ChunkRequest
    {
      var san := removeNonLetter(e.name);
      ChunkRequest(e.config.id.GetOr(e.name), SharedFileName(builder.assetsDir, e.config.root, san), None)
    }

    /** The chunk requested for an exposed entry. */
    function ExposeRequest(e: ExposeEntry): ChunkRequest
    {
      var san := removeNonLetter(e.name);
      ChunkRequest(e.id, ExposeFileName(builder.assetsDir, san), Some(ExposeChunkName(san)))
    }

    /** A set reference names `request` among the emitter's requests. */
    predicate RefOk(ref: Option<nat>, request: ChunkRequest)
      reads emitter
    {
      ref.Some? ==> ref.value < |emitter.requests| && emitter.requests[ref.value] == request
    }

    /** Two references that are not both the same set reference. */
    static predicate Apart(r1: Option<nat>, r2: Option<nat>)
    {
      r1.Some? ==> r1 != r2
    }

    /**
     * Every entry has its reference slot; every set reference names the
     * request made for its own entry; and no two entries hold the same
     * reference.
     */
    ghost predicate Valid()
      reads this, emitter
    {
      && |sharedRefs| == |shared| && |exposeRefs| == |exposes|
      && (forall i :: 0 <= i < |shared| ==> RefOk(sharedRefs[i], SharedRequest(shared[i])))
      && (forall i :: 0 <= i < |exposes| ==> RefOk(exposeRefs[i], ExposeRequest(exposes[i])))
      && (forall i, j :: 0 <= i < j < |shared| ==> Apart(sharedRefs[i], sharedRefs[j]))
      && (forall i, j :: 0 <= i < j < |exposes| ==> Apart(exposeRefs[i], exposeRefs[j]))
      && (forall i, j :: 0 <= i < |shared| && 0 <= j < |exposes| ==> Apart(sharedRefs[i], exposeRefs[j]))
    }

    /** The plugin as configured: no chunk emitted yet. */
    constructor (builder: BuilderInfo, remotes: seq<Remote>, shared: seq<SharedEntry>, exposes: seq<ExposeEntry>,
                 removeNonLetter: string -> string, shareScopeMarker: string, moduleMapMarker: string)
      ensures Valid() && fresh(emitter) && emitter.requests == []
      ensures this.builder == builder && this.remotes == remotes && this.shared == shared && this.exposes == exposes
      ensures this.removeNonLetter == removeNonLetter
      ensures this.shareScopeMarker == shareScopeMarker && this.moduleMapMarker == moduleMapMarker
      ensures |sharedRefs| == |shared| && forall i :: 0 <= i < |shared| ==> sharedRefs[i].None?
      ensures |exposeRefs| == |exposes| && forall i :: 0 <= i < |exposes| ==> exposeRefs[i].None?
    {
      this.builder, this.remotes, this.shared, this.exposes := builder, remotes, shared, exposes;
      this.removeNonLetter := removeNonLetter;
      this.shareScopeMarker, this.moduleMapMarker := shareScopeMarker, moduleMapMarker;
      sharedRefs := seq(|shared|, _ => None);
      exposeRefs := seq(|exposes|, _ => None);
      emitter := new ChunkEmitter();
    }

    // ----- Emitting each chunk once -----

    /** The requests made for the shared entries whose references in `refs` are unset, in entry order. */
    function SharedPending(refs: seq<Option<nat>>): seq<ChunkRequest>
      requires |refs| <= |shared|
    {
      if refs == [] then []
      else
        var k := |refs| - 1;
        SharedPending(refs[..k]) + if refs[k].None? then [SharedRequest(shared[k])] else []
    }

    function ExposePending(refs: seq<Option<nat>>): seq<ChunkRequest>
      requires |refs| <= |exposes|
    {
      if refs == [] then []
      else
        var k := |refs| - 1;
        ExposePending(refs[..k]) + if refs[k].None? then [ExposeRequest(exposes[k])] else []
    }

    /** Once every reference is set, nothing is pending. */
    lemma {:induction false} SharedPendingOfSet(refs: seq<Option<nat>>)
      requires |refs| <= |shared| && AllSet(refs)
      ensures SharedPending(refs) == []
    {
      if refs != [] {
        SharedPendingOfSet(refs[..|refs| - 1]);
      }
    }

    lemma {:induction false} ExposePendingOfSet(refs: seq<Option<nat>>)
      requires |refs| <= |exposes| && AllSet(refs)
      ensures ExposePending(refs) == []
    {
      if refs != [] {
        ExposePendingOfSet(refs[..|refs| - 1]);
      }
    }

    /** Every entry is pending when no reference is set: the first call requests every chunk, in entry order. */
    lemma {:induction false} SharedPendingOfUnset(refs: seq<Option<nat>>)
      requires |refs| <= |shared| && forall k :: 0 <= k < |refs| ==> refs[k].None?
      ensures SharedPending(refs) == seq(|refs|, k requires 0 <= k < |refs| => SharedRequest(shared[k]))
    {
      if refs != [] {
        SharedPendingOfUnset(refs[..|refs| - 1]);
      }
    }

    lemma {:induction false} ExposePendingOfUnset(refs: seq<Option<nat>>)
      requires |refs| <= |exposes| && forall k :: 0 <= k < |refs| ==> refs[k].None?
      ensures ExposePending(refs) == seq(|refs|, k requires 0 <= k < |refs| => ExposeRequest(exposes[k]))
    {
      if refs != [] {
        ExposePendingOfUnset(refs[..|refs| - 1]);
      }
    }

    lemma SharedPendingStep(refs: seq<Option<nat>>, i: nat)
      requires i < |refs| <= |shared|
      ensures SharedPending(refs[..i + 1])
           == SharedPending(refs[..i]) + if refs[i].None? then [SharedRequest(shared[i])] else []
    {
      assert refs[..i + 1][..i] == refs[..i];
    }

    lemma ExposePendingStep(refs: seq<Option<nat>>, i: nat)
      requires i < |refs| <= |exposes|
      ensures ExposePending(refs[..i + 1])
           == ExposePending(refs[..i]) + if refs[i].None? then [ExposeRequest(exposes[i])] else []
    {
      assert refs[..i + 1][..i] == refs[..i];
    }

    /** `sharedInfo[1].emitFile = this.emitFile(...)` for an entry with no reference: the new reference is fresh. */
    method RequestSharedChunk(i: nat)
      requires Valid() && i < |shared| && sharedRefs[i].None?
      modifies this, emitter
      ensures Valid()
      ensures emitter.requests == old(emitter.requests) + [SharedRequest(shared[i])]
      ensures sharedRefs == old(sharedRefs)[i := Some(|old(emitter.requests)|)]
      ensures exposeRefs == old(exposeRefs)
    {
      var ref := emitter.EmitFile(SharedRequest(shared[i]));
      sharedRefs := sharedRefs[i := Some(ref)];
    }

    /** `expose[1].emitFile = this.emitFile(...)` for an entry with no reference. */
    method RequestExposeChunk(i: nat)
      requires Valid() && i < |exposes| && exposeRefs[i].None?
      modifies this, emitter
      ensures Valid()
      ensures emitter.requests == old(emitter.requests) + [ExposeRequest(exposes[i])]
      ensures exposeRefs == old(exposeRefs)[i := Some(|old(emitter.requests)|)]
      ensures sharedRefs == old(sharedRefs)
    {
      var ref := emitter.EmitFile(ExposeRequest(exposes[i]));
      exposeRefs := exposeRefs[i := Some(ref)];
    }

    /** One iteration of the loop over the shared entries: entry `i` gets a chunk if it has no reference. */
    method EmitSharedStep(i: nat, ghost before: seq<Option<nat>>, ghost start: seq<ChunkRequest>)
      requires Valid() && i < |shared| && |before| == |shared|
      requires emitter.requests == start + SharedPending(before[..i])
      requires ProgressOf(sharedRefs, before, i)
      modifies this, emitter
      ensures Valid()
      ensures emitter.requests == start + SharedPending(before[..i + 1])
      ensures ProgressOf(sharedRefs, before, i + 1)
      ensures exposeRefs == old(exposeRefs)
    {
      SharedPendingStep(before, i);
      if sharedRefs[i].None? {
        RequestSharedChunk(i);
      }
    }

    /**
     * The loop over the shared entries: a chunk is requested for each entry
     * whose reference is unset, and only for those; set references stay.
     */
    method EmitSharedChunks()
      requires Valid()
      modifies this, emitter
      ensures Valid()
      ensures emitter.requests == old(emitter.requests) + SharedPending(old(sharedRefs))
      ensures SetKeeping(sharedRefs, old(sharedRefs))
      ensures exposeRefs == old(exposeRefs)
    {
      ghost var before, start := sharedRefs, emitter.requests;
      for i := 0 to |shared|
        invariant Valid()
        invariant emitter.requests == start + SharedPending(before[..i])
        invariant ProgressOf(sharedRefs, before, i)
        invariant exposeRefs == old(exposeRefs)
      {
        EmitSharedStep(i, before, start);
      }
      assert before[..|shared|] == before;
      ProgressDone(sharedRefs, before);
    }

    /** One iteration of the loop over the exposed entries: entry `i` gets a chunk if it has no reference. */
    method EmitExposeStep(i: nat, ghost before: seq<Option<nat>>, ghost start: seq<ChunkRequest>)
      requires Valid() && i < |exposes| && |before| == |exposes|
      requires emitter.requests == start + ExposePending(before[..i])
      requires ProgressOf(exposeRefs, before, i)
      modifies this, emitter
      ensures Valid()
      ensures emitter.requests == start + ExposePending(before[..i + 1])
      ensures ProgressOf(exposeRefs, before, i + 1)
      ensures sharedRefs == old(sharedRefs)
    {
      ExposePendingStep(before, i);
      if exposeRefs[i].None? {
        RequestExposeChunk(i);
      }
    }

    /** The loop over the exposed entries, with the same emit-once rule. */
    method EmitExposeChunks()
      requires Valid()
      modifies this, emitter
      ensures Valid()
      ensures emitter.requests == old(emitter.requests) + ExposePending(old(exposeRefs))
      ensures SetKeeping(exposeRefs, old(exposeRefs))
      ensures sharedRefs == old(sharedRefs)
    {
      ghost var before, start := exposeRefs, emitter.requests;
      for i := 0 to |exposes|
        invariant Valid()
        invariant emitter.requests == start + ExposePending(before[..i])
        invariant ProgressOf(exposeRefs, before, i)
        invariant sharedRefs == old(sharedRefs)
      {
        EmitExposeStep(i, before, start);
      }
      assert before[..|exposes|] == before;
      ProgressDone(exposeRefs, before);
    }

    // ----- The code that refers to emitted chunks -----

    /** Every shared entry has a reference the bundler knows. */
    predicate SharedResolved()
      reads this, emitter
    {
      |sharedRefs| == |shared| && Resolved(sharedRefs, emitter.requests)
    }

    predicate ExposesResolved()
      reads this, emitter
    {
      |exposeRefs| == |exposes| && Resolved(exposeRefs, emitter.requests)
    }

    /** `getFileName(emitFile)` for every shared entry. */
    function SharedFileNames(): (names: seq<string>)
      requires SharedResolved()
      reads this, emitter
      ensures |names| == |shared|
      ensures forall i :: 0 <= i < |shared| ==> Some(names[i]) == emitter.GetFileName(sharedRefs[i])
    {
      FileNames(sharedRefs, emitter.requests)
    }

    function ExposeFileNames(): (names: seq<string>)
      requires ExposesResolved()
      reads this, emitter
      ensures |names| == |exposes|
      ensures forall i :: 0 <= i < |exposes| ==> Some(names[i]) == emitter.GetFileName(exposeRefs[i])
    {
      FileNames(exposeRefs, emitter.requests)
    }

    /** The raw names of the exposed entries. */
    function ExposeNames(): (names: seq<string>)
      ensures |names| == |exposes| && forall i :: 0 <= i < |exposes| ==> names[i] == exposes[i].name
    {
      seq(|exposes|, i requires 0 <= i < |exposes| => exposes[i].name)
    }

    /** The `moduleMap` property of shared entry `i`, given its chunk's file name. */
    function ModuleMapEntryOf(i: nat, fileName: string): string
      requires i < |shared|
    {
      var e := shared[i];
      ModuleMapEntry(removeNonLetter(e.name), ModuleMapPath(e.config.root, fileName),
                     e.config.importFlag, e.config.requiredVersion)
    }

    /** The `moduleMap` object literal: one property per shared entry, comma-separated. */
    function ModuleMapObject(fileNames: seq<string>): string
      requires |fileNames| == |shared|
    {
      "{" + Join(seq(|shared|, i requires 0 <= i < |shared| => ModuleMapEntryOf(i, fileNames[i])), ",") + "}"
    }

    /** The `shareScope` entry of shared entry `i`, given its chunk's file name. */
    function ShareScopeEntryOf(i: nat, fileName: string): string
      requires i < |shared|
    {
      var e := shared[i];
      ShareScopeEntry(removeNonLetter(e.name), e.config.version, ShareScopePath(fileName))
    }

    /** The `shareScope` entries, comma-separated. */
    function ShareScopeCode(fileNames: seq<string>): string
      requires |fileNames| == |shared|
    {
      Join(seq(|shared|, i requires 0 <= i < |shared| => ShareScopeEntryOf(i, fileNames[i])), ",")
    }

    /** The virtual modules `transform` answers for in this build, as the flags select them. */
    predicate Handled(id: string)
    {
      || (builder.isShared && (id == FnImportId || id == SemverId))
      || (builder.isRemote && id == RemoteEntryHelperId)
      || (builder.isHost && id == FederationId)
    }

    /** Whether this call reaches the loop over the exposed entries. */
    predicate EmitsExposes(id: string)
    {
      builder.isRemote && !(builder.isShared && (id == FnImportId || id == SemverId))
    }

    /** The requests one `transform` call makes, given the references it starts from. */
    function Emissions(id: string, sharedBefore: seq<Option<nat>>, exposeBefore: seq<Option<nat>>): seq<ChunkRequest>
      requires |sharedBefore| <= |shared| && |exposeBefore| <= |exposes|
    {
      (if builder.isShared then SharedPending(sharedBefore) else [])
      + (if EmitsExposes(id) then ExposePending(exposeBefore) else [])
    }

    /** In a valid state, an entry whose reference is set resolves to a file name. */
    lemma ResolvedWhenSet()
      requires Valid()
      ensures AllSet(sharedRefs) ==> SharedResolved()
      ensures AllSet(exposeRefs) ==> ExposesResolved()
    {
    }

    /**
     * The two emission loops of one `transform` call: the shared loop in a
     * shared build, and the exposed loop when the call gets past the shared
     * virtual modules in a remote build.
     */
    method EmitChunks(id: string)
      requires Valid()
      modifies this, emitter
      ensures Valid()
      ensures emitter.requests == old(emitter.requests) + Emissions(id, old(sharedRefs), old(exposeRefs))
      ensures if builder.isShared then SetKeeping(sharedRefs, old(sharedRefs)) else sharedRefs == old(sharedRefs)
      ensures if EmitsExposes(id) then SetKeeping(exposeRefs, old(exposeRefs)) else exposeRefs == old(exposeRefs)
    {
      ghost var start := emitter.requests;
      ghost var sharedPart := if builder.isShared then SharedPending(sharedRefs) else [];
      ghost var exposePart := if EmitsExposes(id) then ExposePending(exposeRefs) else [];
      assert Emissions(id, sharedRefs, exposeRefs) == sharedPart + exposePart;
      AppendAssociative(start, sharedPart, exposePart);
      if builder.isShared {
        EmitSharedChunks();
      }
      if EmitsExposes(id) {
        EmitExposeChunks();
      }
    }

    /**
     * The `transform` hook. `parsed` is what parsing `code` gives (`None`
     * when it fails); `satisfySource` is the text of `satisfy.js`, which the
     * hook reads from disk. The emission loops run first, as far as the call
     * reaches them; the answer uses the references they leave.
     */
    method Transform(code: string, id: string, parsed: Option<seq<ImportSite>>, satisfySource: string)
      returns (r: TransformResult)
      requires Valid()
      requires parsed.Some? ==> SitesFit(parsed.value, |code|)
      modifies this, emitter
      ensures Valid()
      ensures emitter.requests == old(emitter.requests) + Emissions(id, old(sharedRefs), old(exposeRefs))
      ensures if builder.isShared then SetKeeping(sharedRefs, old(sharedRefs)) else sharedRefs == old(sharedRefs)
      ensures if EmitsExposes(id) then SetKeeping(exposeRefs, old(exposeRefs)) else exposeRefs == old(exposeRefs)
      ensures builder.isShared && id == FnImportId ==>
                SharedResolved() && r == Code(ReplaceFirst(code, moduleMapMarker, ModuleMapObject(SharedFileNames())))
      ensures builder.isShared && id == SemverId ==> r == Code(satisfySource)
      ensures builder.isRemote && id == RemoteEntryHelperId ==>
                ExposesResolved() && r == Code(FillAll(code, ExposeNames(), ExposeFileNames()))
      ensures builder.isHost && id == FederationId && !SharedResolved() ==> r == Thrown
      ensures builder.isHost && id == FederationId && SharedResolved() ==>
                r == Code(ReplaceFirst(code, shareScopeMarker, ShareScopeCode(SharedFileNames())))
      ensures !Handled(id) && builder.isHost ==>
                r == if parsed.None? then NullResult
                     else if WalkThrows(parsed.value) then Thrown
                     else CodeNoMap(Rewritten(remotes, code, parsed.value))
      ensures !Handled(id) && !builder.isHost ==> r == Skip
    {
      EmitChunks(id);
      ResolvedWhenSet();
      if builder.isShared && id == FnImportId {
        return Code(ReplaceFirst(code, moduleMapMarker, ModuleMapObject(SharedFileNames())));
      }
      if builder.isShared && id == SemverId {
        return Code(satisfySource);
      }
      if builder.isRemote && id == RemoteEntryHelperId {
        var filled := FillExposePlaceholders(code, ExposeNames(), ExposeFileNames());
        return Code(filled);
      }
      if builder.isHost {
        if id == FederationId {
          if !SharedResolved() {
            return Thrown;
          }
          return Code(ReplaceFirst(code, shareScopeMarker, ShareScopeCode(SharedFileNames())));
        }
        var out := TransformModule(remotes, code, parsed);
        match out
        case Unparsed => return NullResult;
        case WalkError => return Thrown;
        case Output(text) => return CodeNoMap(text);
      }
      return Skip;
    }

    /** Once the loops have set every reference they reach, a later call of the same kind emits nothing. */
    lemma NothingPendingOnceSet(id: string)
      requires |sharedRefs| == |shared| && |exposeRefs| == |exposes|
      requires builder.isShared ==> AllSet(sharedRefs)
      requires EmitsExposes(id) ==> AllSet(exposeRefs)
      ensures Emissions(id, sharedRefs, exposeRefs) == []
    {
      if builder.isShared {
        SharedPendingOfSet(sharedRefs);
      }
      if EmitsExposes(id) {
        ExposePendingOfSet(exposeRefs);
      }
    }

    /**
     * A set reference resolves to the file name requested for its entry, and
     * the entry's `moduleMap` property imports that chunk by its path below
     * the assets directory.
     */
    lemma ModuleMapImportsEmittedChunk(i: nat)
      requires Valid() && i < |shared| && sharedRefs[i].Some?
      requires '/' !in removeNonLetter(shared[i].name)
      ensures emitter.GetFileName(sharedRefs[i]) == Some(SharedRequest(shared[i]).fileName)
      ensures var e, f := shared[i], SharedRequest(shared[i]).fileName;
        |AssetsPrefix(builder.assetsDir)| <= |f|
        && ModuleMapEntryOf(i, f)
           == ModuleMapEntry(removeNonLetter(e.name), "./" + f[|AssetsPrefix(builder.assetsDir)|..],
                             e.config.importFlag, e.config.requiredVersion)
    {
      assert RefOk(sharedRefs[i], SharedRequest(shared[i]));
      ModuleMapPathFindsChunk(builder.assetsDir, shared[i].config.root, removeNonLetter(shared[i].name));
    }

    /** The `moduleMap` object has a property for every shared entry. */
    lemma ModuleMapListsEvery(fileNames: seq<string>, i: nat)
      requires |fileNames| == |shared| && i < |shared|
      ensures Contains(ModuleMapObject(fileNames), ModuleMapEntryOf(i, fileNames[i]))
    {
      var entries := seq(|shared|, k requires 0 <= k < |shared| => ModuleMapEntryOf(k, fileNames[k]));
      JoinHasPart(entries, ",", i);
      ContainsInside("{", Join(entries, ","), "}", entries[i]);
    }

    /** The `shareScope` code has an entry for every shared entry. */
    lemma ShareScopeListsEvery(fileNames: seq<string>, i: nat)
      requires |fileNames| == |shared| && i < |shared|
      ensures Contains(ShareScopeCode(fileNames), ShareScopeEntryOf(i, fileNames[i]))
    {
      var entries := seq(|shared|, k requires 0 <= k < |shared| => ShareScopeEntryOf(k, fileNames[k]));
      JoinHasPart(entries, ",", i);
    }
  }

  /**
   * Emit-once: after a first `transform` call, a second call whose id
   * reaches no loop the first did not reach requests no further chunk, so
   * the two calls together emit what the first one did.
   */
  method TransformTwice(p: Plugin, code1: string, id1: string, parsed1: Option<seq<ImportSite>>,
                        code2: string, id2: string, parsed2: Option<seq<ImportSite>>, satisfySource: string)
    returns (first: TransformResult, second: TransformResult)
    requires p.Valid()
    requires parsed1.Some? ==> SitesFit(parsed1.value, |code1|)
    requires parsed2.Some? ==> SitesFit(parsed2.value, |code2|)
    requires p.EmitsExposes(id2) ==> p.EmitsExposes(id1)
    modifies p, p.emitter
    ensures p.Valid()
    ensures p.emitter.requests == old(p.emitter.requests) + p.Emissions(id1, old(p.sharedRefs), old(p.exposeRefs))
  {
    first := p.Transform(code1, id1, parsed1, satisfySource);
    ghost var requests := p.emitter.requests;
    p.NothingPendingOnceSet(id2);
    second := p.Transform(code2, id2, parsed2, satisfySource);
    assert p.emitter.requests == requests + [];
  }
}
