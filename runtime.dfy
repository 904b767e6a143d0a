/**
 * The logic of the generated `__federation__` module that runs in the
 * host: the default-export interop helpers, the lazy `get` of a shared
 * module, and the per-remote `ensure` state (`inited`, `lib`) driven by
 * the loader callbacks. Script injection and dynamic `import(url)` are
 * I/O: a call that would start one is recorded by `loads`, and its
 * completion is the caller invoking the matching callback method.
 */
module Runtime {
  import opened Wrappers
  import opened Remotes

  /** The JavaScript values the helpers inspect. */
  datatype JsValue =
    | Undefined
    | Null
    | Bool(b: bool)
    | Num(n: int)
    | Str(s: string)
    | Object(props: map<string, JsValue>)

  predicate Truthy(v: JsValue)
  {
    match v
    case Undefined => false
    case Null => false
    case Bool(b) => b
    case Num(n) => n != 0
    case Str(s) => s != ""
    case Object(_) => true
  }

  predicate Nullish(v: JsValue)
  {
    v.Undefined? || v.Null?
  }

  /** `v?.[key]` for the keys read here: `undefined` on `undefined`, `null` and primitives. */
  function Get(v: JsValue, key: string): JsValue
  {
    if v.Object? && key in v.props then v.props[key] else Undefined
  }

  /** `__federation_method_unwrapDefault`: the default export of an ES-module-flagged module, else the module. */
  function UnwrapDefault(m: JsValue): (r: JsValue)
    ensures !m.Object? ==> r == m
    ensures r != m ==> Truthy(Get(m, "__esModule")) && r == Get(m, "default")
  {
    if Truthy(Get(m, "__esModule")) then Get(m, "default") else m
  }

  /** The envelope `{default: m, __esModule: true}`. */
  function Envelope(m: JsValue): JsValue
  {
    Object(map["default" := m, "__esModule" := Bool(true)])
  }

  /** `__federation_method_wrapDefault`: wrap `m` in an envelope when asked to and it has no truthy default. */
  function WrapDefault(m: JsValue, need: bool): (r: JsValue)
    ensures !need ==> r == m
    ensures r != m ==> Truthy(r) && Get(r, "default") == m && Truthy(Get(r, "__esModule"))
  {
    if !Truthy(Get(m, "default")) && need then Envelope(m) else m
  }

  /** Unwrapping undoes wrapping, for every module without a truthy default. */
  lemma UnwrapWrapRoundTrip(m: JsValue)
    requires !Truthy(Get(m, "default"))
    ensures UnwrapDefault(WrapDefault(m, true)) == m
  {
  }

  /** Wrapping changes a module exactly when asked to and the module has no truthy default. */
  lemma WrapChangesIff(m: JsValue, need: bool)
    ensures WrapDefault(m, need) != m <==> need && !Truthy(Get(m, "default"))
  {
    if need && !Truthy(Get(m, "default")) {
      assert Get(WrapDefault(m, need), "default") == m;
      assert Truthy(WrapDefault(m, need));
    }
  }

  /**
   * Wrapping twice is wrapping once exactly when the module itself is
   * truthy or already has a truthy default; a falsy module is wrapped again.
   */
  lemma WrapTwiceIff(m: JsValue)
    ensures WrapDefault(WrapDefault(m, true), true) == WrapDefault(m, true)
        <==> Truthy(m) || Truthy(Get(m, "default"))
  {
    if !Truthy(m) && !Truthy(Get(m, "default")) {
      var w := WrapDefault(m, true);
      assert w == Envelope(m);
      assert Get(w, "default") == m;
      assert WrapDefault(w, true) == Envelope(w);
      assert Get(Envelope(w), "default") == w;
      assert Truthy(w);
    }
  }

  /** The factory the shared-module `get(name)` resolves to yields `module?.default ?? module`. */
  function SharedModuleValue(m: JsValue): (r: JsValue)
    ensures !Nullish(Get(m, "default")) ==> r == Get(m, "default")
    ensures Nullish(Get(m, "default")) ==> r == m
  {
    var d := Get(m, "default");
    if !Nullish(d) then d else m
  }

  /**
   * The shared `get` undoes `wrapDefault` exactly for the modules that are
   * not nullish: the envelope's default is then the module itself, while a
   * nullish module leaves the envelope in place.
   */
  lemma SharedGetUndoesWrap(m: JsValue)
    requires !Truthy(Get(m, "default"))
    ensures SharedModuleValue(WrapDefault(m, true)) == m <==> !Nullish(m)
  {
    assert WrapDefault(m, true) == Envelope(m);
    assert Get(Envelope(m), "default") == m;
  }

  /**
   * On an `__esModule`-flagged module the shared `get` and `unwrapDefault`
   * agree exactly when the default export is not nullish.
   */
  lemma SharedGetAgreesOnFlagged(m: JsValue)
    requires Truthy(Get(m, "__esModule"))
    ensures SharedModuleValue(m) == UnwrapDefault(m) <==> !Nullish(Get(m, "default"))
  {
    if Nullish(Get(m, "default")) {
      assert m.Object? && UnwrapDefault(m) == Get(m, "default");
    }
  }

  /**
   * The shared `get` and `unwrapDefault` disagree on a module that has a
   * default property but no `__esModule` flag: the first takes the default,
   * the second the module.
   */
  lemma SharedGetVersusUnwrap(d: JsValue)
    requires !Nullish(d)
    ensures SharedModuleValue(Object(map["default" := d])) == d
    ensures UnwrapDefault(Object(map["default" := d])) == Object(map["default" := d])
  {
  }

  // ----- Remote containers and the per-remote state -----

  /** A remote's entry container: `get(name)` gives a factory for each exposed module. */
  datatype Container = Container(name: string, exposed: map<string, JsValue>)

  const ScriptTypes: seq<string> := ["var"]
  const ImportTypes: seq<string> := ["esm", "systemjs"]

  /**
   * The properties every object literal inherits from `Object.prototype`
   * (with `__proto__`, its accessor). `remotesMap[id]` finds one of them
   * for such an id even when no remote has it.
   */
  const ObjectPrototypeNames: set<string> := {
    "constructor", "hasOwnProperty", "isPrototypeOf", "propertyIsEnumerable", "toLocaleString",
    "toString", "valueOf", "__proto__", "__defineGetter__", "__defineSetter__",
    "__lookupGetter__", "__lookupSetter__"
  }

  /** What one call of `ensure` does. */
  datatype EnsureStep =
    | Cached(lib: Option<Container>)  // already initialised: resolves to the cached `lib`
    | ScriptRequested(url: string)    // a script tag for `url` was injected; `OnScriptLoad` completes it
    | ImportRequested(url: string)    // `import(url)` was issued; `OnImportLoad` completes it
    | NoLoader                        // a format in neither list, or none at all: resolves to `undefined`
    | UnknownRemote                   // `remotesMap[remoteId]` is `undefined`: the call throws

  /** How a loader callback ends. */
  datatype Settled =
    | Resolves(lib: Container)  // `resolve(remote.lib)`
    | Throws                    // the callback threw before resolving: the promise never settles

  /** A `remotesMap` entry together with the fields the runtime adds to it. */
  class RemoteRecord {
    const url: string
    const format: string
    const from: string
    var inited: bool
    var lib: Option<Container>
    /** The containers `init(shareScope)` was called on, in call order. */
    var initCalls: seq<Container>
    /** How many script tags were injected or module imports issued. */
    var loads: nat

    ghost predicate Valid()
      reads this
    {
      inited ==> lib.Some? && lib.value in initCalls
    }

    constructor (url: string, format: string, from: string)
      ensures Valid()
      ensures this.url == url && this.format == format && this.from == from
      ensures !inited && lib.None? && initCalls == [] && loads == 0
    {
      this.url, this.format, this.from := url, format, from;
      inited, lib, initCalls, loads := false, None, [], 0;
    }

    /** `__federation_method_ensure` for this remote, up to its first suspension point. */
    method Ensure() returns (step: EnsureStep)
      requires Valid()
      modifies this
      ensures Valid()
      ensures inited == old(inited) && lib == old(lib) && initCalls == old(initCalls)
      ensures old(inited) ==> step == Cached(lib) && unchanged(this)
      ensures !old(inited) && format in ScriptTypes ==> step == ScriptRequested(url) && loads == old(loads) + 1
      ensures (!old(inited) && format !in ScriptTypes && format in ImportTypes) ==>
                step == ImportRequested(url) && loads == old(loads) + 1
      ensures (!old(inited) && format !in ScriptTypes && format !in ImportTypes) ==>
                step == NoLoader && loads == old(loads)
    {
      if !inited {
        if format in ScriptTypes {
          loads := loads + 1;
          step := ScriptRequested(url);
        } else if format in ImportTypes {
          loads := loads + 1;
          step := ImportRequested(url);
        } else {
          step := NoLoader;
        }
      } else {
        step := Cached(lib);
      }
    }

    /**
     * The script tag's load callback, given the global the script defined
     * under the remote's id (`None` when it defined none). Only the first
     * completion initialises; a late one resolves to the cached `lib`.
     */
    method OnScriptLoad(global: Option<Container>) returns (res: Settled)
      requires Valid()
      modifies this
      ensures Valid()
      ensures loads == old(loads)
      ensures old(inited) ==> inited && lib == old(lib) && initCalls == old(initCalls) && res == Resolves(lib.value)
      ensures !old(inited) && global.Some? ==>
                inited && lib == global && initCalls == old(initCalls) + [global.value] && res == Resolves(global.value)
      ensures !old(inited) && global.None? ==>
                !inited && lib.None? && initCalls == old(initCalls) && res == Throws
    {
      if !inited {
        lib := global;
        if lib.None? {
          return Throws;
        }
        initCalls := initCalls + [lib.value];
        inited := true;
      }
      res := Resolves(lib.value);
    }

    /**
     * The continuation of `import(url)`, given the loaded module. The
     * first completion calls `init` on it twice (once through the local
     * name, once through `remote.lib`) before marking the remote initialised.
     */
    method OnImportLoad(loaded: Container) returns (res: Settled)
      requires Valid()
      modifies this
      ensures Valid()
      ensures loads == old(loads)
      ensures old(inited) ==> inited && lib == old(lib) && initCalls == old(initCalls) && res == Resolves(lib.value)
      ensures !old(inited) ==>
                inited && lib == Some(loaded) && initCalls == old(initCalls) + [loaded, loaded] && res == Resolves(loaded)
    {
      if !inited {
        initCalls := initCalls + [loaded];
        lib := Some(loaded);
        initCalls := initCalls + [lib.value];
        inited := true;
      }
      res := Resolves(lib.value);
    }
  }

  /** The runtime's `remotesMap`: one record per remote id of the generated literal. */
  class Federation {
    const remotesMap: map<string, RemoteRecord>

    /** Every id has a record of its own, and each record is valid. */
    ghost predicate Valid()
      reads this, remotesMap.Values
    {
      && (forall id :: id in remotesMap ==> remotesMap[id].Valid())
      && (forall i, j :: i in remotesMap && j in remotesMap && i != j ==> remotesMap[i] != remotesMap[j])
    }

    /** Evaluating the generated `remotesMap` literal: later duplicates of an id win. */
    constructor (remotes: seq<Remote>)
      ensures Valid()
      ensures remotesMap.Keys == RuntimeTable(remotes).Keys
      ensures forall i, j :: i in remotesMap && j in remotesMap && i != j ==> remotesMap[i] != remotesMap[j]
      ensures forall id :: id in remotesMap ==>
                var c := RuntimeTable(remotes)[id];
                && fresh(remotesMap[id])
                && remotesMap[id].url == EntryUrl(c) && remotesMap[id].format == c.format
                && remotesMap[id].from == c.from
                && !remotesMap[id].inited && remotesMap[id].lib.None?
                && remotesMap[id].initCalls == [] && remotesMap[id].loads == 0
    {
      var table := RuntimeTable(remotes);
      var m: map<string, RemoteRecord> := map[];
      var keys := table.Keys;
      while keys != {}
        invariant keys <= table.Keys
        invariant m.Keys == table.Keys - keys
        invariant forall i, j :: i in m && j in m && i != j ==> m[i] != m[j]
        invariant forall id :: id in m ==>
                    && fresh(m[id])
                    && m[id].url == EntryUrl(table[id]) && m[id].format == table[id].format
                    && m[id].from == table[id].from
                    && !m[id].inited && m[id].lib.None? && m[id].initCalls == [] && m[id].loads == 0
        decreases keys
      {
        var id :| id in keys;
        var c := table[id];
        var record := new RemoteRecord(EntryUrl(c), c.format, c.from);
        m := m[id := record];
        keys := keys - {id};
      }
      remotesMap := m;
    }

    /**
     * `__federation_method_ensure(remoteId)`. An id without a record throws
     * before anything else happens, unless it names an inherited property:
     * that value has neither `inited` nor a known `format`, so the call
     * resolves to `undefined`. Only the id's own record changes.
     */
    method Ensure(remoteId: string) returns (step: EnsureStep)
      requires Valid()
      modifies set id | id in remotesMap && id == remoteId :: remotesMap[id]
      ensures Valid()
      ensures remoteId !in remotesMap && remoteId !in ObjectPrototypeNames ==> step == UnknownRemote
      ensures remoteId !in remotesMap && remoteId in ObjectPrototypeNames ==> step == NoLoader
      ensures forall id :: id in remotesMap && id != remoteId ==> unchanged(remotesMap[id])
      ensures remoteId in remotesMap && old(remotesMap[remoteId].inited) ==>
                step == Cached(remotesMap[remoteId].lib) && unchanged(remotesMap[remoteId])
      ensures remoteId in remotesMap ==>
                var r := remotesMap[remoteId];
                r.inited == old(r.inited) && r.lib == old(r.lib) && r.initCalls == old(r.initCalls)
      ensures remoteId in remotesMap && !old(remotesMap[remoteId].inited) && remotesMap[remoteId].format in ScriptTypes ==>
                var r := remotesMap[remoteId];
                step == ScriptRequested(r.url) && r.loads == old(r.loads) + 1
      ensures remoteId in remotesMap && !old(remotesMap[remoteId].inited) && remotesMap[remoteId].format !in ScriptTypes
              && remotesMap[remoteId].format in ImportTypes ==>
                var r := remotesMap[remoteId];
                step == ImportRequested(r.url) && r.loads == old(r.loads) + 1
      ensures remoteId in remotesMap && !old(remotesMap[remoteId].inited) && remotesMap[remoteId].format !in ScriptTypes
              && remotesMap[remoteId].format !in ImportTypes ==>
                var r := remotesMap[remoteId];
                step == NoLoader && r.loads == old(r.loads)
    {
      if remoteId !in remotesMap {
        return if remoteId in ObjectPrototypeNames then NoLoader else UnknownRemote;
      }
      var record := remotesMap[remoteId];
      step := record.Ensure();
    }
  }
}
