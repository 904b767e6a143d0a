/**
 * The chunks the plugin asks the bundler to emit for shared and exposed
 * modules, the file names it gives them, and the generated code that
 * refers to them: the shared `moduleMap`, the `shareScope` entries and the
 * `${__federation_expose_<name>}` placeholders of the remote entry.
 */
module Chunks {
  import opened Wrappers
  import opened Text

  /** The build's role flags and its assets directory (empty when unset). */
  datatype BuilderInfo = BuilderInfo(isShared: bool, isRemote: bool, isHost: bool, assetsDir: string)

  /** The arguments of one `emitFile({type: 'chunk', preserveSignature: 'allow-extension', ...})` call. */
  datatype ChunkRequest = ChunkRequest(id: string, fileName: string, name: Option<string>)

  /**
   * The bundler's file-emission service. A reference is the position of its
   * request, so each call returns a reference no earlier call returned.
   */
  class ChunkEmitter {
    var requests: seq<ChunkRequest>

    constructor ()
      ensures requests == []
    {
      requests := [];
    }

    method EmitFile(request: ChunkRequest) returns (ref: nat)
      modifies this
      ensures requests == old(requests) + [request]
      ensures ref == |old(requests)| && requests[ref] == request
    {
      ref := |requests|;
      requests := requests + [request];
    }

    /** `getFileName(ref)`: the requested file name; `None` where the bundler throws (no such reference). */
    function GetFileName(ref: Option<nat>): Option<string>
      reads this
    {
      if ref.Some? && ref.value < |requests| then Some(requests[ref.value].fileName) else None
    }
  }

  // ----- File names -----

  /** `assetsDir + '/'` when an assets directory is set. */
  function AssetsPrefix(assetsDir: string): string
  {
    if assetsDir != "" then assetsDir + "/" else ""
  }

  /** `root[0] + '/'` when `root` is set; an empty array is truthy and gives `undefined/`. */
  function RootPrefix(root: Option<seq<string>>): string
  {
    match root
    case None => ""
    case Some(r) => (if |r| > 0 then r[0] else "undefined") + "/"
  }

  function SharedLeaf(san: string): string
  {
    "__federation_shared_" + san + ".js"
  }

  /** The chunk name of an exposed module. */
  function ExposeChunkName(san: string): string
  {
    "__federation_expose_" + san
  }

  /** `[assetsDir/][root[0]/]__federation_shared_<san>.js`. */
  function SharedFileName(assetsDir: string, root: Option<seq<string>>, san: string): string
  {
    AssetsPrefix(assetsDir) + RootPrefix(root) + SharedLeaf(san)
  }

  /** `[assetsDir/]__federation_expose_<san>.js`. */
  function ExposeFileName(assetsDir: string, san: string): string
  {
    AssetsPrefix(assetsDir) + ExposeChunkName(san) + ".js"
  }

  lemma DirPrefixesEndInSlash(assetsDir: string, root: Option<seq<string>>)
    ensures var d := AssetsPrefix(assetsDir) + RootPrefix(root); d == [] || d[|d| - 1] == '/'
  {
  }

  lemma NoSlashInLeaves(san: string)
    requires '/' !in san
    ensures '/' !in SharedLeaf(san)
    ensures '/' !in ExposeChunkName(san) + ".js"
  {
    assert SharedLeaf(san) == "__federation_shared_" + san + ".js";
    assert ExposeChunkName(san) + ".js" == "__federation_expose_" + san + ".js";
  }

  /** The basename of a shared chunk's file is its leaf, whatever the directories in front. */
  lemma SharedFileBasename(assetsDir: string, root: Option<seq<string>>, san: string)
    requires '/' !in san
    ensures Basename(SharedFileName(assetsDir, root, san)) == SharedLeaf(san)
  {
    DirPrefixesEndInSlash(assetsDir, root);
    NoSlashInLeaves(san);
    BasenameAfterSlash(AssetsPrefix(assetsDir) + RootPrefix(root), SharedLeaf(san));
  }

  /** The basename of an exposed chunk's file is its chunk name plus `.js`. */
  lemma ExposeFileBasename(assetsDir: string, san: string)
    requires '/' !in san
    ensures Basename(ExposeFileName(assetsDir, san)) == ExposeChunkName(san) + ".js"
  {
    DirPrefixesEndInSlash(assetsDir, None);
    NoSlashInLeaves(san);
    assert ExposeFileName(assetsDir, san) == AssetsPrefix(assetsDir) + (ExposeChunkName(san) + ".js");
    BasenameAfterSlash(AssetsPrefix(assetsDir), ExposeChunkName(san) + ".js");
  }

  // ----- Generated code -----

  /** The path the shared `moduleMap` imports a shared chunk by: `./[root[0]/]<basename>`. */
  function ModuleMapPath(root: Option<seq<string>>, fileName: string): string
  {
    "./" + RootPrefix(root) + Basename(fileName)
  }

  /**
   * The `moduleMap` path is the chunk's own file name taken relative to
   * the assets directory, so the import finds the emitted chunk.
   */
  lemma ModuleMapPathFindsChunk(assetsDir: string, root: Option<seq<string>>, san: string)
    requires '/' !in san
    ensures var f := SharedFileName(assetsDir, root, san);
      |AssetsPrefix(assetsDir)| <= |f| && ModuleMapPath(root, f) == "./" + f[|AssetsPrefix(assetsDir)|..]
  {
    SharedFileBasename(assetsDir, root, san);
    var f := SharedFileName(assetsDir, root, san);
    assert f == AssetsPrefix(assetsDir) + (RootPrefix(root) + SharedLeaf(san));
  }

  /** One property of the `moduleMap` object: `'<san>':{get:..., import:<bool>[,requiredVersion:'<v>']}`. */
  function ModuleMapEntry(san: string, path: string, eager: bool, requiredVersion: string): string
  {
    "'" + san + "':{get:()=>()=>__federation_import('" + path + "'),import:" + BoolText(eager)
    + (if requiredVersion != "" then ",requiredVersion:'" + requiredVersion + "'" else "") + "}"
  }

  /** The path a `shareScope` entry loads a shared chunk by: `./<basename>`, with no root directory. */
  function ShareScopePath(fileName: string): string
  {
    "./" + Basename(fileName)
  }

  /**
   * Unlike the `moduleMap` path, the `shareScope` path is the chunk's file
   * name relative to the assets directory exactly when the entry has no `root`.
   */
  lemma ShareScopePathFindsChunkIffNoRoot(assetsDir: string, root: Option<seq<string>>, san: string)
    requires '/' !in san
    ensures var f := SharedFileName(assetsDir, root, san);
      |AssetsPrefix(assetsDir)| <= |f|
      && (ShareScopePath(f) == "./" + f[|AssetsPrefix(assetsDir)|..] <==> root.None?)
  {
    SharedFileBasename(assetsDir, root, san);
    var a, r, leaf := AssetsPrefix(assetsDir), RootPrefix(root), SharedLeaf(san);
    var f := SharedFileName(assetsDir, root, san);
    assert f == a + (r + leaf);
    assert f[|a|..] == r + leaf;
    assert ShareScopePath(f) == "./" + leaf;
    if root.Some? {
      assert |"./" + leaf| < |"./" + (r + leaf)|;
    } else {
      assert r + leaf == leaf;
    }
  }

  /** One entry of the `shareScope`: `'<san>':{'<version>':{get:()=>get('<path>'), loaded:1}}`. */
  function ShareScopeEntry(san: string, version: string, path: string): string
  {
    "'" + san + "':{'" + version + "':{get:()=>get('" + path + "'), loaded:1}}"
  }

  /** The placeholder the remote entry template holds for an exposed module, named by its raw name. */
  function Placeholder(name: string): string
  {
    "${__federation_expose_" + name + "}"
  }

  /** One iteration: the first placeholder of `name` becomes the relative path of its chunk. */
  function FillOne(code: string, name: string, fileName: string): string
  {
    ReplaceFirst(code, Placeholder(name), "./" + Basename(fileName))
  }

  /** The remote entry after replacing, in order, the first placeholder of each exposed module. */
  function FillAll(code: string, names: seq<string>, fileNames: seq<string>): string
    requires |names| == |fileNames|
  {
    if names == [] then code
    else
      var k := |names| - 1;
      FillOne(FillAll(code, names[..k], fileNames[..k]), names[k], fileNames[k])
  }

  /** The loop over the exposed modules that reassigns `code`. */
  method FillExposePlaceholders(code: string, names: seq<string>, fileNames: seq<string>) returns (filled: string)
    requires |names| == |fileNames|
    ensures filled == FillAll(code, names, fileNames)
  {
    filled := code;
    for i := 0 to |names|
      invariant filled == FillAll(code, names[..i], fileNames[..i])
    {
      assert names[..i + 1][..i] == names[..i];
      assert fileNames[..i + 1][..i] == fileNames[..i];
      filled := FillOne(filled, names[i], fileNames[i]);
    }
    assert names[..|names|] == names && fileNames[..|fileNames|] == fileNames;
  }

  /** A remote entry holding none of the placeholders comes out unchanged. */
  lemma {:induction false} FillAllWithoutPlaceholders(code: string, names: seq<string>, fileNames: seq<string>)
    requires |names| == |fileNames|
    requires forall k, j: nat :: 0 <= k < |names| ==> !OccursAt(Placeholder(names[k]), code, j)
    ensures FillAll(code, names, fileNames) == code
  {
    if names != [] {
      var k := |names| - 1;
      FillAllWithoutPlaceholders(code, names[..k], fileNames[..k]);
      assert forall j: nat :: !OccursAt(Placeholder(names[k]), code, j);
    }
  }

  /**
   * With one exposed module, its first placeholder is replaced by the
   * relative path of the chunk emitted for it.
   */
  lemma PlaceholderPointsAtChunk(pre: string, post: string, name: string, assetsDir: string, san: string)
    requires '/' !in san
    requires forall j: nat :: j < |pre| ==> !OccursAt(Placeholder(name), pre + Placeholder(name) + post, j)
    ensures FillAll(pre + Placeholder(name) + post, [name], [ExposeFileName(assetsDir, san)])
         == pre + ("./" + ExposeChunkName(san) + ".js") + post
  {
    var code := pre + Placeholder(name) + post;
    var f := ExposeFileName(assetsDir, san);
    var rep := "./" + ExposeChunkName(san) + ".js";
    assert FillAll(code, [name], [f]) == FillOne(code, name, f) by {
      assert [name][..0] == [] && [f][..0] == [];
    }
    assert FillOne(code, name, f) == ReplaceFirst(code, Placeholder(name), rep) by {
      ExposeFileBasename(assetsDir, san);
      assert "./" + Basename(f) == rep;
    }
    ReplaceFirstAt(pre, Placeholder(name), post, rep);
  }
}
