/** The bookkeeping of the render graph's `Graphics_Utils_State`: the
    two-way shader registry, the current graphics pipeline state and its
    setters, the pass-name table with its 1-based pass numbering, and the
    per-frame pass loop of `run_loop`.

    Vulkan enumerations are numeric codes (`nat`), floats are reals, and a
    pass keeps only its name and extent; the Vulkan objects behind it are
    not part of this model. Hash maps are Dafny maps; their reserved empty
    keys ("null" for names, 0 for ids) are never stored. */
module RenderGraph {

  /** The reserved empty key of the name-keyed tables. */
  const NullName: string := "null"

  /** `Graphics_Pipeline_State`: the key of the pipeline cache. Shader
      fields hold registry ids and `pass` a 1-based pass number; 0 means
      "not set". */
  datatype GraphicsPipelineState = GraphicsPipelineState(
    cullMode: nat, frontFace: nat, polygonMode: nat, lineWidth: real,
    enableDepthTest: bool, cmpOp: nat, enableDepthWrite: bool, maxDepth: real,
    topology: nat, ps: nat, vs: nat, pass: nat)

  /** The all-zero state the constructor `memset`s. */
  const DefaultState: GraphicsPipelineState :=
    GraphicsPipelineState(0, 0, 0, 0.0, false, 0, false, 0.0, 0, 0, 0, 0)

  /** What a render pass keeps in this model: the name it was created
      under and its extent. `Pass_Details::name` itself is never assigned
      by `create_render_pass` (it stays empty); `createdAs` is the name the
      pass table files the pass under. */
  datatype Pass = Pass(createdAs: string, width: nat, height: nat)

  // ---------------------------------------------------------------------
  // Table invariants

  /** The shader registry: `ids` (filename to id) and `names` (id to
      filename) are inverse to each other and the ids are exactly
      1 .. |ids|. */
  ghost predicate ShaderTables(ids: map<string, nat>, names: map<nat, string>) {
    && |names| == |ids|
    && (forall f :: f in ids ==> 1 <= ids[f] <= |ids| && ids[f] in names && names[ids[f]] == f)
    && (forall id :: id in names ==> names[id] in ids && ids[names[id]] == id)
  }

  /** Registering an unseen filename under the next id keeps the registry
      well formed. */
  lemma ShaderInsert(ids: map<string, nat>, names: map<nat, string>, f: string)
    requires ShaderTables(ids, names) && f !in ids
    ensures ShaderTables(ids[f := |ids| + 1], names[|ids| + 1 := f])
  {
    var id := |ids| + 1;
    forall j | j in names
      ensures j < id
    {
      assert ids[names[j]] == j;
    }
    assert |ids[f := id]| == id;
  }

  /** Distinct filenames have distinct ids, and no id is 0, so a nonzero
      shader field names exactly one registered shader. */
  lemma ShaderIdsDistinct(ids: map<string, nat>, names: map<nat, string>)
    requires ShaderTables(ids, names)
    ensures 0 !in names
    ensures forall f, g :: f in ids && g in ids && ids[f] == ids[g] ==> f == g
  {
    forall f, g | f in ids && g in ids && ids[f] == ids[g]
      ensures f == g
    {
      assert names[ids[f]] == f && names[ids[g]] == g;
    }
  }

  /** The pass table: each name maps to the 1-based position of the pass
      created under it, and pass k is listed under its creation name with
      number k + 1. */
  ghost predicate PassTable(table: map<string, nat>, passes: seq<Pass>) {
    && (forall name :: name in table ==> 1 <= table[name] <= |passes| && passes[table[name] - 1].createdAs == name)
    && (forall k :: 0 <= k < |passes| ==> passes[k].createdAs in table && table[passes[k].createdAs] == k + 1)
  }

  /** Appending a pass under a new name numbered `|passes|` after the
      append keeps the table well formed. */
  lemma PassInsert(table: map<string, nat>, passes: seq<Pass>, p: Pass)
    requires PassTable(table, passes) && p.createdAs !in table
    ensures PassTable(table[p.createdAs := |passes| + 1], passes + [p])
  {
    var table', passes' := table[p.createdAs := |passes| + 1], passes + [p];
    assert forall k :: 0 <= k < |passes| ==> passes'[k] == passes[k];
    assert passes'[|passes|] == p;
    assert forall name :: name in table' ==> 1 <= table'[name] <= |passes'| && passes'[table'[name] - 1].createdAs == name;
  }

  /** No two passes were created under the same name. */
  lemma PassNamesDistinct(table: map<string, nat>, passes: seq<Pass>)
    requires PassTable(table, passes)
    ensures forall k1, k2 :: 0 <= k1 < k2 < |passes| ==> passes[k1].createdAs != passes[k2].createdAs
  {
    forall k1, k2 | 0 <= k1 < k2 < |passes|
      ensures passes[k1].createdAs != passes[k2].createdAs
    {
      assert table[passes[k1].createdAs] != table[passes[k2].createdAs];
    }
  }

  // ---------------------------------------------------------------------
  // The state

  class GraphicsUtilsState {
    var shaderFilenames: map<nat, string>
    var shaderIds: map<string, nat>
    var passNameTable: map<string, nat>
    var passes: seq<Pass>
    var curGfxState: GraphicsPipelineState
    var curCs: nat

    /** The tables are well formed, never hold an empty key, and every
        nonzero shader or pass field of the graphics state names an entry.
        `curCs` is left out: the program never initialises it, so a fresh
        state may hold any value there. */
    ghost predicate Valid()
      reads this
    {
      && ShaderTables(shaderIds, shaderFilenames)
      && PassTable(passNameTable, passes)
      && NullName !in shaderIds && NullName !in passNameTable
      && (curGfxState.vs == 0 || curGfxState.vs in shaderFilenames)
      && (curGfxState.ps == 0 || curGfxState.ps in shaderFilenames)
      && curGfxState.pass <= |passes|
    }

    /** The constructor: empty tables and the all-zero pipeline state.
        `curCs` is not assigned, as `cur_cs` is never initialised. */
    constructor ()
      ensures Valid()
      ensures shaderFilenames == map[] && shaderIds == map[] && passNameTable == map[] && passes == []
      ensures curGfxState == DefaultState
    {
      shaderFilenames := map[];
      shaderIds := map[];
      passNameTable := map[];
      passes := [];
      curGfxState := DefaultState;
    }

    /** `_set_or_create_shader`: the id of `filename`, registering it under
        the next id (the registry's size plus one) in both directions when
        it is unseen; a known filename leaves both tables as they were. */
    method SetOrCreateShader(filename: string) returns (id: nat)
      requires Valid() && filename != NullName
      modifies this
      ensures Valid()
      ensures id >= 1 && filename in shaderIds && shaderIds[filename] == id && shaderFilenames[id] == filename
      ensures filename in old(shaderIds) ==>
        id == old(shaderIds)[filename] && shaderIds == old(shaderIds) && shaderFilenames == old(shaderFilenames)
      ensures filename !in old(shaderIds) ==>
        && id == |old(shaderIds)| + 1
        && shaderIds == old(shaderIds)[filename := id]
        && shaderFilenames == old(shaderFilenames)[id := filename]
      ensures passNameTable == old(passNameTable) && passes == old(passes)
      ensures curGfxState == old(curGfxState) && curCs == old(curCs)
    {
      if filename !in shaderIds {
        var next := |shaderIds| + 1;
        ShaderInsert(shaderIds, shaderFilenames, filename);
        shaderIds := shaderIds[filename := next];
        shaderFilenames := shaderFilenames[next := filename];
      }
      id := shaderIds[filename];
    }

    /** `VS_set_shader`: registers `filename` and makes it the vertex
        shader; nothing else of the pipeline state changes. */
    method VSSetShader(filename: string)
      requires Valid() && filename != NullName
      modifies this
      ensures Valid()
      ensures filename in shaderIds && curGfxState == old(curGfxState).(vs := shaderIds[filename])
      ensures curGfxState.vs != 0 && shaderFilenames[curGfxState.vs] == filename
      ensures shaderIds.Keys == old(shaderIds).Keys + {filename}
      ensures forall f :: f in old(shaderIds) ==> shaderIds[f] == old(shaderIds)[f]
      ensures passNameTable == old(passNameTable) && passes == old(passes) && curCs == old(curCs)
    {
      var id := SetOrCreateShader(filename);
      curGfxState := curGfxState.(vs := id);
    }

    /** `PS_set_shader`: registers `filename` and makes it the pixel
        shader; nothing else of the pipeline state changes. */
    method PSSetShader(filename: string)
      requires Valid() && filename != NullName
      modifies this
      ensures Valid()
      ensures filename in shaderIds && curGfxState == old(curGfxState).(ps := shaderIds[filename])
      ensures curGfxState.ps != 0 && shaderFilenames[curGfxState.ps] == filename
      ensures shaderIds.Keys == old(shaderIds).Keys + {filename}
      ensures forall f :: f in old(shaderIds) ==> shaderIds[f] == old(shaderIds)[f]
      ensures passNameTable == old(passNameTable) && passes == old(passes) && curCs == old(curCs)
    {
      var id := SetOrCreateShader(filename);
      curGfxState := curGfxState.(ps := id);
    }

    /** `CS_set_shader`: registers `filename` and makes it the current
        compute shader; the graphics pipeline state does not change. */
    method CSSetShader(filename: string)
      requires Valid() && filename != NullName
      modifies this
      ensures Valid()
      ensures filename in shaderIds && curCs == shaderIds[filename]
      ensures curCs != 0 && shaderFilenames[curCs] == filename
      ensures shaderIds.Keys == old(shaderIds).Keys + {filename}
      ensures forall f :: f in old(shaderIds) ==> shaderIds[f] == old(shaderIds)[f]
      ensures passNameTable == old(passNameTable) && passes == old(passes) && curGfxState == old(curGfxState)
    {
      curCs := SetOrCreateShader(filename);
    }

    /** `IA_set_topology`. */
    method IASetTopology(topology: nat)
      requires Valid()
      modifies this`curGfxState
      ensures Valid()
      ensures curGfxState == old(curGfxState).(topology := topology)
    {
      curGfxState := curGfxState.(topology := topology);
    }

    /** `IA_set_cull_mode`: the four rasterisation fields and no others. */
    method IASetCullMode(cullMode: nat, frontFace: nat, polygonMode: nat, lineWidth: real)
      requires Valid()
      modifies this`curGfxState
      ensures Valid()
      ensures curGfxState == old(curGfxState).(cullMode := cullMode, frontFace := frontFace,
                                               polygonMode := polygonMode, lineWidth := lineWidth)
    {
      curGfxState := curGfxState.(cullMode := cullMode, frontFace := frontFace,
                                  polygonMode := polygonMode, lineWidth := lineWidth);
    }

    /** `RS_set_depth_stencil_state`: the four depth fields and no others. */
    method RSSetDepthStencilState(enableDepthTest: bool, cmpOp: nat, enableDepthWrite: bool, maxDepth: real)
      requires Valid()
      modifies this`curGfxState
      ensures Valid()
      ensures curGfxState == old(curGfxState).(enableDepthTest := enableDepthTest, cmpOp := cmpOp,
                                               enableDepthWrite := enableDepthWrite, maxDepth := maxDepth)
    {
      curGfxState := curGfxState.(enableDepthTest := enableDepthTest, cmpOp := cmpOp,
                                  enableDepthWrite := enableDepthWrite, maxDepth := maxDepth);
    }

    /** `create_render_pass` (its table part): a known name returns its
        stored number and changes nothing; a new pass is appended and
        numbered by the pass count after the append, so numbers are
        1-based and pass `id` is `passes[id - 1]`. */
    method CreateRenderPass(name: string, width: nat, height: nat) returns (id: nat)
      requires Valid() && name != NullName
      modifies this`passes, this`passNameTable
      ensures Valid()
      ensures 1 <= id <= |passes| && passes[id - 1].createdAs == name && passNameTable[name] == id
      ensures name in old(passNameTable) ==>
        id == old(passNameTable)[name] && passes == old(passes) && passNameTable == old(passNameTable)
      ensures name !in old(passNameTable) ==>
        && passes == old(passes) + [Pass(name, width, height)]
        && id == |passes|
        && passNameTable == old(passNameTable)[name := id]
    {
      if name in passNameTable {
        id := passNameTable[name];
      } else {
        PassInsert(passNameTable, passes, Pass(name, width, height));
        passes := passes + [Pass(name, width, height)];
        id := |passes|;
        passNameTable := passNameTable[name := id];
        assert passes[id - 1].createdAs == name;
      }
    }

    /** The per-frame body of `run_loop`: each pass runs in order with the
        current pass number set to its 1-based position, which is the
        number the pass table gives its name; then the pipeline state is
        cleared. `seen[k]` is the pass number while pass k runs. */
    method PreTick() returns (seen: seq<nat>)
      requires Valid()
      modifies this`curGfxState
      ensures Valid()
      ensures |seen| == |passes|
      ensures forall k :: 0 <= k < |seen| ==> seen[k] == k + 1 && passNameTable[passes[k].createdAs] == seen[k]
      ensures curGfxState == DefaultState
    {
      seen := [];
      var i := 1;
      while i <= |passes|
        invariant 1 <= i <= |passes| + 1
        invariant Valid()
        invariant |seen| == i - 1
        invariant forall k :: 0 <= k < |seen| ==> seen[k] == k + 1
      {
        curGfxState := curGfxState.(pass := i);
        seen := seen + [curGfxState.pass];
        i := i + 1;
      }
      curGfxState := DefaultState;
    }

    /** The lookups `get_current_gfx_pipeline` makes once its three
        `ASSERT_PANIC`s pass are defined: both shader ids are registered
        and the pass number indexes `passes`. */
    lemma PipelineLookupsDefined()
      requires Valid()
      requires curGfxState.ps != 0 && curGfxState.vs != 0 && curGfxState.pass != 0
      ensures curGfxState.vs in shaderFilenames && curGfxState.ps in shaderFilenames
      ensures 0 <= curGfxState.pass - 1 < |passes|
      ensures shaderIds[shaderFilenames[curGfxState.vs]] == curGfxState.vs
    {
    }
  }
}
