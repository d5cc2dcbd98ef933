/**
 * `src/graphics_pipeline.cpp`: the factory that collects shader stages, vertex input,
 * input assembly and descriptor set layouts and turns them into a pipeline
 * description; and the pipeline object that keeps that description and can drop its
 * `VkPipeline` when the swapchain changes.
 */
module Pipelines {
  import opened Vk
  import opened VertexBuffers

  /** The shader module and entry-point name bound to one stage. */
  datatype ShaderRef = ShaderRef(shaderModule: Handle, name: string)

  /** `VkPipelineShaderStageCreateInfo`: stage bit, module and entry point. */
  datatype StageInfo = StageInfo(stage: nat, shaderModule: Handle, name: string)

  /**
   * What `create_pipeline` hands to `GraphicsPipeline::initialise`: the stage list
   * (`stageCount` is its length), the vertex input state, the input assembly state,
   * the layout's descriptor set layouts (`setLayoutCount` is their number) and the subpass.
   */
  datatype PipelineDescription = PipelineDescription(
    stages: seq<StageInfo>,
    stageCount: nat,
    bindings: seq<BindingDescription>,
    attributes: seq<AttributeDescription>,
    topology: nat,
    primitiveRestartEnable: bool,
    setLayoutCount: nat,
    setLayouts: seq<Handle>,
    subpass: nat)

  /** The least element of a non-empty set of stage bits. */
  ghost function MinOf(s: set<nat>): (m: nat)
    requires s != {}
    ensures m in s && forall x | x in s :: m <= x
    decreases s
  {
    var x :| x in s;
    if s == {x} then
      assert forall y | y in s :: y == x;
      x
    else
      var r := MinOf(s - {x});
      assert forall y | y in s :: y == x || y in s - {x};
      if x <= r then x else r
  }

  /** The elements of `s` in ascending order: the iteration order of a `std::map` keyed by them. */
  ghost function Ascending(s: set<nat>): (ks: seq<nat>)
    ensures |ks| == |s|
    ensures forall i | 0 <= i < |ks| :: ks[i] in s
    decreases s
  {
    if s == {} then [] else [MinOf(s)] + Ascending(s - {MinOf(s)})
  }

  /** Every element of `s` is listed. */
  lemma {:induction false} AscendingComplete(s: set<nat>)
    ensures forall k | k in s :: k in Ascending(s)
    decreases s
  {
    if s != {} {
      var m := MinOf(s);
      AscendingComplete(s - {m});
      assert Ascending(s) == [m] + Ascending(s - {m});
    }
  }

  /** The ascending listing is strictly increasing, so each stage appears exactly once. */
  lemma {:induction false} AscendingIncreasing(s: set<nat>)
    ensures forall i, j | 0 <= i < j < |Ascending(s)| :: Ascending(s)[i] < Ascending(s)[j]
    decreases s
  {
    if s != {} {
      var m := MinOf(s);
      var rest := Ascending(s - {m});
      AscendingIncreasing(s - {m});
      var ks := [m] + rest;
      assert Ascending(s) == ks;
      forall i, j | 0 <= i < j < |ks|
        ensures ks[i] < ks[j]
      {
        assert ks[j] == rest[j - 1];
        assert rest[j - 1] in s - {m};
        if i > 0 {
          assert ks[i] == rest[i - 1];
        }
      }
    }
  }

  /** A least element of `s` heads its ascending listing. */
  lemma AscendingFirst(s: set<nat>, x: nat)
    requires x in s && forall y | y in s :: x <= y
    ensures Ascending(s) == [x] + Ascending(s - {x})
  {
    var m := MinOf(s);
    assert m <= x && x <= m;
  }

  /** The stage records for the keys `ks` of `stages`, in that order. */
  function StagesFor(stages: map<nat, ShaderRef>, ks: seq<nat>): (infos: seq<StageInfo>)
    requires forall k | k in ks :: k in stages
    ensures |infos| == |ks|
    ensures forall i | 0 <= i < |ks| ::
      infos[i] == StageInfo(ks[i], stages[ks[i]].shaderModule, stages[ks[i]].name)
  {
    seq(|ks|, i requires 0 <= i < |ks| => StageInfo(ks[i], stages[ks[i]].shaderModule, stages[ks[i]].name))
  }

  lemma StagesForSnoc(stages: map<nat, ShaderRef>, ks: seq<nat>, k: nat)
    requires forall x | x in ks :: x in stages
    requires k in stages
    ensures StagesFor(stages, ks + [k]) == StagesFor(stages, ks) + [StageInfo(k, stages[k].shaderModule, stages[k].name)]
  {
  }

  /** `GraphicsPipeline`: the stored description, its layout and the pipeline handle. */
  class GraphicsPipeline {
    var description: Option<PipelineDescription>
    var layout: Handle
    var pipeline: Handle
    /** Every handle passed to `vkDestroyPipeline`, in order. */
    ghost var destroyed: seq<Handle>

    constructor ()
      ensures description == None && layout == NullHandle && pipeline == NullHandle && destroyed == []
    {
      description := None;
      layout := NullHandle;
      pipeline := NullHandle;
      destroyed := [];
    }

    /**
     * `initialise(device, swapchain, render_pass, pipeline_create_info, layout_create_info)`:
     * creates the layout (`createdLayout` is the outcome of `vkCreatePipelineLayout`) and
     * on success keeps a copy of the description.
     */
    method Initialise(desc: PipelineDescription, createdLayout: Option<Handle>) returns (ok: bool)
      modifies this
      ensures ok <==> createdLayout.Some?
      ensures ok ==> layout == createdLayout.value && description == Some(desc)
      ensures !ok ==> layout == old(layout) && description == old(description)
      ensures pipeline == old(pipeline) && destroyed == old(destroyed)
    {
      if createdLayout.None? {
        return false;
      }
      layout := createdLayout.value;
      description := Some(desc);
      return true;
    }

    /**
     * `invalidate()`: destroys and forgets the pipeline if there is one. A second call
     * finds a null handle and does nothing.
     */
    method Invalidate()
      modifies this
      ensures pipeline == NullHandle
      ensures old(pipeline) != NullHandle ==> destroyed == old(destroyed) + [old(pipeline)]
      ensures old(pipeline) == NullHandle ==> destroyed == old(destroyed)
      ensures description == old(description) && layout == old(layout)
    {
      if pipeline != NullHandle {
        destroyed := destroyed + [pipeline];
        pipeline := NullHandle;
      }
    }
  }

  /** `GraphicsPipelineFactory`. */
  class GraphicsPipelineFactory {
    var shaderStages: map<nat, ShaderRef>
    var primitiveTopology: nat
    var primitiveRestart: bool
    var vertexBindings: seq<BindingDescription>
    var vertexAttributes: seq<AttributeDescription>
    var descriptorSetLayouts: seq<Handle>
    var subpass: nat

    constructor ()
      ensures shaderStages == map[] && primitiveTopology == 0 && !primitiveRestart
      ensures vertexBindings == [] && vertexAttributes == [] && descriptorSetLayouts == []
      ensures subpass == 0
    {
      shaderStages := map[];
      primitiveTopology := 0;
      primitiveRestart := false;
      vertexBindings := [];
      vertexAttributes := [];
      descriptorSetLayouts := [];
      subpass := 0;
    }

    /** `initialise(device, swapchain, render_pass, subpass)`: the only state kept is the subpass. */
    method Initialise(subpass: nat)
      modifies this
      ensures this.subpass == subpass
      ensures shaderStages == old(shaderStages)
      ensures primitiveTopology == old(primitiveTopology) && primitiveRestart == old(primitiveRestart)
      ensures vertexBindings == old(vertexBindings) && vertexAttributes == old(vertexAttributes)
      ensures descriptorSetLayouts == old(descriptorSetLayouts)
    {
      this.subpass := subpass;
    }

    /**
     * `set_shader(stage, shader, name)`: with a module and a name the stage is bound to
     * them (replacing any earlier binding); with either one null the stage is unbound.
     */
    method SetShader(stage: nat, shader: Handle, name: Option<string>)
      modifies this
      ensures shader != NullHandle && name.Some? ==>
        shaderStages == old(shaderStages)[stage := ShaderRef(shader, name.value)]
      ensures shader == NullHandle || name.None? ==>
        shaderStages == old(shaderStages) - {stage}
      ensures primitiveTopology == old(primitiveTopology) && primitiveRestart == old(primitiveRestart)
      ensures vertexBindings == old(vertexBindings) && vertexAttributes == old(vertexAttributes)
      ensures descriptorSetLayouts == old(descriptorSetLayouts) && subpass == old(subpass)
    {
      if shader != NullHandle && name.Some? {
        shaderStages := shaderStages[stage := ShaderRef(shader, name.value)];
      } else {
        shaderStages := shaderStages - {stage};
      }
    }

    /** `set_input_assembly_state(topology, primitive_restart)`. */
    method SetInputAssemblyState(topology: nat, restart: bool)
      modifies this
      ensures primitiveTopology == topology && primitiveRestart == restart
      ensures shaderStages == old(shaderStages)
      ensures vertexBindings == old(vertexBindings) && vertexAttributes == old(vertexAttributes)
      ensures descriptorSetLayouts == old(descriptorSetLayouts) && subpass == old(subpass)
    {
      primitiveTopology := topology;
      primitiveRestart := restart;
    }

    /**
     * `set_vertex_decl(decl)`: `create_input_state` appends one binding numbered by the
     * previous binding count, with the vertex size as stride, and one attribute per
     * element on that binding.
     */
    method SetVertexDecl(decl: VertexDecl)
      modifies this
      ensures vertexBindings == old(vertexBindings) + [BindingDescription(ToUint32(|old(vertexBindings)|), DeclSize(decl) % Two32)]
      ensures vertexAttributes == old(vertexAttributes) + AttributesFor(ToUint32(|old(vertexBindings)|), decl)
      ensures shaderStages == old(shaderStages)
      ensures primitiveTopology == old(primitiveTopology) && primitiveRestart == old(primitiveRestart)
      ensures descriptorSetLayouts == old(descriptorSetLayouts) && subpass == old(subpass)
    {
      vertexBindings, vertexAttributes := AppendInputState(decl, vertexBindings, vertexAttributes);
    }

    /** `add_descriptor_set_layout(layout)`: appends. */
    method AddDescriptorSetLayout(layout: Handle)
      modifies this
      ensures descriptorSetLayouts == old(descriptorSetLayouts) + [layout]
      ensures shaderStages == old(shaderStages)
      ensures primitiveTopology == old(primitiveTopology) && primitiveRestart == old(primitiveRestart)
      ensures vertexBindings == old(vertexBindings) && vertexAttributes == old(vertexAttributes)
      ensures subpass == old(subpass)
    {
      descriptorSetLayouts := descriptorSetLayouts + [layout];
    }

    /**
     * The stage-list loop of `create_pipeline`: one record per bound stage, visited in
     * ascending stage order as `std::map` iterates.
     */
    method BuildStages() returns (infos: seq<StageInfo>)
      ensures infos == StagesFor(shaderStages, Ascending(shaderStages.Keys))
    {
      ghost var order: seq<nat> := [];
      var remaining := shaderStages.Keys;
      infos := [];
      while remaining != {}
        invariant remaining <= shaderStages.Keys
        invariant Ascending(shaderStages.Keys) == order + Ascending(remaining)
        invariant forall k | k in order :: k in shaderStages
        invariant infos == StagesFor(shaderStages, order)
        decreases remaining
      {
        ghost var m := MinOf(remaining);
        var stage :| stage in remaining && forall x | x in remaining :: stage <= x;
        AscendingFirst(remaining, stage);
        assert order + Ascending(remaining) == (order + [stage]) + Ascending(remaining - {stage});
        StagesForSnoc(shaderStages, order, stage);
        infos := infos + [StageInfo(stage, shaderStages[stage].shaderModule, shaderStages[stage].name)];
        order := order + [stage];
        remaining := remaining - {stage};
      }
      assert order + [] == order;
    }

    /**
     * `create_pipeline(pipeline)`: builds the description from the factory's state and
     * hands it to `pipeline.initialise`. The stage count is the number of bound stages,
     * the layout lists the added descriptor set layouts (a count of 0 when none were
     * added) and primitive restart is enabled exactly when it was requested.
     */
    method CreatePipeline(pipeline: GraphicsPipeline, createdLayout: Option<Handle>) returns (ok: bool, desc: PipelineDescription)
      modifies pipeline
      ensures desc.stages == StagesFor(shaderStages, Ascending(shaderStages.Keys))
      ensures desc.stageCount == |shaderStages|
      ensures desc.bindings == vertexBindings && desc.attributes == vertexAttributes
      ensures desc.topology == primitiveTopology
      ensures desc.primitiveRestartEnable == primitiveRestart
      ensures desc.setLayoutCount == |descriptorSetLayouts| && desc.setLayouts == descriptorSetLayouts
      ensures desc.subpass == subpass
      ensures ok <==> createdLayout.Some?
      ensures ok ==> pipeline.description == Some(desc) && pipeline.layout == createdLayout.value
      ensures !ok ==> pipeline.description == old(pipeline.description) && pipeline.layout == old(pipeline.layout)
      ensures pipeline.pipeline == old(pipeline.pipeline) && pipeline.destroyed == old(pipeline.destroyed)
    {
      var stages := BuildStages();
      var setLayoutCount := 0;
      if descriptorSetLayouts != [] {
        setLayoutCount := |descriptorSetLayouts|;
      }
      desc := PipelineDescription(stages, |stages|, vertexBindings, vertexAttributes, primitiveTopology,
                                  primitiveRestart, setLayoutCount, descriptorSetLayouts, subpass);
      ok := pipeline.Initialise(desc, createdLayout);
    }
  }
}
