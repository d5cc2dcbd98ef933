# vulkan_craft in Dafny

A model of the logic at the heart of vulkan_craft, a small voxel renderer written in
C++ on Vulkan, with proofs about it. The world is split into chunks of blocks. A
generator fills each chunk column by column from a noise height. A mesher turns every
visible block face into a textured quad. The renderer uploads each chunk's mesh into
one GPU allocation and draws it every frame. Around this pipeline sit small selection
and bookkeeping rules:

- a shader cache with reference counts;
- the first-fit choice of a memory type;
- the vertex-input layout of a pipeline;
- the choice of a queue family;
- the surface format, present mode, image count and composite alpha of a swapchain;
- the device chosen at start-up.

Every Vulkan call is an opaque outcome: a parameter saying whether it succeeded and
what it returned. Handles are natural numbers, with 0 as the null handle.

| file | module | models |
|---|---|---|
| `vk.dfy` | `Vk` | handles, `uint32_t`/`uint64_t` widths, `Option` |
| `voxel.dfy` | `Voxel` | `src/world.h`: block types, voxel index, chunk-map key |
| `culling.dfy` | `Culling` | `src/culling.cpp`: boxes, frustum planes, the cull loop |
| `meshes.dfy` | `Meshes` | `src/geometry.cpp` tables, `add_polygon`, `add_face` |
| `geometry.dfy` | `Geometry` | `src/geometry.cpp`: `Chunk` (mesher, height query) and `WorldGen` (generation, chunk map) |
| `shader_cache.dfy` | `ShaderCaching` | `src/shader_cache.cpp` |
| `vertex_buffer.dfy` | `VertexBuffers` | `src/vertex_buffer.cpp` and the shared input-state code of `src/graphics_pipeline.cpp` |
| `pipelines.dfy` | `Pipelines` | `src/graphics_pipeline.cpp` |
| `devices.dfy` | `Devices` | `src/vulkan_device.cpp` |
| `swapchain.dfy` | `Swapchains` | `src/vulkan_swapchain.cpp` |
| `rendering.dfy` | `Rendering` | `src/renderer.cpp` |

Code that updates state in place is modelled as classes with `modifies` clauses.
These are `Mesh`, `Chunk`, `WorldGen`, `ShaderCache`, `VertexBuffer`,
`GraphicsPipeline`, `GraphicsPipelineFactory`, `VulkanDevice`, `VulkanSwapchain` and
`Renderer`. Each method's `ensures` give its result and its new state, through a
specification function where the computation has one. The main results:

- The mesh `create_mesh` builds is exactly `VerticesOf`/`QuadIndices` of `MeshFaces()`,
  the faces listed in scan order.
- A face of a block is in that list iff the block is solid and its neighbour across the
  face is Air.
- Every index names one of the face's own four vertices, and every vertex lies in the
  chunk's box.
- Generation writes the depth-layered column of each height.
- `get_height` reads that height back, cut to the chunk.
- `get_chunk` and `generate_around` only add chunks, never change a stored one, and
  call `add_mesh` once per new chunk.

Details of the code as written that the model keeps:

- The West entry of `unit_cube_face_normals` (src/geometry.cpp:79-80) is (0, 1, 0), the
  Top normal, although the West face lies in the plane x = 0.
  `Meshes.WestNormalIsTopNormal`, `Meshes.WestNormalNotPerpendicular` and
  `Geometry.NormalsMatchNeighbours` state this.
- A column of height h gets Dirt exactly for `h - 8 < y < h - 1` (src/geometry.cpp:229-232):
  six layers under the Grass, with Stone from y = 1 up to h - 8 (`Geometry.ColumnBlock`).
- `generate_chunk` drops the result of `add_mesh` (src/geometry.cpp:244), so a chunk whose
  upload failed stays stored and is never uploaded again (`Geometry.WorldGen.GenerateChunk`).
- `set_from_matrix` leaves the six planes unnormalised (src/culling.cpp:16-21;
  `Culling.SetFromMatrix`).
- `draw_frame` calls `cull` for each mesh, but the `continue` under it is commented out
  (src/renderer.cpp:388-391), so every mesh is drawn (`Rendering.Renderer.DrawFrame`).

## Model

| member | source | states |
|---|---|---|
| Voxel.Ordinal | src/world.h:8-26 | the enumerators take values 0..15, and value 0 is exactly `Air` |
| Voxel.FromOrdinal | src/world.h:8-26 | every value below 16 is the value of an enumerator |
| Voxel.OrdinalRoundTrip | src/world.h:8-26 | an enumerator's value converts back to that enumerator |
| Voxel.OrdinalInjective | src/world.h:8-26 | distinct enumerators have distinct values |
| Voxel.VoxelIndex | src/world.h:37-40 | for in-range (x, y, z) the flat index is below 32 * 32 * 256, and x, z and y decode from it by mod/div |
| Voxel.VoxelIndexInjective | src/world.h:39 | distinct in-range coordinates have distinct flat indices |
| Voxel.Key | src/world.h:46 | the key is below 2^64; its high word is x's 32-bit pattern and its low word is z's |
| Voxel.KeyRoundTrip | src/world.h:46 | both `int32_t` coordinates are recovered from their key |
| Voxel.KeyInjective | src/world.h:46 | distinct `int32_t` pairs get distinct keys |
| Meshes.TextureTableShape | src/geometry.cpp:7-24 | the texture table has one six-entry row per block type, every layer below 30 |
| Meshes.TextureLayer | src/geometry.cpp:88 | the lookup `block_texture_layers[type][face]` is in range and below 30 |
| Meshes.FaceCorner | src/geometry.cpp:42-60 | every corner of every face is a corner of the unit cube |
| Meshes.FacePlane | src/geometry.cpp:42-81 | the corners of each face lie on that face's plane of the cube; gives each face's table normal |
| Meshes.NormalsOutwardExceptWest | src/geometry.cpp:63-81 | for the five faces other than West, the table normal is the outward unit normal of the face |
| Meshes.WestNormalIsTopNormal | src/geometry.cpp:79-80 | the West normal as written equals the Top normal (0, 1, 0) |
| Meshes.WestNormalNotPerpendicular | src/geometry.cpp:58-80 | the West normal is not perpendicular to the West face: two of its corners differ along it |
| Meshes.FaceVertices | src/geometry.cpp:83-95 | a face gives four vertices, each with the face's normal and texture coordinates (0,0), (0,1), (1,1), (1,0) on the face's texture layer |
| Meshes.FaceVerticesInBlock | src/geometry.cpp:86-93 | every vertex of a face lies in the unit cube of its block in world space |
| Meshes.Rebase | src/geometry.cpp:28-33 | `add_polygon` appends one index per input index, each a `uint32_t` value |
| Meshes.VerticesOf | src/geometry.cpp:35-38 | emitting n faces gives exactly 4n vertices |
| Meshes.QuadIndices | src/geometry.cpp:26-39 | emitting n faces gives exactly 6n indices |
| Meshes.VerticesOfAppend | src/geometry.cpp:35-38 | the vertices of two face lists emitted in turn are the two vertex lists concatenated |
| Meshes.VerticesOfAt | src/geometry.cpp:90-93 | vertex 4k + j of the mesh is corner j of face k |
| Meshes.QuadIndicesAt | src/geometry.cpp:28-33 | below 2^30 faces nothing wraps: index 6k + j is 4k + (0,1,2,0,2,3)[j] |
| Meshes.QuadIndicesInRange | src/geometry.cpp:28-33 | every index is below the vertex count 4n |
| Meshes.Mesh.AddPolygon | src/geometry.cpp:26-39 | appends the vertices, and the indices offset by the previous vertex count in `uint32_t`; earlier entries and the box are unchanged |
| Meshes.Mesh.AddFace | src/geometry.cpp:83-95 | appends the face's four vertices and its two triangles (0,1,2), (0,2,3) offset by the previous vertex count |
| Culling.SetFromCorners | src/culling.cpp:8-12 | extents are never negative; centre - extents is the componentwise minimum of the corners, centre + extents the maximum |
| Culling.SetFromCornersSymmetric | src/culling.cpp:8-12 | swapping the two corners gives the same box |
| Culling.CornersBoxContains | src/culling.cpp:8-12 | a point is in the box iff it lies between the two corners on every axis |
| Culling.SetFromMatrix | src/culling.cpp:14-22 | planes 2k and 2k+1 take row 3 minus and plus row k of the matrix (in glm's m[column][row] indexing), with the translation entry negated as the offset, unnormalised |
| Culling.PlanesBoundClipSpace | src/culling.cpp:14-22 | a point's signed distance to plane 2k is w - c_k, and to plane 2k+1 is w + c_k, in clip coordinates |
| Culling.InsideFrustumIffInClipVolume | src/culling.cpp:14-22 | a point is on the inner side of all six planes iff -w <= c_k <= w for k = 0, 1, 2 |
| Culling.Cull | src/culling.cpp:27-38 | culled iff some plane's test is negative; planes are tried in order, stopping at the first negative one, and all six are tried when none is |
| Geometry.NormalsMatchNeighbours | src/geometry.cpp:113-139 | a face's table normal points at the neighbour it is tested against iff the face is not West |
| Geometry.ChunkBox | src/geometry.cpp:145-149 | the mesh box runs from the chunk's world origin at height 0 to that corner plus (chunk_size, max_height, chunk_size) |
| Geometry.ColumnBlock | src/geometry.cpp:217-238 | in a column of height h: solid exactly for 0 <= y < h; Bedrock exactly at y = 0; Grass exactly at y = h - 1 above 0; Dirt exactly for h - 8 < y < h - 1; Stone exactly for 0 < y <= h - 8 |
| Geometry.Trunc | src/geometry.cpp:215 | `(int)` on a float rounds toward zero |
| Geometry.ColumnHeightRange | src/geometry.cpp:215 | for noise in [-1, 1] the column height lies in 33..95 |
| Geometry.Chunk.SetBlock | src/geometry.cpp:238 | the in-bounds block written takes the new type; every other block is unchanged, and an out-of-range write changes nothing |
| Geometry.Chunk.Clear | src/geometry.cpp:152-155 | every block becomes Air |
| Geometry.Chunk.CellFaces | src/geometry.cpp:113-139 | a block emits at most six faces |
| Geometry.Chunk.RowFaces | src/geometry.cpp:111-141 | a row of n blocks emits at most 6n faces |
| Geometry.Chunk.LayerFaces | src/geometry.cpp:109-142 | n rows of a layer emit at most 6 * chunk_size * n faces |
| Geometry.Chunk.ChunkFaces | src/geometry.cpp:107-143 | n layers emit at most 6 * chunk_size^2 * n faces |
| Geometry.Chunk.CellFacesEmitted | src/geometry.cpp:113-139 | every face listed for a block belongs to that block and is visible |
| Geometry.Chunk.RowFacesEmitted | src/geometry.cpp:111-141 | every face listed for a row lies in that row, within the scanned columns, and is visible |
| Geometry.Chunk.LayerFacesEmitted | src/geometry.cpp:109-142 | every face listed for a layer lies in that layer, within the scanned rows, and is visible |
| Geometry.Chunk.ChunkFacesEmitted | src/geometry.cpp:107-143 | every face listed for the first n layers lies below height n and is visible |
| Geometry.Chunk.InRow | src/geometry.cpp:111-141 | a face of a scanned block is in its row's face list |
| Geometry.Chunk.InLayer | src/geometry.cpp:109-142 | a face of a scanned row is in its layer's face list |
| Geometry.Chunk.InChunk | src/geometry.cpp:107-143 | a face of a scanned layer is in the chunk's face list |
| Geometry.Chunk.FaceEmittedIff | src/geometry.cpp:97-139 | the mesh holds face d of block (x, y, z) iff the block is solid and its neighbour across d is Air; every listed face is such a face |
| Geometry.Chunk.MeshFaceCount | src/geometry.cpp:107-143 | the vertex count of a chunk mesh stays below 2^32, so no index wraps |
| Geometry.Chunk.MeshLayout | src/geometry.cpp:26-39 | vertices 4k..4k+3 are the corners of face k, and indices 6k..6k+5 are its two triangles, each naming an existing vertex |
| Geometry.Chunk.MeshInsideBox | src/geometry.cpp:145-149 | every vertex of a chunk's mesh lies inside the box the mesh is given |
| Geometry.Chunk.EmitIf | src/geometry.cpp:116-119 | one visibility test appends its face exactly when the neighbour is transparent |
| Geometry.Chunk.EmitBlockFaces | src/geometry.cpp:113-139 | one block appends exactly its visible faces, in the order Top, Bottom, North, South, East, West |
| Geometry.Chunk.EmitRow | src/geometry.cpp:111-141 | a row appends the faces of its blocks in x order |
| Geometry.Chunk.EmitLayer | src/geometry.cpp:109-142 | a layer appends the faces of its rows in z order |
| Geometry.Chunk.CreateMesh | src/geometry.cpp:102-150 | the new mesh is exactly the mesh of the visible faces in scan order, whatever it held before, with the chunk's box |
| Geometry.Chunk.GetHeight | src/geometry.cpp:157-171 | the result lies in 0..max_height; it is 0 or one above a solid block, and everything from it up is Air |
| Geometry.Chunk.GeneratedHeight | src/geometry.cpp:157-171 | in a generated column the height query can only return the generated height, cut to 0..max_height |
| Geometry.WorldToChunk | src/geometry.cpp:180-185 | splits the floor of a world coordinate into a chunk coordinate and an offset 0 <= b < chunk_size |
| Geometry.RowCoveredStep | src/geometry.cpp:254-257 | a covered row stays covered when the map only grows, and grows by the chunk just fetched |
| Geometry.BlockCoveredStep | src/geometry.cpp:252-258 | covered rows stay covered when the map only grows, and one more covered row extends them |
| Geometry.WorldGen.InsertGenerated | src/geometry.cpp:202-206 | storing a generated chunk under its own key keeps every stored chunk generated for its key |
| Geometry.WorldGen.FillColumn | src/geometry.cpp:212-239 | one column is layered by its height; the columns before it stay filled and the rest stay Air |
| Geometry.WorldGen.FillRow | src/geometry.cpp:210-240 | one row of columns is layered |
| Geometry.WorldGen.FillChunk | src/geometry.cpp:202-241 | a fresh, cleared chunk at (cx, cz) ends with every column layered by its noise height |
| Geometry.WorldGen.BuildChunk | src/geometry.cpp:202-243 | the built chunk is generated for (cx, cz) and holds the mesh of its visible faces with the chunk's box |
| Geometry.WorldGen.StoreChunk | src/geometry.cpp:202-206 | the chunk map gains exactly the new key, and every stored chunk stays generated for its key |
| Geometry.WorldGen.GenerateChunk | src/geometry.cpp:200-245 | a new generated, meshed chunk is stored under (cx, cz); `add_mesh` is called once, and the renderer gains its mesh only if the upload succeeds; the renderer's frame state is untouched |
| Geometry.WorldGen.GetChunk | src/geometry.cpp:187-198 | an existing chunk is returned with nothing generated or uploaded; a missing one is generated, stored and handed to `add_mesh` once, and the renderer gains its mesh only if the upload succeeds; no entry is changed or removed; the renderer's frame state is untouched |
| Geometry.WorldGen.GenerateRow | src/geometry.cpp:254-257 | every chunk of the row is present afterwards; existing chunks are kept; new ones lie in the row; one `add_mesh` per new chunk; the renderer's mesh list only grows and its frame state is untouched |
| Geometry.WorldGen.GenerateAround | src/geometry.cpp:247-259 | every chunk within `radius` of the one holding (x, z) is present afterwards; existing chunks are kept; none outside the window is created; one `add_mesh` per new chunk; the renderer's mesh list only grows and its frame state is untouched |
| Geometry.WorldGen.GetHeight | src/geometry.cpp:180-185 | the chunk holding (x, z) is present afterwards, and the result is that column's generated height, cut to 0..max_height; the renderer's mesh list only grows and its frame state is untouched |
| ShaderCaching.CodeSize | src/shader_cache.cpp:16 | the code size is a multiple of 4, from the length up to length + 3; it wraps to 0 for the last three `uint32_t` lengths |
| ShaderCaching.ProgramWords | src/shader_cache.cpp:17 | the buffer holds code_size / 4 zero words, enough for the whole file |
| ShaderCaching.Least | src/shader_cache.cpp:79-86 | the path the release scan meets first, in `std::string` order, among those holding the module |
| ShaderCaching.LoadThenRelease | src/shader_cache.cpp:48-91 | loading a new path that yields an unshared module, then releasing it, restores the cache and the counts |
| ShaderCaching.ReleaseForgetsOnePath | src/shader_cache.cpp:75-89 | releasing the last reference drops the count and exactly one path holding the module |
| ShaderCaching.ReleaseKeepsCacheWhileReferenced | src/shader_cache.cpp:75 | while other references remain, a release only lowers the count by one |
| ShaderCaching.ShaderCache.Load | src/shader_cache.cpp:48-69 | a cached path returns its module without loading; a new path is loaded once and cached even if null; a non-null result gains one reference |
| ShaderCaching.ShaderCache.Release | src/shader_cache.cpp:71-91 | null does nothing; otherwise the count drops, and at zero the count and the first path holding the module are erased and the module is destroyed |
| VertexBuffers.GetVertexSize | src/vertex_buffer.cpp:6-16 | the vertex size is the sum of the element sizes, modulo 2^32 (the same computation as `GraphicsPipelineFactory::get_vertex_size`) |
| VertexBuffers.AttributesFor | src/vertex_buffer.cpp:103-111 | one attribute per element, in order |
| VertexBuffers.AppendInputState | src/graphics_pipeline.cpp:159-179 | appends one binding numbered by the previous count with the vertex size as stride, then one attribute per element on it; earlier entries are kept |
| VertexBuffers.FindMemoryType | src/vertex_buffer.cpp:36-50 | the lowest memory type allowed by the mask whose flags include all desired ones, or the count when there is none |
| VertexBuffers.VertexBuffer.Create | src/vertex_buffer.cpp:18-65 | records the declaration, the count and the wrapped byte size; succeeds iff the buffer is created, a suitable memory type exists, allocation of the first suitable type succeeds and binding succeeds; on success the buffer and that memory are recorded |
| VertexBuffers.VertexBuffer.Bind | src/vertex_buffer.cpp:93-114 | appends this buffer's binding and attributes to the caller's lists and returns true |
| Pipelines.Ascending | src/graphics_pipeline.cpp:195-203 | the stage keys in `std::map` iteration order, each drawn from the set |
| Pipelines.AscendingComplete | src/graphics_pipeline.cpp:195-203 | every bound stage is listed |
| Pipelines.AscendingIncreasing | src/graphics_pipeline.cpp:195-203 | the listing is strictly increasing, so each stage appears once |
| Pipelines.StagesFor | src/graphics_pipeline.cpp:195-203 | one stage record per key, carrying that stage's module and entry point |
| Pipelines.GraphicsPipeline.Initialise | src/graphics_pipeline.cpp:8-69 | succeeds iff the layout is created, and then keeps the description |
| Pipelines.GraphicsPipeline.Invalidate | src/graphics_pipeline.cpp:112-119 | a live pipeline is destroyed once and nulled; with none, nothing happens |
| Pipelines.GraphicsPipelineFactory.Initialise | src/graphics_pipeline.cpp:121-127 | records the subpass and leaves the recorded pipeline state alone |
| Pipelines.GraphicsPipelineFactory.SetShader | src/graphics_pipeline.cpp:129-139 | a module and a name bind the stage, replacing any earlier binding; a null module or name unbinds it |
| Pipelines.GraphicsPipelineFactory.SetInputAssemblyState | src/graphics_pipeline.cpp:141-145 | records the topology and the restart flag, leaving the rest |
| Pipelines.GraphicsPipelineFactory.SetVertexDecl | src/graphics_pipeline.cpp:181-184 | appends the declaration's binding and attributes to the factory's lists |
| Pipelines.GraphicsPipelineFactory.AddDescriptorSetLayout | src/graphics_pipeline.cpp:186-189 | appends the layout |
| Pipelines.GraphicsPipelineFactory.BuildStages | src/graphics_pipeline.cpp:193-203 | one stage record per bound stage, in ascending stage order |
| Pipelines.GraphicsPipelineFactory.CreatePipeline | src/graphics_pipeline.cpp:191-262 | stageCount is the number of bound stages; setLayoutCount is the number of layouts added (0 for none); primitive restart is enabled iff requested; succeeds iff the layout is created, and then the pipeline holds the description and that layout; on failure its description and layout are unchanged; its handle is never touched |
| Devices.ExactChosen | src/vulkan_device.cpp:107-119 | returning the first family with exactly the requested flags gives the specified choice |
| Devices.CapableChosen | src/vulkan_device.cpp:122-138 | with no exact family, the first capable family, or UINT32_MAX when none is capable, gives the specified choice |
| Devices.ChosenCovers | src/vulkan_device.cpp:96-139 | any result other than UINT32_MAX names a family with queues and every requested flag |
| Devices.VulkanDevice.Initialise | src/vulkan_device.cpp:37-58 | succeeds iff all surface queries succeed, recording what was read up to the first failure; only success records the device and surface |
| Devices.VulkanDevice.FindQueueFamilyIndex | src/vulkan_device.cpp:96-139 | the first exact family, otherwise the first capable one, otherwise UINT32_MAX; empty families never qualify; surface support is asked only for graphics with a surface |
| Swapchains.FirstUnorm | src/vulkan_swapchain.cpp:17-27 | the position of the first B8G8R8A8_UNORM entry, or the length when there is none |
| Swapchains.SurfaceFormatFor | src/vulkan_swapchain.cpp:8-35 | a lone UNDEFINED entry yields B8G8R8A8_UNORM with its colour space; otherwise the first B8G8R8A8_UNORM entry, with its colour space, is chosen if there is one, else the first entry |
| Swapchains.ChooseSurfaceFormat | src/vulkan_swapchain.cpp:8-35 | the loop picks the first B8G8R8A8_UNORM entry, so it yields the format above |
| Swapchains.PresentModeFor | src/vulkan_swapchain.cpp:56-70 | MAILBOX if offered; else IMMEDIATE if offered and vsync is off; else FIFO |
| Swapchains.ChoosePresentMode | src/vulkan_swapchain.cpp:56-70 | the loop that stops at the first MAILBOX yields that mode |
| Swapchains.ImageCount | src/vulkan_swapchain.cpp:72-77 | minImageCount + 1, lowered to a non-zero maxImageCount, never above it |
| Swapchains.Pretransform | src/vulkan_swapchain.cpp:83-91 | IDENTITY iff supported, else the current transform |
| Swapchains.CompositeAlphaFor | src/vulkan_swapchain.cpp:93-110 | one of the four modes; OPAQUE or a supported mode; OPAQUE whenever it is supported |
| Swapchains.CompositeAlphaFirst | src/vulkan_swapchain.cpp:103-110 | the first supported mode in the order OPAQUE, PRE_MULTIPLIED, POST_MULTIPLIED, INHERIT is the one chosen |
| Swapchains.CompositeAlphaNone | src/vulkan_swapchain.cpp:93-110 | with none of the four supported, OPAQUE is used |
| Swapchains.ChooseCompositeAlpha | src/vulkan_swapchain.cpp:93-110 | the loop yields the mode above |
| Swapchains.ImageUsage | src/vulkan_swapchain.cpp:119-135 | colour attachment always; transfer source iff the format's optimal tiling can be a blit destination |
| Swapchains.VulkanSwapchain.ChooseExtent | src/vulkan_swapchain.cpp:44-54 | a current width of UINT32_MAX takes the requested size; otherwise the current extent is used and reported back |
| Swapchains.VulkanSwapchain.Create | src/vulkan_swapchain.cpp:37-150 | the create info follows each rule above and names the old swapchain; on creation the new swapchain replaces the old, which is cleaned up; the result then follows `get_images` |
| Rendering.IndexDataOffsetNoWrap | src/renderer.cpp:281-283 | without wrap-around the offset is the rounded sum masked by ~(alignment - 1) |
| Rendering.IndexDataOffsetAligned | src/renderer.cpp:281-283 | for a power-of-two alignment the index data offset is a multiple of it, at least the vertex size and below vertex size + alignment |
| Rendering.Combine | src/renderer.cpp:279-285 | the joint alignment is the larger of the two |
| Rendering.SharedMemoryTypes | src/renderer.cpp:285-290 | a memory type is allowed for the joint allocation iff both buffers allow it |
| Rendering.CombinedLayout | src/renderer.cpp:279-285 | the index data starts at an aligned offset past the vertex data, and the joint size is exactly that offset plus the index size |
| Rendering.Renderer.AddMesh | src/renderer.cpp:244-332 | an empty mesh succeeds and appends nothing; otherwise it succeeds iff every call succeeds and a shared memory type exists, appending one mesh with the index count, the box and the joint layout |
| Rendering.Renderer.DrawFrame | src/renderer.cpp:334-413 | an invalid state succeeds and draws nothing; otherwise the frame succeeds iff every call up to presentation succeeds, and once recording is reached every mesh is drawn with its index count, in order, culled or not |
| Rendering.Renderer.Invalidate | src/renderer.cpp:426-458 | only from a valid state: clears the flag, destroys every fence and framebuffer, frees the command buffers, and invalidates the pipeline, destroying its handle if it is live; a second call changes nothing |
| Rendering.PickDevice | src/renderer.cpp:519-552 | the last device that initialises and has a graphics queue is chosen, or none when no device qualifies |

## Left out

- Vulkan object creation and destruction: `Renderer::initialise`, `shutdown`, `set_window_size`, the `create_*` helpers, and `src/vulkan_image.cpp`, `src/vulkan_buffer.cpp`, `src/depth_buffer.cpp`, `src/render_pass.cpp`, `src/texture_cache.cpp`, `src/mesh_cache.cpp`. These are foreign API calls; where the core branches on one, the model has its success or failure as a parameter.
- `VertexBuffer::destroy`, `map` and `unmap`, `GraphicsPipeline::create` and `destroy`, `VulkanDevice::create` and `destroy`: these only store handles or call Vulkan. `GraphicsPipelineFactory::initialise` also stores the device, swapchain and render pass pointers, which the model does not keep.
- The `GraphicsPipelineFactory` header is not part of this model: its members are taken to start empty, with topology 0, no primitive restart and subpass 0.
- `ShaderCache` reference counts are unbounded integers: the `int` overflow of `_ref_counts[shader]++` past INT_MAX (undefined behaviour in C++) is not modelled.
- `VK_CHECK_RESULT` (src/vulkan.h:3-8) returns false when a call fails. `VULKAN_CHECK_RESULT`, used by `VulkanDevice::initialise` and `VulkanSwapchain::create`, is not part of this model and is taken to do the same.
- Perlin noise (libnoise, its frequency and octave count) is not part of this model: `WorldGen` takes the noise as a function of the world column.
- `chunk_to_world` and `world_to_chunk` are not part of this model. They are taken to be `cx * chunk_size + bx` on both axes, and its inverse by floor division.
- The header of the `Chunk` that `src/geometry.cpp` uses is not part of this model. `chunk_size = 16` and `max_height = 256` are assumed. `block` is assumed to return Air outside the chunk, and `set_block` to ignore such writes.
- `testAabbPlane` is not part of this model; `Culling.Cull` takes it as the parameter `test`.
- Floating point: vertex positions, normals and texture coordinates are whole numbers, so they are `int`. Boxes and planes are `real`, with no rounding. `get_height` returns its float result as a natural number.
- The uniform buffer, the projection-view product, command recording, submission and presentation in `draw_frame`: `DrawFrame` records only the sequence of index counts it draws.
- The camera (`src/camera.h`), the window and main loop (`src/vulkan_craft.cpp`), and the file reading and `vkCreateShaderModule` call in `do_load` (`src/file.h`): `ShaderCache.Load` takes what `do_load` returned as a parameter.
- Moves: the `VulkanDevice` move operator and the `RenderMesh` move constructor. `pick_device` keeps a reference to the chosen device instead of moving it.
- Resource release on failure paths: the staging buffer and the partly built `RenderMesh` in `add_mesh`.
- `generate_chunk` creates the map entry before filling the chunk; the model stores the chunk after building it. Nothing observes the map in between.
- `GraphicsPipeline::initialise` copies the create info field by field; the model stores the description as one value.
- Pipelines.GraphicsPipelineFactory.CreatePipeline: `stageCount` and `setLayoutCount` are exact counts; their `(uint32_t)` casts are not modelled, since fewer than 2^32 stages or layouts can be bound.
- Rendering.Renderer.AddMesh: the vertex and index byte sizes passed to `vkCreateBuffer` are not modelled; only the outcomes of the calls and the returned memory requirements are.
- Devices.VulkanDevice.FindQueueFamilyIndex: requires at most 2^32 - 1 families (UINT32_MAX), because the `uint32_t` loop counter and the UINT32_MAX sentinel assume it.
- VertexBuffers.VertexBuffer.Create: requires at most 32 memory types, the Vulkan maximum that the `1 << i` mask relies on.
- Rendering.Renderer.AddMesh: requires the queried size and alignment to fit in `VkDeviceSize` (below 2^64).
