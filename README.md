# EisEngine renderer core, modelled in Dafny

This project models the core of EisEngine, a small real-time renderer written in C++ on OpenGL for an
MSc course on real-time rendering. It covers:

- **Scene graph.** The Transform component keeps local position, rotation and scale, a parent link, a child
  set, a cached model matrix and a dirty flag. The setters mark the node and its subtree dirty.
  Invalidation detaches a subtree and deletes its entities. The global getters compose the chain of parents.
- **Scene-graph updater.** Before each frame it recomputes the cached matrix of every dirty transform.
- **Rendering schedule** (RenderingSystem). It builds the spatial grid of point lights and gives each mesh a
  level of detail from its distance to the nearest loader. A mesh at level 1 is bound the nearest lights of
  the 3 x 3 cells around it. The frame is a fixed sequence of passes: 2D meshes, lines, opaque 3D meshes,
  the two depth passes and the glassy pass for transparent meshes, world sprites, and UI sprites sorted by z.
- **Uniform and texture binding.** Shader uniforms, material data, point-light arrays and the renderer's
  texture units.
- **Primitive meshes.** The attribute defaults of PrimitiveMesh3D, and the cube and skybox tables.
- **Quaternion algebra.**
- **Animation.** The animation state machine (AnimState and Animator).
- **Resource manager.** The caches of shaders, textures, cubemaps and materials, and the import of an
  assimp scene into entities.

The model works on values. Reals stand in for floats. Matrices are symbolic (local, product, identity or
opaque). The rotation of a vector by Euler angles is a function parameter. OpenGL calls become recorded
state: texture units, face maps, filter modes, or a list of draw calls. Decoded images, shader compilation
results and imported assimp scenes are inputs. Callbacks into user code become an event trace.
`DEBUG_RUNTIME_ERROR` becomes an `Outcome` failure that ends the operation.

Modules, one file each: `Wrappers`, `Vectors`, `Matrices`, `Angles`, `Sorting`, `SceneGraph`,
`SceneGraphUpdater`, `Rendering`, `Shading`, `Materials`, `Textures`, `Meshes`, `Quaternions`, `Animation`,
`Resources` and `Components`.

## Model

| member | source | states |
|---|---|---|
| Angles.Trunc | project/engine/src/components/Transform.cpp:13 | the integer part that fmod divides out: at most the argument for non-negative inputs, at least it for negative ones, and less than one away |
| Angles.FMod360 | project/engine/src/components/Transform.cpp:12-15 | fmod(angle, 360): the remainder has the dividend's sign, lies strictly within one turn, and differs from the angle by a whole number of turns |
| Angles.NormalizeAngle | project/engine/src/components/Transform.cpp:12-15 | the result lies in [0, 360) and denotes the same angle as the input (they differ by whole turns) |
| Angles.NormalizeAngleCanonical | project/engine/src/components/Transform.cpp:12-15 | two angles normalise to the same value exactly when they differ by a whole number of turns |
| Angles.NormalizeAngleFixpoint | project/engine/src/components/Transform.cpp:12-15 | an angle already in [0, 360) is kept; normalising twice is normalising once |
| Angles.NormalizeAngles | project/engine/src/components/Transform.cpp:18-20 | every Euler component of the result is in [0, 360) |
| Angles.NormalizeAnglesFixpoint | project/engine/src/components/Transform.cpp:18-20 | normalised Euler angles are kept as they are, so a rotation set twice through the setters is unchanged after the first |
| Angles.CalculateAngularRotation | project/engine/src/components/Transform.cpp:35-36 | the rotation from v1 to v2 is a normalised Euler vector |
| Angles.AngularRotationReachesTarget | project/engine/src/components/Transform.cpp:35-36 | rotating v1 by the computed rotation yields v2, up to whole turns on each axis |
| Angles.SameAngleAfterShift | project/engine/src/components/Transform.cpp:35-36 | adding the normalised difference b - a to a lands on b, up to whole turns |
| Vectors.DistSq | project/engine/src/systems/RenderingSystem.cpp:291 | the squared distance used in place of glm::distance is never negative |
| Vectors.Clamp | project/engine/include/engine/utilities/rendering/Material.h:55-68 | the result lies in [lo, hi], equals v when v is inside, and is the bound v crosses otherwise |
| Vectors.Clamp01 | project/engine/include/engine/utilities/rendering/Material.h:55-68 | the result lies in [0, 1] |
| Vectors.ClampVec01 | project/engine/include/engine/utilities/rendering/Material.h:55-68 | every component of the result lies in [0, 1] |
| Vectors.ClampVec01Idempotent | project/engine/include/engine/utilities/rendering/Material.h:55-68 | clamping twice is clamping once, and a colour inside the unit cube is kept |
| Sorting.InsertBy | project/engine/src/systems/RenderingSystem.cpp:317-318 | inserting is a permutation of the list plus the new element, adds one element and keeps a sorted list sorted |
| Sorting.SortBy | project/engine/src/systems/RenderingSystem.cpp:317-318 | std::sort by a key: the result is a permutation of the input and sorted by the key |
| Sorting.SortedPrefixSmallest | project/engine/src/systems/RenderingSystem.cpp:317-318 | the first n sorted elements have keys no larger than any element left out |
| Sorting.SortedPrefix | project/engine/src/systems/RenderingSystem.cpp:317-318 | a prefix of a sorted list is sorted |
| Sorting.SortedTake | project/engine/src/systems/RenderingSystem.cpp:317-318 | keeping the first min(size, m) sorted elements gives that many elements, sorted, all from the input, none farther than an element left out |
| Sorting.SortByMembers | project/engine/src/systems/RenderingSystem.cpp:514 | an element is in the sorted list exactly when it is in the input |
| SceneGraph.Subtree | project/engine/src/components/Transform.cpp:251-258 | the nodes reached from a node through child links include the node itself and are transforms of the scene |
| SceneGraph.SubtreeClosed | project/engine/src/components/Transform.cpp:251-258 | the subtree contains every child of each of its nodes |
| SceneGraph.SubtreeMinimal | project/engine/src/components/Transform.cpp:251-258 | the subtree is contained in every child-closed set holding its root, so it is exactly what the recursion visits |
| SceneGraph.Chain | project/engine/src/components/Transform.cpp:81-86 | the ancestor chain starts at a root, ends at the node and links each element to its parent |
| SceneGraph.GlobalScaleIsChainProduct | project/engine/src/components/Transform.cpp:115-125 | the global scale is the componentwise product of the local scales along the ancestor chain |
| SceneGraph.ModelMatrixFrame | project/engine/src/components/Transform.cpp:81-86 | a node's model matrix depends only on the parent links and cached matrices of its ancestors |
| SceneGraph.TouchedMarksSubtree | project/engine/src/components/Transform.cpp:251-258 | after a setter the node holds the new fields and is dirty, every node below it is dirty and otherwise unchanged, and every other node is unchanged |
| SceneGraph.SetGlobalScaleRoundTrip | project/engine/src/components/Transform.cpp:164-178 | after SetGlobalScale(s) on a node whose parent's global scale has no zero component, the node's global scale reads back as s |
| SceneGraph.SetGlobalPositionReadBack | project/engine/src/components/Transform.cpp:128-137 | after SetGlobalPosition(p) a root reads back p, and a child reads back the parent's model matrix applied to p minus the parent's global position |
| SceneGraph.SetGlobalPositionUnderScaledParent | project/engine/src/components/Transform.cpp:88-95 | under a parent scaled by 2, asking for (1, 0, 0) places the child at (2, 0, 0): the setter and the getter are not inverse |
| SceneGraph.TouchedCoherent | project/engine/src/components/Transform.cpp:251-258 | the setters keep every clean node's cached matrix equal to its local matrix |
| SceneGraph.InvalidateEffects | project/engine/src/components/Transform.cpp:65-78 | after Invalidate the node and its children have no children and are deleted, the parent no longer lists the node, and every other node changes only by losing invalidated children |
| SceneGraph.DetachedCoherent | project/engine/src/components/Transform.cpp:65-78 | invalidation never breaks the coherence of the matrix cache |
| SceneGraph.Hierarchy.constructor | project/engine/src/components/Transform.cpp:41-51 | an empty scene with no deleted entity and no delete request |
| SceneGraph.Hierarchy.AddTransform | project/engine/src/components/Transform.cpp:41-51 | a new transform with the given local fields, no children and an identity matrix, attached under the parent when there is one; the scene stays acyclic |
| SceneGraph.Hierarchy.MarkDirty | project/engine/src/components/Transform.cpp:251-258 | exactly the node's subtree becomes dirty; no link changes |
| SceneGraph.Hierarchy.Invalidate | project/engine/src/components/Transform.cpp:65-78 | the subtree is detached from its parent and emptied of children, every node of it is deleted, and each of its entities not already deleted gets one delete request |
| SceneGraph.Hierarchy.DeleteEntity | project/engine/src/components/Transform.cpp:75-76 | the entity is recorded as deleted, and a delete request is logged unless one already was |
| SceneGraph.Hierarchy.SetLocalPosition | project/engine/src/components/Transform.cpp:179-183 | the position is stored, positionChanged is raised and the subtree is marked dirty; nothing else changes |
| SceneGraph.Hierarchy.SetLocalRotation | project/engine/src/components/Transform.cpp:184-189 | the normalised rotation is stored, rotationChanged is raised and the subtree is marked dirty |
| SceneGraph.Hierarchy.SetLocalScale | project/engine/src/components/Transform.cpp:190-195 | the scale is stored and the subtree is marked dirty |
| SceneGraph.Hierarchy.SetGlobalPosition | project/engine/src/components/Transform.cpp:128-137 | the local position becomes the target minus the parent's global position (the target itself for a root); the subtree is marked dirty |
| SceneGraph.Hierarchy.SetGlobalRotation | project/engine/src/components/Transform.cpp:139-163 | a root stores the normalised rotation and a child the raw one; rotationChanged is raised and the subtree is marked dirty |
| SceneGraph.Hierarchy.SetGlobalScale | project/engine/src/components/Transform.cpp:164-178 | the local scale becomes the target divided by the parent's global scale (the target itself for a root); the subtree is marked dirty |
| SceneGraph.Hierarchy.Translate | project/engine/src/components/Transform.cpp:198 | the local position moves by the direction; the subtree is marked dirty |
| SceneGraph.Hierarchy.Rotate | project/engine/src/components/Transform.cpp:199-201 | the local rotation becomes the normalised sum of the old one and the vector; the subtree is marked dirty |
| SceneGraph.Hierarchy.Rescale | project/engine/src/components/Transform.cpp:202-207 | the local scale is multiplied componentwise by the factors; the subtree is marked dirty |
| SceneGraph.Hierarchy.SyncPosition | project/engine/src/components/Transform.cpp:236-239 | the physics-driven position is stored as SetGlobalPosition would store it, and positionChanged is then cleared |
| SceneGraph.Hierarchy.SyncRotation | project/engine/src/components/Transform.cpp:240-243 | the physics-driven rotation is stored as SetGlobalRotation would store it, and rotationChanged is then cleared |
| SceneGraph.Hierarchy.SetParent | project/engine/src/components/Transform.cpp:210-215 | the parent link is replaced and the new parent lists the node; the old parent keeps listing it |
| SceneGraph.Hierarchy.AddChild | project/engine/src/components/Transform.cpp:216 | the child is added to the node's child set and nothing else changes |
| SceneGraph.Hierarchy.RemoveChild | project/engine/src/components/Transform.cpp:217 | the child is removed from the node's child set and nothing else changes |
| SceneGraphUpdater.VisitEffects | project/engine/src/systems/SceneGraphUpdater.cpp:28-43 | a clean transform is left alone; a dirty live one ends clean holding its local matrix; a dirty deleted one gets the identity and stays dirty; no other field changes |
| SceneGraphUpdater.VisitIdempotent | project/engine/src/systems/SceneGraphUpdater.cpp:28-43 | visiting a transform twice is visiting it once |
| SceneGraphUpdater.UpdatedOnCompose | project/engine/src/systems/SceneGraphUpdater.cpp:19-25 | visiting the nodes of A and then of B is visiting A + B, even when the sets overlap |
| SceneGraphUpdater.UpdatedOnCommutes | project/engine/src/systems/SceneGraphUpdater.cpp:19-25 | the result does not depend on the order the components are visited in |
| SceneGraphUpdater.UpdatedIdempotent | project/engine/src/systems/SceneGraphUpdater.cpp:15-26 | a second pass right after the first changes nothing |
| SceneGraphUpdater.UpdatedEffects | project/engine/src/systems/SceneGraphUpdater.cpp:19-43 | node by node, the whole pass has the per-transform effect of the lambda and keeps the set of nodes |
| SceneGraphUpdater.UpdatedKeepsLinks | project/engine/src/systems/SceneGraphUpdater.cpp:28-43 | the pass changes no parent or child link, so the hierarchy stays acyclic |
| SceneGraphUpdater.UpdatedCoherent | project/engine/src/systems/SceneGraphUpdater.cpp:19-43 | after the pass every clean node holds its own local matrix, provided that held before |
| SceneGraphUpdater.UpdatedModelMatrix | project/engine/src/systems/SceneGraphUpdater.cpp:32-42 | after the pass, the model matrix of a node with no deleted ancestor is the product of the local matrices along its chain, root first |
| SceneGraphUpdater.UpdateTransforms | project/engine/src/systems/SceneGraphUpdater.cpp:15-26 | the whole arena is updated as by the lambda on every node, and the scene stays well formed |
| Rendering.WorldToCell | project/engine/src/systems/RenderingSystem.cpp:39-46 | the cell of a position is the floor of x and of z divided by the cell size |
| Rendering.WorldToCellUnique | project/engine/src/systems/RenderingSystem.cpp:39-46 | a position lies in exactly one cell: the one WorldToCell gives |
| Rendering.GridOfContents | project/engine/src/systems/RenderingSystem.cpp:228-238 | a cell appears in the light grid exactly when some light lies in it, and then holds the owners of those lights in insertion order |
| Rendering.OwnersInMembers | project/engine/src/systems/RenderingSystem.cpp:228-238 | an entity is listed in a cell exactly when one of its lights lies in that cell |
| Rendering.ColumnMembers | project/engine/src/systems/RenderingSystem.cpp:240-259 | one column of the query collects the lights of the cells at that dx and the first n values of dz |
| Rendering.BlockMembers | project/engine/src/systems/RenderingSystem.cpp:240-259 | the first m columns of the query collect the lights of the neighbouring cells whose dx is below m - 1 |
| Rendering.NearbyMembers | project/engine/src/systems/RenderingSystem.cpp:240-259 | the 3 x 3 query returns exactly the lights stored in the cells adjacent to or equal to the centre cell |
| Rendering.QueryFindsNearbyLights | project/engine/src/systems/RenderingSystem.cpp:228-259 | on a freshly built grid, the query finds exactly the owners of the lights whose cell is next to the position's cell |
| Rendering.MinDistSqBelow | project/engine/src/systems/RenderingSystem.cpp:286-296 | the nearest-loader distance is below the threshold exactly when some loader is within the threshold |
| Rendering.PositionsOf | project/engine/src/systems/RenderingSystem.cpp:286-296 | the loaders' global positions, one per loader, in the order they were marked |
| Rendering.NearestLoader | project/engine/src/systems/RenderingSystem.cpp:286-296 | the loop returns the minimum squared distance to the loaders, which is no larger than any of them and no larger than the initial max |
| Rendering.LoaderWithin | project/engine/src/systems/RenderingSystem.cpp:286-296 | level of detail 1 holds exactly when some marked loader is within the distance threshold |
| Rendering.EntriesOfMembers | project/engine/src/systems/RenderingSystem.cpp:305-314 | a candidate entry exists exactly for each queried light that is still a live point light, at its squared distance |
| Rendering.CollectEntries | project/engine/src/systems/RenderingSystem.cpp:305-314 | the loop collects exactly the queried live point lights with their squared distances |
| Rendering.SelectedNearest | project/engine/src/systems/RenderingSystem.cpp:317-322 | the selection keeps min(count, MAX_LIGHTS) candidates, sorted by distance, all from the candidates, none farther than a candidate left out |
| Rendering.LightingForBound | project/engine/src/systems/RenderingSystem.cpp:286-332 | lights are bound exactly when a loader is near; then at most MAX_LIGHTS live point lights from adjacent cells are bound, nearest first, at least one when any candidate exists |
| Rendering.TransparentOfMembers | project/engine/src/systems/RenderingSystem.cpp:387-393 | a mesh is set aside for the transparent passes exactly when its material's opacity is not 1 |
| Rendering.UISpritesOfMembers | project/engine/src/systems/RenderingSystem.cpp:486-504 | a sprite is set aside for the overlay exactly when its renderer's layer is "UI" |
| Rendering.OpaqueCallsMembers | project/engine/src/systems/RenderingSystem.cpp:385-399 | the opaque pass draws exactly the non-transparent meshes, each with its lighting |
| Rendering.GlassyCallsMembers | project/engine/src/systems/RenderingSystem.cpp:452-471 | the glassy pass draws exactly the set-aside meshes, each with its lighting |
| Rendering.SpriteCallsMembers | project/engine/src/systems/RenderingSystem.cpp:486-504 | a sprite is drawn in the world pass exactly when it has a renderer whose layer is not "UI" |
| Rendering.OverlayCallsShape | project/engine/src/systems/RenderingSystem.cpp:507-530 | the overlay draws each of its sprites once, in order |
| Rendering.OverlayOrder | project/engine/src/systems/RenderingSystem.cpp:507-530 | the overlay draws exactly the UI sprites, once each, and never draws a sprite after one that compareZValues puts behind it |
| Rendering.DepthCallsMembers | project/engine/src/systems/RenderingSystem.cpp:417-440 | a depth pass draws exactly the set-aside meshes, geometry only |
| Rendering.MeshPasses | project/engine/src/systems/RenderingSystem.cpp:385-471 | every 3D mesh is drawn: a transparent one in both depth passes and the glassy pass, any other in the opaque pass, always with its own lighting |
| Rendering.RenderingSystem.constructor | project/engine/src/systems/RenderingSystem.cpp:164-165 | empty grid, no loaders, specular factor 1 and the default 3D shader |
| Rendering.RenderingSystem.MarkAsLoader | project/engine/src/systems/RenderingSystem.cpp:48-50 | the entity is appended to the loaders and nothing else changes |
| Rendering.RenderingSystem.SetSpecularFactor | project/engine/src/systems/RenderingSystem.cpp:52 | the specular factor is set and nothing else changes |
| Rendering.RenderingSystem.SetActiveShader | project/engine/src/systems/RenderingSystem.cpp:54-61 | the 3D shader changes exactly when the name is a key of the shader dictionary, so it always stays one |
| Rendering.RenderingSystem.BuildLightGrid | project/engine/src/systems/RenderingSystem.cpp:228-238 | the grid is cleared and then holds each point light's owner in its cell, in order |
| Rendering.RenderingSystem.QueryNearbyLights | project/engine/src/systems/RenderingSystem.cpp:240-259 | the result is the concatenation of the 3 x 3 neighbouring cells' lists, dx outermost, and holds exactly their lights |
| Rendering.QueryColumn | project/engine/src/systems/RenderingSystem.cpp:247-255 | the inner loop collects the lists of the three cells at one dx, dz from -1 to 1, in order |
| Rendering.RenderingSystem.PrepareLighting | project/engine/src/systems/RenderingSystem.cpp:286-332 | the level of detail and the bound lights are those LightingFor specifies for the current grid, loaders and lights |
| Rendering.RenderingSystem.OpaquePass | project/engine/src/systems/RenderingSystem.cpp:385-399 | the opaque meshes are drawn in order with their lighting, and exactly the transparent ones are returned, in order |
| Rendering.RenderingSystem.GlassyPass | project/engine/src/systems/RenderingSystem.cpp:452-471 | each set-aside mesh is drawn in the glassy pass with its lighting, in order |
| Rendering.RenderingSystem.TransparentPasses | project/engine/src/systems/RenderingSystem.cpp:401-475 | nothing is drawn when no mesh was set aside; otherwise the depth shader, the back and front depth passes, the glassy shader and the glassy pass |
| Rendering.RenderingSystem.Draw | project/engine/src/systems/RenderingSystem.cpp:337-532 | the grid is built only when empty; the frame is the fixed sequence of passes and shader switches, with empty 2D and sprite passes skipped |
| Rendering.FlatPass | project/engine/src/systems/RenderingSystem.cpp:349-373 | one draw per 2D mesh or line, in order |
| Rendering.DepthPass | project/engine/src/systems/RenderingSystem.cpp:417-440 | one geometry-only draw per set-aside mesh, in order |
| Rendering.SpritePass | project/engine/src/systems/RenderingSystem.cpp:486-504 | world sprites are drawn in order, and exactly the UI sprites are set aside |
| Rendering.OverlayPass | project/engine/src/systems/RenderingSystem.cpp:507-530 | nothing without UI sprites; otherwise the UI shader, then the sprites sorted by z |
| Rendering.OverlayDraws | project/engine/src/systems/RenderingSystem.cpp:519-529 | one overlay draw per UI sprite, in the sorted order |
| Shading.WrittenAllLookup | project/engine/src/utilities/rendering/Shader.cpp:91-122 | after a sequence of setter calls a declared uniform holds the last value written to it, any other keeps its value, and no undeclared uniform appears |
| Shading.WrittenAllKeys | project/engine/src/utilities/rendering/Shader.cpp:91-122 | the setters never add an undeclared uniform name |
| Shading.WrittenAllAppend | project/engine/src/utilities/rendering/Shader.cpp:91-122 | writing two sequences one after the other is writing their concatenation |
| Shading.LastWriteAbsent | project/engine/src/utilities/rendering/Shader.cpp:91-122 | a name has no last write exactly when no write names it |
| Shading.LastWriteAt | project/engine/src/utilities/rendering/Shader.cpp:91-122 | the last write to a name is the value of its final occurrence |
| Shading.ApplyUniforms | project/engine/src/utilities/rendering/Shader.cpp:51-70 | after apply, the depth-map samplers, mvp and camPos hold their values when declared, and every other uniform is unchanged |
| Shading.AcceptsOnePastLastUnit | project/engine/src/utilities/rendering/Shader.cpp:72-79 | as written, the unit guard accepts unit == maxUnits, a unit outside the valid range |
| Shading.AcceptsUnitExactly | project/engine/src/utilities/rendering/Shader.cpp:72-79 | the corrected guard accepts exactly the units in [0, maxUnits), and agrees with the written one everywhere else |
| Shading.Shader.constructor | project/engine/src/utilities/rendering/Shader.cpp:8-38 | the linked program and both stage handles are stored, with no uniform set, an identity view-projection and no bound unit |
| Shading.Shader.MoveFrom | project/engine/src/utilities/rendering/Shader.cpp:40-44 | the handles and uniforms move to the new shader, and the source is left with zero handles and no uniforms |
| Shading.Shader.Set | project/engine/src/utilities/rendering/Shader.cpp:91-122 | a declared uniform takes the value; an undeclared one changes nothing |
| Shading.Shader.SetAll | project/engine/src/utilities/rendering/Shader.cpp:91-122 | a sequence of setter calls leaves the uniform store that WrittenAll gives |
| Shading.Shader.Apply | project/engine/src/utilities/rendering/Shader.cpp:51-70 | the camera view-projection is kept for later MVPs and the uniforms take apply's writes |
| Shading.Shader.ApplyTexture2D | project/engine/src/utilities/rendering/Shader.cpp:72-83 | the texture is bound to the unit exactly when the unit is accepted; nothing else changes |
| Shading.Shader.ApplyCubemap | project/engine/src/utilities/rendering/Shader.cpp:85-89 | the cubemap is bound to the cubemap unit and nothing else changes |
| Materials.Shininess | project/engine/src/utilities/rendering/Material.cpp:18 | shininess from metallic and roughness: in [0, 1] for inputs in [0, 1], at most the metallic value, and 0 for a fully rough material |
| Materials.MatDataUniforms | project/engine/src/utilities/rendering/Material.cpp:14-19 | applying a material sets its declared material uniforms and leaves every other uniform alone |
| Materials.Material.constructor | project/engine/src/utilities/rendering/Material.cpp:8-12 | the material holds the given name, colours, opacity, metallic and roughness, with tiling 1 and intensity 0 |
| Materials.Material.Copy | project/engine/src/ResourceManager.cpp:238 | the copy is a fresh material with the same data |
| Materials.Material.SetDiffuse | project/engine/include/engine/utilities/rendering/Material.h:55-59 | the diffuse colour becomes the clamped value and nothing else changes |
| Materials.Material.SetDiffuseColor | project/engine/include/engine/utilities/rendering/Material.h:60 | the diffuse colour becomes the colour's RGB, unclamped, and nothing else changes |
| Materials.Material.SetEmission | project/engine/include/engine/utilities/rendering/Material.h:61-65 | the emission becomes the clamped value and nothing else changes |
| Materials.Material.SetOpacity | project/engine/include/engine/utilities/rendering/Material.h:66 | the opacity becomes the value clamped to [0, 1] |
| Materials.Material.SetMetallic | project/engine/include/engine/utilities/rendering/Material.h:67 | metallic becomes the value clamped to [0, 1] |
| Materials.Material.SetRoughness | project/engine/include/engine/utilities/rendering/Material.h:68 | roughness becomes the value clamped to [0, 1] |
| Materials.Material.SetTiling | project/engine/include/engine/utilities/rendering/Material.h:69 | the tiling is set, unclamped |
| Materials.Material.SetIntensity | project/engine/include/engine/utilities/rendering/Material.h:70 | the intensity is set, unclamped |
| Materials.Material.ApplyMatData | project/engine/src/utilities/rendering/Material.cpp:14-19 | the shader's uniforms take the material's writes; bindings, matrix and program are unchanged |
| Materials.ClampingSettersIdempotent | project/engine/include/engine/utilities/rendering/Material.h:55-68 | setting a clamped value twice is setting it once, and an in-range value is stored as given |
| Textures.FilterTables | project/engine/src/utilities/rendering/Texture2D.cpp:32-44 | each filter mode has its own min filter, the mag filter is never a mipmap filter, and the min filter is a mipmap one exactly for the two mipmap modes |
| Textures.FaceTarget | project/engine/src/utilities/rendering/Cubemap.cpp:27 | face i goes to GL_TEXTURE_CUBE_MAP_POSITIVE_X + i, within the six face targets for i < 6 |
| Textures.FaceTargets | project/engine/src/utilities/rendering/Cubemap.cpp:27 | different faces have different targets, and every cube-face target belongs to one of the first six faces |
| Textures.Texture2D.constructor | project/engine/src/utilities/rendering/Texture2D.cpp:6-9 | zero size, RGB formats, repeat wrapping, trilinear minification and linear magnification, no image |
| Textures.Texture2D.Generate | project/engine/src/utilities/rendering/Texture2D.cpp:11-26 | the size and the image are stored; formats, wrapping and filters are kept |
| Textures.Texture2D.SetFilteringMode | project/engine/src/utilities/rendering/Texture2D.cpp:32-44 | the min and mag filters become the mode's pair; nothing else changes |
| Textures.FoldDimsUniform | project/engine/src/utilities/rendering/Cubemap.cpp:16-23 | with positive sizes, the faces pass the size check exactly when all have the first face's size, which the cubemap then takes |
| Textures.Cubemap.constructor | project/engine/src/utilities/rendering/Cubemap.cpp:6-13 | size -1 by -1, RGB formats, clamp-to-edge on all three axes, linear filters and no faces |
| Textures.Cubemap.Generate | project/engine/src/utilities/rendering/Cubemap.cpp:15-39 | a face is accepted exactly when its size matches the size fixed by the first face; an accepted face is stored at its target, and a refusal changes no face |
| Textures.Cubemap.SetParams | project/engine/src/utilities/rendering/Cubemap.cpp:41-51 | the parameters are applied and the size and faces are kept |
| Meshes.Filled | project/engine/src/utilities/rendering/PrimitiveMesh3D.cpp:21-69 | a given attribute is kept; a missing one is filled with one default per vertex |
| Meshes.ConstructedAligned | project/engine/src/utilities/rendering/PrimitiveMesh3D.cpp:71-83 | a mesh built without attributes has one normal, UV, tangent and bitangent per vertex, all defaults |
| Meshes.CubeTables | project/engine/src/utilities/rendering/PrimitiveMesh3D.cpp:126-242 | the cube has 24 vertices with one normal and UV each and 36 indices, all in range |
| Meshes.CubeTrianglesOnFaces | project/engine/src/utilities/rendering/PrimitiveMesh3D.cpp:126-242 | each of the cube's 12 triangles uses the four vertices of one face |
| Meshes.CubeNormalsPerFace | project/engine/src/utilities/rendering/PrimitiveMesh3D.cpp:126-242 | the four vertices of a cube face share one normal |
| Meshes.SkyboxTables | project/engine/src/utilities/rendering/PrimitiveMesh3D.cpp:245-280 | the skybox has 8 vertices and 36 indices in range, forming whole triangles, with default normals and UVs |
| Quaternions.MulAssociative | project/engine/src/utilities/Quaternion.cpp:60-67 | the Hamilton product is associative: (q * p) * s equals q * (p * s) for all quaternions |
| Quaternions.MulDistributes | project/engine/src/utilities/Quaternion.cpp:42-67 | the Hamilton product distributes over addition: q * (p + s) equals q * p + q * s |
| Quaternions.MulNormMultiplicative | project/engine/src/utilities/Quaternion.cpp:60-67 | the squared norm of a product is the product of the squared norms, so the product of two unit quaternions is a unit quaternion |
| Quaternions.DotSelf | project/engine/src/utilities/Quaternion.cpp:151-153 | the dot product of a quaternion with itself is never negative |
| Quaternions.LerpAsWrittenCollapses | project/engine/src/utilities/Quaternion.cpp:155-165 | as written, Lerp between the identity and itself passes through the zero quaternion at t = 0.5 and ends at the negated identity |
| Quaternions.LerpShortPath | project/engine/src/utilities/Quaternion.cpp:155-165 | corrected Lerp interpolates toward a target on q1's side, starts at q1, ends at q2 or -q2, and stays at q1 between equal inputs |
| Quaternions.QuaternionVar.constructor | project/engine/src/utilities/Quaternion.cpp:8 | the variable holds the given quaternion |
| Quaternions.QuaternionVar.AddAssign | project/engine/src/utilities/Quaternion.cpp:94-100 | += leaves the sum that + gives |
| Quaternions.QuaternionVar.SubAssign | project/engine/src/utilities/Quaternion.cpp:101-107 | -= leaves the difference that - gives |
| Quaternions.QuaternionVar.ScaleAssign | project/engine/src/utilities/Quaternion.cpp:108-114 | *= by a float leaves the product that * gives |
| Quaternions.QuaternionVar.ScaleIntAssign | project/engine/src/utilities/Quaternion.cpp:115-121 | *= by an int leaves the product that * gives |
| Animation.RunEventsCounts | project/engine/src/utilities/AnimState.cpp:4-11 | a run enters no state and exits once exactly when the exit condition holds |
| Animation.CountAppend | project/engine/src/utilities/AnimState.cpp:4-11 | entry and exit counts add up over concatenated traces |
| Animation.AnimState.OnEnter | project/engine/include/engine/utilities/AnimState.h:17 | entering invokes onEntering once and nothing else |
| Animation.AnimState.Run | project/engine/src/utilities/AnimState.cpp:4-11 | onRun with the elapsed time, then onExiting exactly when the exit condition holds, whose answer is returned |
| Animation.Animator.constructor | project/engine/src/components/Animator.cpp:7-8 | the animator starts at state 0 with no elapsed time, the first state still to be entered |
| Animation.Animator.Update | project/engine/src/components/Animator.cpp:10-23 | a newly reached state is entered once with its time reset, the state is run, an exit advances the state to be entered next frame, and the frame time is added; each exited state was entered exactly once |
| Resources.FacesOfLookup | project/engine/src/ResourceManager.cpp:406-443 | the i-th loaded image is stored at the i-th face target and no other target is filled |
| Resources.LoadedSkipsFailures | project/engine/src/ResourceManager.cpp:406-443 | a file that fails to load is skipped and a loaded one is appended, so the faces are the loaded images in order |
| Resources.FailStaysFailed | project/engine/src/ResourceManager.cpp:406-443 | once the faces loaded so far disagree in size, the cubemap fails whatever the remaining files are |
| Resources.CubemapDimensions | project/engine/src/ResourceManager.cpp:406-443 | the loaded faces pass the size check exactly when all have the same width and the same height |
| Resources.ReceiveAll | project/engine/src/ResourceManager.cpp:406-443 | the loading loop succeeds exactly when the loaded faces agree in size, and then holds every loaded face |
| Resources.ReceiveFile | project/engine/src/ResourceManager.cpp:414-440 | one file of the loop: a file that did not decode is skipped, one that did becomes the next face, and a size mismatch fails the whole load |
| Resources.ImportedDataInRange | project/engine/src/ResourceManager.cpp:172-209 | an imported material has opacity, metallic and roughness in [0, 1], roughness 0.5 and metallic 0 when the file gives none |
| Resources.SetImported | project/engine/src/ResourceManager.cpp:172-209 | a default material takes the imported colours and factors |
| Resources.FlattenIndices | project/engine/src/ResourceManager.cpp:29-84 | triangle faces flatten into three indices per face, in order |
| Resources.ImportMesh | project/engine/src/ResourceManager.cpp:29-84 | an imported mesh collects its vertices, flattened indices, normals, first UV channel, tangents and bitangents |
| Resources.ImportedMeshShape | project/engine/src/ResourceManager.cpp:29-84 | the imported mesh has three indices per face and one of each attribute per vertex |
| Resources.World.constructor | project/engine/src/ResourceManager.cpp:95-98 | no entity created and no event recorded |
| Resources.World.CreateEntity | project/engine/src/ResourceManager.cpp:95-98 | entities get consecutive identifiers, each creation recorded with its name and parent |
| Resources.ResourceManager.constructor | project/engine/src/ResourceManager.cpp:12-15 | all four caches start empty |
| Resources.ResourceManager.GetShader | project/engine/src/ResourceManager.cpp:459-465 | null for an empty cache; otherwise the cache entry, a missing name inserting a null entry |
| Resources.ResourceManager.GenerateShaderFromFiles | project/engine/src/ResourceManager.cpp:447-457 | a cached shader is returned; otherwise a compile failure aborts and leaves a null entry, and success caches the new shader |
| Resources.ResourceManager.GetTexture | project/engine/src/ResourceManager.cpp:366-380 | "default" and "default_normal" are created on demand; other names come from the cache, a missing one inserting a null entry |
| Resources.ResourceManager.MakeDummyTexture | project/engine/src/ResourceManager.cpp:328-345 | the 1 x 1 white placeholder is created once and cached as "default" |
| Resources.ResourceManager.MakeDummyNormalMap | project/engine/src/ResourceManager.cpp:347-364 | the 1 x 1 flat normal placeholder is created once and cached as "default_normal" |
| Resources.ResourceManager.LoadTextureFromFile | project/engine/src/ResourceManager.cpp:301-326 | a fresh texture with a new identifier, holding the decoded image, or left empty when decoding fails |
| Resources.ResourceManager.GenerateTextureFromFile | project/engine/src/ResourceManager.cpp:294-299 | a cached texture is returned; otherwise the file is loaded and cached under the name |
| Resources.ResourceManager.GetCubemap | project/engine/src/ResourceManager.cpp:397-404 | null for an empty cache; otherwise the cache entry, a missing name inserting a null entry |
| Resources.ResourceManager.LoadCubemapFromFiles | project/engine/src/ResourceManager.cpp:406-443 | with fewer than six files, only an error is logged and an empty cubemap is returned; otherwise the faces are the loaded images, and the load succeeds exactly when they agree in size |
| Resources.ResourceManager.GenerateCubemapFromFiles | project/engine/src/ResourceManager.cpp:385-395 | a cached cubemap is returned and nothing is loaded; otherwise a failed load leaves a null entry, and success caches a fresh cubemap that, with six or more files, received every loaded face with its parameters set, and with fewer has no faces, no parameters and width and height -1 |
| Resources.ResourceManager.LoadMaterial | project/engine/src/ResourceManager.cpp:172-213 | a cached material of that name is returned; otherwise a new material with the imported data is cached |
| Resources.ResourceManager.EnsureDefaultMaterial | project/engine/src/ResourceManager.cpp:217-218 | the "default" material is created once, when first asked for |
| Resources.ResourceManager.GetMaterial | project/engine/src/ResourceManager.cpp:215-226 | the default material on demand, or the cache entry, a missing name inserting a null entry |
| Resources.ResourceManager.GetMaterialInstance | project/engine/src/ResourceManager.cpp:228-239 | a fresh copy of the cached material, distinct from every cached one, or null when none is cached |
| Resources.ResourceManager.ImportTextureFromAssimp | project/engine/src/ResourceManager.cpp:244-292 | an external path yields the default texture; an embedded one is cached under its file name, decoded or left empty |
| Resources.ResourceManager.ImportMeshInto | project/engine/src/ResourceManager.cpp:112-131 | a mesh without positions or without vertices records nothing; otherwise the entity gets, in this order, the mesh as ImportMesh converts it, a renderer with the texture and the registered material the mesh names in the layer "", and a point light with that material exactly when the material's emission is not zero; no registered material is replaced and no entity is created |
| Resources.ResourceManager.ImportMeshesInto | project/engine/src/ResourceManager.cpp:110-132 | the node's meshes are imported into the one entity in the order the node lists them, the log gaining exactly each mesh's events in turn, each mesh's components as ImportMeshInto states them (MeshesFrom), no registered material replaced and no entity created |
| Resources.ResourceManager.ImportMeshStep | project/engine/src/ResourceManager.cpp:110-132 | one turn of the mesh loop appends the next mesh's components and events after the earlier meshes' and keeps the registered materials |
| Resources.ResourceManager.MeshesFromAt | project/engine/src/ResourceManager.cpp:110-132 | the k-th recorded components belong to the k-th mesh the node lists: skipped exactly when that mesh has no positions or no vertices, otherwise its converted primitive and its registered material |
| Resources.ResourceManager.MeshesFromKept | project/engine/src/ResourceManager.cpp:122-123 | importing more meshes or nodes, which only adds materials, keeps every earlier mesh's renderer bound to its registered material |
| Resources.MeshesEventsOn | project/engine/src/ResourceManager.cpp:127-130 | every event a node's mesh import records is about the node's entity, and none creates an entity |
| Resources.ResourceManager.ImportOwn | project/engine/src/ResourceManager.cpp:95-132 | a node that is not skipped gets a new entity, attached to the parent, placed by the node's transformation, and then exactly the events of its own meshes in order |
| Resources.ResourceManager.ImportNode | project/engine/src/ResourceManager.cpp:86-137 | an empty leaf creates nothing; otherwise one entity per importable node, the node's own first, under the given parent and placed by the node's transformation, followed directly by the events of its own meshes in order, each mesh's components as ImportMeshInto states them (MeshesFrom), then its children's entities, each under an entity of the same import; no registered material is replaced |
| Resources.ResourceManager.ImportChildren | project/engine/src/ResourceManager.cpp:135-136 | every child is imported in order, each under the node's entity |
| Resources.ResourceManager.ImportChild | project/engine/src/ResourceManager.cpp:135-136 | one more child is imported, after the earlier ones, under the node's entity |
| Resources.ResourceManager.Load3DObject | project/engine/src/ResourceManager.cpp:139-166 | an unreadable file creates nothing, leaves the texture and material caches and the name counter unchanged, and returns no root; otherwise a root entity named after the file is created first, without a parent, followed by one entity per importable node of the scene, each under an entity of the same import |
| Components.NatToString | project/engine/src/components/PointLight.cpp:18-25 | std::to_string of a natural number is a non-empty string of digits, one digit exactly below 10 |
| Components.NatToStringInjective | project/engine/src/components/PointLight.cpp:18-25 | different numbers have different decimal strings |
| Components.IntToStringInjective | project/engine/src/components/PointLight.cpp:18-25 | different integers, negative ones included, have different strings |
| Components.IntToStringNoBracket | project/engine/src/components/PointLight.cpp:18-25 | an integer's string contains no closing bracket |
| Components.LightUniformInjective | project/engine/src/components/PointLight.cpp:16-27 | the uniform names "lights[i].field" differ for different indices or fields |
| Components.LightUniforms | project/engine/src/components/PointLight.cpp:16-27 | applying light i sets its declared emission, position and intensity uniforms and leaves the rest alone |
| Components.LightsIndependent | project/engine/src/components/PointLight.cpp:16-27 | applying one light never changes another light's uniforms |
| Components.PointLight.constructor | project/engine/src/components/PointLight.cpp:7-10 | the light belongs to its entity and uses the given material |
| Components.PointLight.MoveFrom | project/engine/src/components/PointLight.cpp:11-14 | the material moves to the new light and the old one is left without one |
| Components.PointLight.Apply | project/engine/src/components/PointLight.cpp:16-27 | the shader's uniforms take the writes of this light's array slot; bindings, matrix and program are unchanged |
| Components.PointLight.SetEmission | project/engine/include/engine/components/PointLight.h:29 | the material's emission becomes the clamped colour and nothing else changes |
| Components.PointLight.SetIntensity | project/engine/include/engine/components/PointLight.h:30 | the material's intensity is set and nothing else changes |
| Components.Renderer.constructor | project/engine/src/components/Renderer.cpp:6-23 | missing textures fall back to the cached or placeholder defaults, and a missing material to a fresh instance of the default material |
| Components.Renderer.MoveFrom | project/engine/src/components/Renderer.cpp:25-31 | the texture, material and layer move over; the old renderer is emptied, and the normal map is not moved |
| Components.Renderer.SetDiffuseTexture | project/engine/include/engine/components/Renderer.h:37 | the diffuse texture is replaced and nothing else changes |
| Components.Renderer.SetNormalMap | project/engine/include/engine/components/Renderer.h:38 | the normal map is replaced and nothing else changes |
| Components.Renderer.ApplyData | project/engine/src/components/Renderer.cpp:34-42 | the material's uniforms are written, and each present texture is bound to its unit when the unit is accepted, no other unit changing |

## Left out

- OpenGL, GLFW and framebuffer work: the GL calls themselves, FBO set-up and resizing (InitFBO, ResizeFBOItems), and the depth, blend and cull state toggles between passes. Only the order of shader switches and draws is kept.
- Floating point: reals stand in for floats, so rounding and exact Vector3 comparisons are not modelled.
- Math.h, Debug.h, the PrimitiveMesh base class, assimp and stb_image are not part of this model. Their results (decoded images, compiled shaders, imported scenes) are inputs.
- GetAveragePos and RenderingSystem::Clear: only GL state or unused.
- ReadText and resolveAssetPath: file I/O.
- CubemapRenderer, Camera, Context, Input, the Mesh3D and SpriteMesh draw calls, ComponentManager and the application layer are outside the core. A draw is recorded as a DrawCall.
- The light grid's GridCoordHashMap is modelled as a map from cell to list; hashing is not modelled.
- GetGlobalRotation and ConvertMatrixToEuler, and the matrix inversion in SetGlobalRotation: they need trigonometry. The symbolic matrices do not support it.
- GetLocalMatrix's exact translate, rotate and scale order, and the order in which Transform composes rotations compared with the updater: matrices are symbolic `Local(position, rotation, scale)` values.
- PrepareDraw's normal matrix, MVP and model uniforms: only the lighting half is modelled.
- SyncScale and the collider: the physics side is outside the core.
- The Transform move constructor: it only shuffles ownership.
- SceneGraph.ModelMatrixOf composes matrices symbolically and does not multiply elements.
- Quaternion FromEulerXYZ, ToEulerXYZ, FromAxisAngle, GetRotationToTarget, magnitude, the vector rotation operator and the string conversion: they need trigonometry or square roots.
- Quaternions.DotSelf: states only that q · q is non-negative, not that it is zero exactly for the zero quaternion.
- Resources.ImportedDataInRange: aiColor4D::IsBlack is taken as each of r, g and b having absolute value below 10e-3, with alpha ignored.
- Resources.ResourceManager.LoadMaterial: when the file has no opacity key, the source reads an uninitialised float. The model takes the opacity as an input of the imported material, whatever value that float holds.
- Resources.ResourceManager.ImportTextureFromAssimp: requires an embedded ("*n") path to name an embedded texture of the scene. ResourceManager.cpp:253 and 261 dereference the result of GetEmbeddedTexture unchecked, which is null for a missing one; that case is not modelled.
- Resources.ResourceManager.ImportTextureFromAssimp: stb_image's forcing of four channels for embedded textures is part of the decoded input.
- Resources.ResourceManager.LoadCubemapFromFiles: files beyond the sixth are taken as further face indices, as the loop over all files does.
- Resources.ResourceManager.GetMaterialInstance: for an unknown name in a non-empty cache, the source dereferences the null entry it created. The model returns null there.
- Resources.ResourceManager.ImportNode: assimp's Decompose and glm::eulerAngles are taken as given in the imported node. Its contract states that each created entity hangs under an earlier entity of the same import, not the exact tree shape.
- The entity manager is abstracted as Resources.World. Creating an entity is an event; Renderer, PointLight and Mesh3D components are recorded as events, not built. So Resources.ResourceManager.ImportMeshInto does not run the Renderer constructor: building it (Renderer.cpp:21-22) calls GetTexture("default_normal"), which on first use adds that placeholder to the texture cache, and substitutes the "default" texture for a null one. The model's texture cache does not get that entry.
- Renderer's GetDiffuseTexture and GetNormalMap getters are read as fields.
- SceneGraph.Hierarchy.DeleteEntity: EntityManager::deleteEntity (not part of this model) is taken to mark the entity deleted and log one delete request, without invalidating the entity's transform again. The source's comment at Transform.cpp:74 warns that the real call may lead back into Invalidate; that re-entry is not modelled.
- Component::Invalidate (Component.cpp is not part of this model) is taken to set the component's deleted flag, which the updater reads.
- SceneGraph.Hierarchy.SetParent follows the code: it does not remove the node from its old parent's children and does not mark it dirty.
- SceneGraph.Hierarchy.SetGlobalPosition follows the code: it only subtracts the parent's global position and does not undo the parent's scale or rotation (see SceneGraph.SetGlobalPositionUnderScaledParent).
- SceneGraph.Hierarchy.SetGlobalRotation follows the code where it stores the requested rotation unnormalised under a parent. The back-solve through the inverse parent matrix is left out, as above.
- SceneGraph.Hierarchy.AddTransform follows the code: the constructor stores the rotation unnormalised.
- SceneGraph.Hierarchy.AddTransform: the initial dirty flag is an input, because Transform.h is not part of this model. A new node holds the identity matrix, so SceneGraph.Coherent (which UpdatedCoherent and UpdatedModelMatrix require) survives construction only when that flag is true.
- SceneGraph.Hierarchy.SetGlobalScale: requires every component of the parent's global scale to be non-zero. Transform.cpp:166-172 divides by those components unchecked and stores infinities or NaNs when one is zero; that case is not modelled.
- Shading.Shader.ApplyTexture2D: uses the corrected unit guard of the Findings row (refuse a unit at or above the number of units), not the `>` of Shader.cpp:75. Only at unit == maxUnits do the two differ, and there the source binds one unit past the last.
- Components.Renderer.ApplyData: binds through the same corrected guard. Renderer.cpp:38-41 only passes the diffuse and normal units, so its behaviour is not affected.
- Animation.Animator.Update: requires the current state index to be in range. Animator.cpp:11 indexes the state list unchecked, so an Update after the last state has exited reads past the end of the vector; that call is not modelled.
- Sorting.SortBy: an insertion sort stands in for std::sort. The lemmas rely only on its order and permutation, but Rendering.RenderingSystem.PrepareLighting, Rendering.RenderingSystem.Draw and Rendering.OverlayPass are tied to LightingFor, OverlayCalls and FrameCalls, which fix the stable order among lights at equal distance and sprites at equal depth. std::sort leaves that order unspecified, and with more than MAX_LIGHTS lights at one distance it also decides which of them are bound.

## Findings

| source | as written | input that shows it | evidently intended | confidence | as-written member | corrected member |
|---|---|---|---|---|---|---|
| project/engine/src/utilities/Quaternion.cpp:155-165 | q2 is negated when the dot product is non-negative and kept when it is negative | Lerp(identity, identity, 0.5) gives the zero quaternion | negate q2 only when the dot product is negative, so the interpolation takes the short path | not executed | Quaternions.LerpAsWrittenCollapses | Quaternions.LerpShortPath |
| project/engine/src/utilities/rendering/Shader.cpp:72-79 | a texture unit is refused only when it is greater than the number of combined units | unit == maxUnits passes the guard | refuse any unit at or above the number of units | not executed | Shading.AcceptsOnePastLastUnit | Shading.AcceptsUnitExactly |
