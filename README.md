# Game engine bookkeeping, modelled in Dafny

This project models the bookkeeping core of a small SDL/OpenGL sample game
engine: the containers that record which actors, components and resources
exist, and the rules that change them. Everything that talks to SDL, OpenGL
or FMOD, and all floating-point vector and matrix math, is outside the model.

- `vector_ops.dfy` (module `VectorOps`) holds the `std::vector` operations the
  engine uses, written as functions on sequences:
  - `std::find`;
  - swap-with-last-and-pop removal;
  - the linear-scan sorted insert;
  - find-then-erase;
  - the dead-actor scan.
  It also holds their lemmas: sortedness, stability, permutation, and the
  independence of the final sprite order from the registration order.
- `resource_cache.dfy` (module `ResourceCache`) models `unordered_map::emplace`
  and the load-once cache lookup behind `GetTexture` and `GetMesh`. The loader
  is an oracle whose outcome is an input.
- `frame_timing.dfy` (module `FrameTiming`) models the frame pacing at the top
  of `UpdateGame`:
  - `SDL_GetTicks` as an unsigned 32-bit millisecond counter, with
    wrap-around;
  - `SDL_TICKS_PASSED`;
  - the busy-wait, over a given sequence of clock readings;
  - the clamp of the delta at 50 ms.
- `actors.dfy` (module `Actors`) models the base `Component`, which registers
  itself with its owner's update-ordered component list on construction and
  deregisters on destruction.
- `rendering.dfy` (module `Rendering`) models:
  - the `Renderer` class: the texture, mesh and shader caches, the
    draw-order-sorted sprite list, the mesh components partitioned by shader
    name, the current shader, the lights and view;
  - the sprite and mesh components, which register with it;
  - `Draw`, as an ordered trace of abstract GPU calls.
- `game.dfy` (module `GameLoop`) models the `Game` class:
  - the live and pending actor lists, and the updating flag that routes new
    actors between them;
  - removal by swap-and-pop;
  - the Chapter 6 and Chapter 7 `UpdateGame`: pacing, actor pass, splice of
    pending actors, reaping of dead actors, and the Chapter 7 bouncing sphere;
  - `UnloadData`.
- `ai.dfy` (module `AI`) models the Chapter 4 AI component, a state machine
  over named states. The `OnEnter`/`OnExit`/`Update` calls are recorded in a
  trace.

Actors and components are objects, so their identity is reference identity.
Each deletion is modelled as the one effect the engine relies on it having.
For an actor, that is its `RemoveActor` call. For a component, it is its
deregistration.

## Model

| member | source | states |
|---|---|---|
| `VectorOps.IndexOf` | Chapter06/Game.cpp:262 | The position `std::find` stops at: it holds the element, and no earlier position does. |
| `VectorOps.Find` | Chapter06/Renderer.cpp:171 | The loop returns the first position holding the element, or the length when it is absent. |
| `VectorOps.SwapPopMultiset` | Chapter06/Game.cpp:266-267 | Swapping position i with the back and popping removes exactly the element at i, counted as a multiset. |
| `VectorOps.SwapRemove` | Chapter06/Game.cpp:259-277 | The removal RemoveActor applies to each list: find the actor, swap it with the back and pop, or do nothing when it is absent. Its properties are stated by `SwapRemoveSpec`. |
| `VectorOps.SwapRemoveSpec` | Chapter06/Game.cpp:259-277 | Removing an absent actor leaves the list unchanged. Removing a present one shortens it by one and takes away one occurrence. On a list without repeats, the actor is then gone and no repeats appear. |
| `VectorOps.Select` | Chapter06/Game.cpp:102-109 | Every selected element comes from the list and has the wanted state. Every element with the wanted state is selected. |
| `VectorOps.SelectSplit` | Chapter06/Game.cpp:101-114 | The dead and the living selections together are the list, as a multiset. |
| `VectorOps.SelectSnoc` | Chapter06/Game.cpp:103-109 | The scan can run left to right: one more element extends the selection by that element exactly when it matches. |
| `VectorOps.SelectDistinct` | Chapter06/Game.cpp:103-109 | Selecting from a list without repeats gives a list without repeats. |
| `VectorOps.InsertPos` | Chapter06/Renderer.cpp:155-164 | The scan stops at the first sprite whose draw order is strictly greater. Everything before that point has a draw order no greater. |
| `VectorOps.InsertSorted` | Chapter06/Renderer.cpp:152-167 | The sorted insert AddSprite performs: the sprite goes in at the first position whose draw order is strictly greater. Its properties are stated by `InsertSortedShape` and `InsertSortedSorted`. |
| `VectorOps.InsertSortedShape` | Chapter06/Renderer.cpp:166 | The insert adds exactly the new element at the stopping point. The list grows by one, and the old elements keep their relative order. |
| `VectorOps.InsertSortedSorted` | Chapter06/Renderer.cpp:152-167 | A sorted list stays sorted. The insert is stable: the new sprite lands after every sprite with an equal draw order and before every greater one. |
| `VectorOps.EraseAtSpec` | Chapter06/Renderer.cpp:172 | Erasing at a position removes that one element, as a multiset, and keeps a sorted list sorted. |
| `VectorOps.RemoveFirst` | Chapter06/Renderer.cpp:169-173 | erase(find(x)) on a list that holds x: the first occurrence is erased and the rest keep their order. Its properties are stated by `RemoveFirstSpec`. |
| `VectorOps.RemoveFirstSpec` | Chapter06/Renderer.cpp:169-173 | Find-then-erase removes one occurrence and keeps a sorted list sorted. |
| `VectorOps.InsertThenRemove` | Chapter05/SpriteComponent.cpp:15-23 | Registering a new element and then removing it gives back the original list. |
| `VectorOps.SortedUnique` | Chapter06/Renderer.cpp:152-167 | Two sorted lists with the same elements and unique keys are equal. |
| `VectorOps.InsertAllSpec` | Chapter06/Renderer.cpp:152-167 | A run of sorted inserts keeps the list sorted and adds exactly the inserted elements. |
| `VectorOps.InsertionOrderIrrelevant` | Chapter06/Renderer.cpp:152-167 | With distinct draw orders, registering the same sprites in any order gives the same sorted list. |
| `ResourceCache.Emplace` | Chapter06/Renderer.cpp:270 | Emplace adds the key. It stores the value only when the key was absent, and leaves every other entry unchanged. |
| `ResourceCache.EmplaceFirstWins` | Chapter04/AIComponent.cpp:53-56 | Under emplace, the first value stored under a key wins. |
| `ResourceCache.CacheGet` | Chapter06/Renderer.cpp:203-225 | A hit returns the cached handle and leaves the cache as it is. A successful miss inserts the loaded handle and returns it. A failed miss returns nothing and leaves the cache as it is. |
| `ResourceCache.CacheHitIgnoresLoader` | Chapter06/Renderer.cpp:206-210 | On a hit, the loader's outcome makes no difference. |
| `ResourceCache.CacheGetTwice` | Chapter06/Renderer.cpp:206-217 | After a successful load, a second lookup returns the same handle and changes nothing. |
| `ResourceCache.CacheFailureLeavesCache` | Chapter06/Renderer.cpp:218-222 | A failed load leaves the cache unchanged, so a later lookup loads again. |
| `FrameTiming.TicksPassed` | Chapter06/Game.cpp:80 | SDL_TICKS_PASSED(a, b): the 32-bit difference b - a, read as a signed number, is at most 0. `FirstPass` and `PassedMeansSixteen` state what the wait gets from it. |
| `FrameTiming.ClampDelta` | Chapter06/Game.cpp:81-85 | The delta in whole milliseconds, capped at 50. `ClampDeltaIsMin` states that it is min(elapsed, 50). |
| `FrameTiming.ClampDeltaIsMin` | Chapter06/Game.cpp:81-85 | The delta is min(elapsed, 50 ms). |
| `FrameTiming.FirstPass` | Chapter06/Game.cpp:80 | The busy-wait stops at the first clock reading that passes mTicksCount + 16. |
| `FrameTiming.PassedMeansSixteen` | Chapter06/Game.cpp:80 | When the counter does not wrap, a reading passes the target only after at least 16 ms. |
| `FrameTiming.FramePacing` | Chapter06/Game.cpp:78-86 | One frame's pacing: wait for the first reading that passes mTicksCount + 16, take the delta from the next reading, and the new mTicksCount from the one after. `FrameDeltaBounds` bounds its delta. |
| `FrameTiming.FrameDeltaBounds` | Chapter07/Game.cpp:153-159 | On a clock that moves forward and does not wrap, the delta handed to the actors is between 16 and 50 ms. |
| `Actors.Actor.AddComponent` | Chapter07/Component.cpp:15 | The component goes into the owner's list by sorted insert on update order. |
| `Actors.Actor.RemoveComponent` | Chapter07/Component.cpp:20 | The component is erased from the owner's list when present. Otherwise nothing changes. |
| `Actors.Component.constructor` | Chapter07/Component.cpp:12-16 | The constructor stores the owner and the update order, then registers the component once in the owner's sorted list. |
| `Actors.Component.Destroy` | Chapter07/Component.cpp:18-21 | The component is removed from the owner's list. |
| `Actors.Component.Update` | Chapter07/Component.cpp:23-25 | The base update changes nothing: the method may modify no object. |
| `Actors.ConstructThenDestroy` | Chapter07/Component.cpp:12-21 | Constructing a component and destroying it leaves the owner's list as it was. |
| `Rendering.Mesh.TextureAt` | Chapter07/MeshComponent.cpp:37 | The mesh has a texture at the index exactly when the index is within its texture list. |
| `Rendering.SpriteComponent.constructor` | Chapter05/SpriteComponent.cpp:15-18 | The new sprite has a null texture, size 0 x 0 and the given draw order. It is inserted once into the renderer's sorted sprite list, which stays sorted. |
| `Rendering.SpriteComponent.Destroy` | Chapter05/SpriteComponent.cpp:20-23 | The sprite is removed from the sprite list, which stays sorted. |
| `Rendering.SpriteComponent.Draw` | Chapter05/SpriteComponent.cpp:25-40 | Without a texture it issues nothing. With one, it issues world transform, texture activation and quad draw, in that order. |
| `Rendering.SpriteComponent.SetTexture` | Chapter05/SpriteComponent.cpp:42-48 | The texture is stored, together with its width and height. |
| `Rendering.AddToPartition` | Chapter06/Renderer.cpp:175-191 | For a known shader name, the component is appended to that name's list. For a new name, a one-element list is created. Every other list is unchanged. |
| `Rendering.RemoveFromPartition` | Chapter06/Renderer.cpp:193-201 | The intended removal: the first occurrence of the component leaves the shader's list, the rest keep their order (their draw order), and every other list is unchanged. |
| `Rendering.RemoveFromCopy` | Chapter06/Renderer.cpp:193-201 | RemoveMeshComp as written: the erase works on a copy of the shader's list, so the registry is returned unchanged. `RemoveAsWrittenLeavesComponent` states the consequence. |
| `Rendering.RemoveAsWrittenLeavesComponent` | Chapter06/Renderer.cpp:193-201 | As written, removing a component that was just added leaves the registry exactly as it was. The component stays in its shader's list, and that group's next draw still ends with the component's calls, including its mesh draw when it has a mesh. |
| `Rendering.RemoveUndoesAdd` | Chapter06/Renderer.cpp:175-201 | With the corrected removal, adding a new component and removing it restores every list. The one exception is that a new shader name keeps an empty list. |
| `Rendering.MeshComponent.constructor` | Chapter07/MeshComponent.cpp:18-21 | The new component has a null mesh and texture index 0, and AddMeshComp is called once with it. The model adds a shader-name parameter that the source constructor does not take; it stands for `GetShaderName`, fixed for the component's life. |
| `Rendering.MeshComponent.Destroy` | Chapter07/MeshComponent.cpp:23-26 | The destructor deregisters the component through the corrected RemoveMeshComp. |
| `Rendering.MeshComponent.SetMesh` | Chapter07/Game.cpp:285 | The mesh that Draw guards on is stored. |
| `Rendering.MeshComponent.Draw` | Chapter07/MeshComponent.cpp:28-48 | Draw appends exactly the calls the component draws with. |
| `Rendering.MeshDrawGuards` | Chapter07/MeshComponent.cpp:28-48 | Without a mesh, Draw issues nothing. With one, it ends by binding the vertex array and drawing the mesh, and it activates a texture exactly when the mesh has one at the index. |
| `Rendering.MeshPassStep` | Chapter06/Renderer.cpp:125-133 | Each shader group of the mesh phase activates the group's shader, when it is loaded, and then draws the group's components with the current shader. |
| `Rendering.SpritesDrawnAppend` | Chapter06/Renderer.cpp:144-147 | The sprites drawn by two runs of calls, one after the other, are those of the first followed by those of the second. |
| `Rendering.SpritePassOrder` | Chapter06/Renderer.cpp:144-147 | The sprite phase draws exactly the textured sprites, in sprite-list order. |
| `Rendering.MeshPassDrawsNoSprite` | Chapter06/Renderer.cpp:124-133 | The mesh phase draws no sprite. |
| `Rendering.SpritePassDrawsNoMesh` | Chapter06/Renderer.cpp:134-147 | The sprite phase draws no mesh. |
| `Rendering.FrameCalls` | Chapter06/Renderer.cpp:108-150 | The calls of one frame: the mesh-phase setup, each shader group, the sprite-phase setup, each sprite, then the swap. `FrameMeshesBeforeSprites`, `FrameDrawsTexturedSprites` and `FrameDrawsSpritesInDrawOrder` state its properties. |
| `Rendering.FrameMeshesBeforeSprites` | Chapter06/Renderer.cpp:108-150 | In a frame, every mesh draw comes before every sprite draw. |
| `Rendering.FrameDrawsTexturedSprites` | Chapter06/Renderer.cpp:108-150 | A frame draws exactly the textured sprites, in sprite-list order. |
| `Rendering.TexturedSorted` | Chapter06/Renderer.cpp:144-147 | The textured sprites of a sorted list are sorted. |
| `Rendering.FrameDrawsSpritesInDrawOrder` | Chapter06/Renderer.cpp:108-150 | On a sorted sprite list, a frame draws sprites by non-decreasing draw order. |
| `Rendering.Renderer.constructor` | Chapter06/Renderer.cpp:19-21 | There is no current shader, the caches and registries are empty, and the point-light list is empty (Chapter06/Renderer.h:93). |
| `Rendering.Renderer.AddSprite` | Chapter06/Renderer.cpp:152-167 | The loop finds the insertion point, and the sprite list becomes the stable sorted insert of the sprite. |
| `Rendering.Renderer.RemoveSprite` | Chapter06/Renderer.cpp:169-173 | The sprite must be present. Its first occurrence is erased, and the order of the rest is kept. |
| `Rendering.Renderer.AddMeshComp` | Chapter06/Renderer.cpp:175-191 | The registry becomes the partition with the component appended under its shader name. |
| `Rendering.Renderer.RemoveMeshCompAsWritten` | Chapter06/Renderer.cpp:193-201 | The shader name must be a key. The method changes nothing, so its ensures only records that the registry is left exactly as it was. The consequence, that the destroyed component is drawn again, is stated by `RemoveAsWrittenLeavesComponent`. |
| `Rendering.Renderer.RemoveMeshComp` | Chapter06/Renderer.cpp:193-201 | The corrected removal: the registry becomes the partition with the component erased from its shader's list. |
| `Rendering.Renderer.GetTexture` | Chapter06/Renderer.cpp:203-225 | This is the cache lookup. On a miss, a texture comes back exactly when the load succeeds, and it is new and has the loaded size. |
| `Rendering.Renderer.GetMesh` | Chapter06/Renderer.cpp:227-249 | This is the cache lookup. On a miss, a mesh comes back exactly when the load succeeds, and it is new, with the loaded textures, specular power and index count. |
| `Rendering.Renderer.SetCurrentShader` | Chapter06/Renderer.cpp:251-262 | It succeeds exactly for a loaded name, which then becomes current and is activated. Otherwise the current shader is unchanged. |
| `Rendering.Renderer.LoadShader` | Chapter06/Renderer.cpp:264-279 | On success the new shader becomes current and is emplaced under the name, even when the name is taken. On failure nothing changes. |
| `Rendering.Renderer.UnloadData` | Chapter06/Renderer.cpp:83-106 | The texture, mesh and shader caches are emptied. |
| `Rendering.Renderer.SetViewMatrix` | Chapter06/Renderer.h:55 | Only the view matrix changes. |
| `Rendering.Renderer.SetAmbientLight` | Chapter06/Renderer.h:56 | Only the ambient light changes. |
| `Rendering.Renderer.GetDirectionalLight` | Chapter06/Renderer.h:57 | It returns the renderer's own directional light, so writes through it change the renderer. |
| `Rendering.Renderer.GetPointLights` | Chapter06/Renderer.h:58 | It returns the renderer's own point-light list, so appends through it persist. |
| `Rendering.PointLightList.Add` | Chapter06/Game.cpp:177-207 | emplace_back through the pointer GetPointLights returns appends the light at the back of the renderer's own list. |
| `Rendering.Renderer.Draw` | Chapter06/Renderer.cpp:108-150 | The frame's calls are, in order: the mesh-phase setup, each shader group of the registry, the sprite-phase setup, each sprite in list order, then the swap. The sprite shader is current at the end. |
| `Rendering.Renderer.BeginMeshPhase` | Chapter06/Renderer.cpp:110-123 | It clears, enables depth, disables blending and makes the "Mesh" shader current with its uniforms. |
| `Rendering.Renderer.SpritePhase` | Chapter06/Renderer.cpp:134-149 | It disables depth, enables blending, makes the "Sprite" shader current with the sprite quad, draws each sprite, and swaps. |
| `Rendering.Renderer.DrawMeshPass` | Chapter06/Renderer.cpp:124-133 | The loop over the shader names issues exactly the mesh phase of the frame. |
| `Rendering.Renderer.DrawShaderGroup` | Chapter06/Renderer.cpp:127-132 | One group: its shader becomes current, when it is loaded, and its components are drawn. |
| `Rendering.Renderer.DrawMeshList` | Chapter06/Renderer.cpp:129-132 | The inner loop draws each component of a group, in order. |
| `Rendering.Renderer.DrawSpritePass` | Chapter06/Renderer.cpp:144-147 | The sprite loop draws each sprite, in list order. |
| `Rendering.RegistrationOrderIrrelevant` | Chapter06/Renderer.cpp:152-167 | With distinct draw orders, the sprite list does not depend on the order in which sprites were constructed. |
| `GameLoop.BounceStep` | Chapter07/Game.cpp:163-176 | One frame of the sphere: move 5 down while at or above -1000, move 5 up while at or below 1000, otherwise flip the direction in place. `BounceMovesOrTurns` and `BounceStaysInBand` state its properties. |
| `GameLoop.BounceMovesOrTurns` | Chapter07/Game.cpp:163-176 | Each frame the sphere either moves exactly 5 in its direction, or keeps its height and turns. It turns exactly when it has gone past the limit it is heading for. |
| `GameLoop.NoDoubleTurn` | Chapter07/Game.cpp:163-176 | A turn is always followed by a move. |
| `GameLoop.BounceStaysInBand` | Chapter07/Game.cpp:164-171 | A height within [-1005, 1005] stays there after one frame. |
| `GameLoop.BouncesStayInBand` | Chapter07/Game.cpp:164-171 | A height within [-1005, 1005] stays there for any number of frames. |
| `GameLoop.SphereStaysInBand` | Chapter07/Game.cpp:282 | The sphere placed at y = -75 stays within [-1005, 1005] forever, whatever the uninitialised direction. |
| `GameLoop.SwapRemoveAppended` | Chapter06/Game.cpp:246-277 | Swap-removing the actor just appended gives back the list. |
| `GameLoop.RemoveKeepsApart` | Chapter06/Game.cpp:259-277 | Removal keeps both lists free of repeats and of shared actors, and leaves the actor in neither. |
| `GameLoop.Game.constructor` | Chapter07/Game.cpp:20-22 | This is the state before LoadData lays out the level. There are no actors yet and the game is not updating. The direction is whatever the uninitialised field holds. The sphere starts at y = -75 (Chapter07/Game.cpp:282), and mTicksCount is read from the clock (Chapter07/Game.cpp:51). |
| `GameLoop.Game.AddActor` | Chapter06/Game.cpp:246-257 | While updating, the actor is appended to the pending list. Otherwise it is appended to the live list. The other list is unchanged, and a new actor keeps both lists free of repeats and shared actors. |
| `GameLoop.Game.RemoveActor` | Chapter06/Game.cpp:259-277 | Each list becomes its swap-and-pop removal of the actor. An absent actor changes nothing, and afterwards the actor is in neither list. |
| `GameLoop.Game.SwapAndPop` | Chapter07/Game.cpp:336-342 | Find, iter_swap with the back, then pop_back, is the swap-and-pop removal. |
| `GameLoop.Game.PaceFrame` | Chapter06/Game.cpp:80-86 | The wait loop and the two further readings give the clamped delta and the new tick count that the pacing specification defines. |
| `GameLoop.Game.TickActors` | Chapter06/Game.cpp:88-93 | While the flag is set, actors created during the pass go to the pending list, in order. The live list is not changed. |
| `GameLoop.Game.SplicePending` | Chapter06/Game.cpp:94-100 | The pending actors are appended to the live list in pending order, and the pending list is cleared. |
| `GameLoop.Game.CollectDead` | Chapter06/Game.cpp:101-109 | The temporary list holds the dead live actors, in list order. |
| `GameLoop.Game.Delete` | Chapter06/Game.cpp:113 | Deleting an actor removes one occurrence from each list. |
| `GameLoop.Game.DeleteActors` | Chapter06/Game.cpp:110-114 | Deleting the collected actors removes them, counted, from both lists. |
| `GameLoop.Game.ReapDead` | Chapter06/Game.cpp:101-114 | Afterwards the live list holds exactly its non-dead actors, each as often as before. |
| `GameLoop.Game.UpdateGame` | Chapter06/Game.cpp:76-115 | The frame is paced. The flag is cleared at the end and the pending list is empty. The live actors are exactly the non-dead ones among the old live, old pending and new actors. Repeat-free, disjoint lists stay so. |
| `GameLoop.Game.UpdateGameWithSphere` | Chapter07/Game.cpp:149-206 | As in Chapter 6, plus one bounce step of the sphere while the flag is set. |
| `GameLoop.Game.MoveSphere` | Chapter07/Game.cpp:163-176 | The sphere's height and direction take one bounce step. |
| `GameLoop.Game.Settle` | Chapter07/Game.cpp:183-203 | After the splice and the reaping, the pending list is empty and exactly the non-dead actors remain. |
| `GameLoop.Game.UnloadData` | Chapter06/Game.cpp:222-234 | Deleting the back actor until none is left terminates with an empty live list, and the renderer's caches are emptied. |
| `GameLoop.CreateThenDelete` | Chapter07/Game.h:24-25 | Outside the actor pass, creating an actor and deleting it leaves both lists as they were. |
| `AI.AIState.constructor` | Chapter04/AIComponent.cpp:31 | A state is known by its name. |
| `AI.ChangeOutcome` | Chapter04/AIComponent.cpp:26-51 | The new current state and the OnExit/OnEnter calls of ChangeState. `ChangeToCurrent`, `ChangeToRegistered` and `ChangeToUnregistered` state its three cases. |
| `AI.ChangeToCurrent` | Chapter04/AIComponent.cpp:28-34 | Changing to the current state's name calls nothing and keeps the state. |
| `AI.ChangeToRegistered` | Chapter04/AIComponent.cpp:35-45 | The old state is exited first. Then the named state becomes current and is entered exactly once, as the last call. |
| `AI.ChangeToUnregistered` | Chapter04/AIComponent.cpp:35-50 | The old state is still exited. Then there is no current state, and none is entered. |
| `AI.ChangeKeepsCurrentRegistered` | Chapter04/AIComponent.cpp:39-50 | The current state is always null or a registered state. |
| `AI.ChangeTwiceEntersOnce` | Chapter04/AIComponent.cpp:26-51 | A second request for the same name calls nothing, so the state is entered at most once. |
| `AI.RegisterKeepsNames` | Chapter04/AIComponent.cpp:53-56 | Every state stays registered under its own name, and an earlier state of the same name stays. |
| `AI.EnemyLifecycle` | Chapter04/Enemy.cpp:34-42 | Patrol is entered, then exited before death is entered, and the destructor's second "Death" request calls nothing. |
| `AI.AIComponent.constructor` | Chapter04/AIComponent.cpp:14-16 | A new component has no states and no current state. |
| `AI.AIComponent.Update` | Chapter04/AIComponent.cpp:18-24 | It delegates to the current state exactly when there is one. |
| `AI.AIComponent.ChangeState` | Chapter04/AIComponent.cpp:26-51 | The current state and the calls made are those of the change specification, and the registration invariant is kept. |
| `AI.AIComponent.RegisterState` | Chapter04/AIComponent.cpp:53-56 | The state is emplaced under its name, and the registration invariant is kept. |

## Left out

- SDL, OpenGL, GLEW and FMOD calls are left out: window and context creation, `Initialize`, `Shutdown`, `LoadShaders`, `CreateSpriteVerts`, shader compilation, texture and mesh file parsing, and audio. Loads are oracles whose success is a method parameter.
- Floating-point math is left out: matrices, vectors, quaternions, `SetLightUniforms` and the view-projection product. `Draw` keeps only the order of abstract calls, and light and matrix values are opaque data.
- Chapter04/NavComponent.cpp, Chapter04/MoveComponent.cpp, Chapter07/MoveComponent.cpp, Chapter05/VertexArray.cpp and Chapter04/SpriteComponent.cpp are not part of this model. Their content is steering math, GL buffer plumbing, or a duplicate of the Chapter 5 registration.
- `ProcessInput`, `HandleKeyPress` and the level layout of `LoadData` are left out. The one piece of `LoadData` kept is the sphere's start height.
- Actor.cpp is not part of this model. `Actor::AddComponent` is modelled as a sorted insert by update order. Deleting an actor is modelled only as its `RemoveActor` call. Deleting its components, and `ComputeWorldTransform` for spliced actors, are left out.
- An actor's `Update` is outside the model. The actors it creates, and the dead flag after the pass, are parameters of `UpdateGame`.
- Actors.Actor.RemoveComponent: Actor.cpp is not part of this model. Finding the component, erasing it when present and doing nothing when it is absent are assumed; Chapter07/Component.cpp:20 only calls it.
- Rendering.Mesh.TextureAt: Mesh.cpp is not part of this model. Returning null for an index past the end of the texture list is assumed; Chapter07/MeshComponent.cpp:37-41 only calls it and tests the result for null.
- Rendering.MeshComponent.constructor: MeshComponent.h is not part of this model. `GetShaderName`, whose result keys the registry at Chapter06/Renderer.cpp:178, 189 and 196, is assumed to return a name fixed when the component is built and unchanged when it is destroyed; the model takes that name as an extra constructor parameter. `RemoveUndoesAdd` and the finding below rely on this.
- Rendering.Renderer.GetMesh: Chapter06/Renderer.cpp:238 passes the renderer to `Mesh::Load`, and the mesh loader may load the mesh's textures through `GetTexture`, adding entries to the texture cache. The model's frame keeps the texture cache fixed during a mesh lookup, and the mesh's textures are a parameter unrelated to that cache.
- Rendering.SpriteComponent.constructor: the Chapter 5 Game, whose `AddSprite` Chapter05/SpriteComponent.cpp:17 calls, is not part of this model. That call is bound to the Chapter 6 `Renderer.AddSprite`, on the assumption that both keep the same draw-order-sorted sprite list.
- Rendering.SpriteComponent.Destroy: likewise, the Chapter 5 `Game::RemoveSprite` called at Chapter05/SpriteComponent.cpp:22 is bound to the Chapter 6 `Renderer.RemoveSprite`.
- The derived components (sprite, mesh, AI) do not repeat the base `Component` registration with the owner; that registration is modelled once in `Actors.Component`.
- The iteration order of the `unordered_map` of mesh components is unspecified. `Draw` receives it as a parameter `names`, and no order between shader groups is promised.
- GameLoop.Game.PaceFrame: the clock is a finite sequence of readings, and the wait is required to end within it. The real loop spins until the clock gets there.
- FrameTiming.FrameDeltaBounds: the lower bound of 16 ms is proved only for a clock that does not wrap its 32-bit counter within the frame. The delta itself is modelled with wrap-around.
- `SDL_Log` on an unknown AI state name is left out.
- The sphere's position is a float vector. Only its height is modelled, as an integer, which is exact for the values it takes (multiples of 5 from -75).
- Rendering.SpriteComponent.SetTexture takes a non-null texture, because the source dereferences it.
- Rendering.MeshComponent.Destroy and the corrected Renderer.RemoveMeshComp follow the evidently intended removal rather than the code as written (see Findings).
- `mIsRunning`, `GetScreenWidth`/`GetScreenHeight`, `mProjection`, `pSpriteVerts` and the audio system are not modelled, because nothing in the modelled bookkeeping depends on them.

## Findings

| source | as written | input that shows it | evidently intended | confidence | as-written member | corrected member |
|---|---|---|---|---|---|---|
| Chapter06/Renderer.cpp:193-201 | `RemoveMeshComp` copies the shader's vector out of `mMeshComps`, erases the component from the copy, and discards it, so the registry never changes | Construct a mesh component with shader name "Mesh", then destroy it: the destroyed component is still in `mMeshComps["Mesh"]`, and the next `Draw` calls into it | Erase the component from the registry's own vector, so that construct-then-destroy restores the registry | not executed | `Rendering.RemoveAsWrittenLeavesComponent` | `Rendering.RemoveUndoesAdd` |
