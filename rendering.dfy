/** The renderer's bookkeeping: the draw-order-sorted sprite list, the mesh
    components partitioned by shader name, the load-once texture, mesh and
    shader caches, the current shader, the lighting state, and the frame's
    draw calls as an abstract trace. Sprite and mesh components live here too,
    because they register with the renderer when built and the renderer draws
    them. */
module Rendering {
  import opened VectorOps
  import opened ResourceCache
  import opened Actors

  // ---------------------------------------------------------------------
  // Resources. Their contents come from files; the model keeps only what
  // the core reads from them.

  class Texture {
    const width: int
    const height: int

    constructor(width: int, height: int)
      ensures this.width == width && this.height == height
    {
      this.width := width;
      this.height := height;
    }
  }

  class Mesh {
    const textures: seq<Texture>
    const specPower: real
    const indexCount: nat

    constructor(textures: seq<Texture>, specPower: real, indexCount: nat)
      ensures this.textures == textures && this.specPower == specPower && this.indexCount == indexCount
    {
      this.textures := textures;
      this.specPower := specPower;
      this.indexCount := indexCount;
    }

    /** Mesh::GetTexture: the texture at index, or null past the end. */
    function TextureAt(index: nat): (t: Texture?)
      ensures t != null <==> index < |textures|
      ensures t != null ==> t == textures[index]
    {
      if index < |textures| then textures[index] else null
    }
  }

  class Shader {
    constructor()
    {
    }
  }

  function TextureHandle(t: Texture?): Option<Texture>
  {
    if t == null then None else var h: Texture := t; Some(h)
  }

  function MeshHandle(m: Mesh?): Option<Mesh>
  {
    if m == null then None else var h: Mesh := m; Some(h)
  }

  // ---------------------------------------------------------------------
  // Lighting state.

  datatype Vector3 = Vector3(x: real, y: real, z: real)
  datatype Matrix4 = Matrix4(rows: seq<seq<real>>)

  datatype PointLight = PointLight(worldPos: Vector3, diffuseColor: Vector3, specColor: Vector3,
                                   innerRadius: real, outerRadius: real)

  /** The renderer's directional light, handed out by reference. */
  class DirectionalLight {
    var direction: Vector3
    var diffuseColor: Vector3
    var specColor: Vector3

    constructor()
    {
    }
  }

  /** The renderer's vector of point lights, handed out by pointer. */
  class PointLightList {
    var items: seq<PointLight>

    constructor()
      ensures items == []
    {
      items := [];
    }

    /** vector::emplace_back through the pointer GetPointLights returns. */
    method Add(light: PointLight)
      modifies this
      ensures items == old(items) + [light]
    {
      items := items + [light];
    }
  }

  // ---------------------------------------------------------------------
  // The graphics calls a frame issues, as abstract events.

  datatype GfxCall =
    | ClearBuffers                                    // glClear(color | depth)
    | DepthOnBlendOff                                 // depth test on, blending off
    | DepthOffBlendOn                                 // depth test off, alpha blending on
    | ShaderActive(shader: Shader)                    // Shader::SetActive
    | ViewProjUniform(shader: Shader)                 // "uViewProj"
    | LightUniforms(shader: Shader)                   // SetLightUniforms
    | SpriteQuadActive                                // the sprite quad's vertex array
    | WorldTransform(shader: Shader, owner: Actor)    // "uWorldTransform"
    | SpecPowerUniform(shader: Shader, mesh: Mesh)    // "uSpecPower"
    | TextureActive(texture: Texture)                 // Texture::SetActive
    | VertexArrayActive(mesh: Mesh)                   // the mesh's vertex array
    | DrawMesh(meshComp: MeshComponent, indexCount: nat)    // glDrawElements for a mesh
    | DrawSprite(sprite: SpriteComponent)             // glDrawElements for a sprite quad
    | SwapWindow                                      // SDL_GL_SwapWindow

  /** The GL command stream. */
  class Gpu {
    var calls: seq<GfxCall>

    constructor()
      ensures calls == []
    {
      calls := [];
    }
  }

  // ---------------------------------------------------------------------
  // Sprite components.

  /** The key the sprite list is ordered by. */
  function DrawOrderOf(s: SpriteComponent): int
  {
    s.drawOrder
  }

  class SpriteComponent {
    const owner: Actor
    const renderer: Renderer
    const drawOrder: int
    var texture: Texture?
    var texWidth: int
    var texHeight: int

    /** SpriteComponent::SpriteComponent: no texture, size 0 x 0, the given
        draw order, and registered once in the renderer's sorted sprite list. */
    constructor(owner: Actor, renderer: Renderer, drawOrder: int)
      requires renderer.Valid()
      modifies renderer`sprites
      ensures this.owner == owner && this.renderer == renderer && this.drawOrder == drawOrder
      ensures texture == null && texWidth == 0 && texHeight == 0
      ensures renderer.Valid()
      ensures renderer.sprites == InsertSorted(old(renderer.sprites), DrawOrderOf, this)
    {
      this.owner := owner;
      this.renderer := renderer;
      this.drawOrder := drawOrder;
      texture := null;
      texWidth := 0;
      texHeight := 0;
      new;
      renderer.AddSprite(this);
    }

    /** SpriteComponent::~SpriteComponent: deregisters from the sprite list. */
    method Destroy()
      requires renderer.Valid() && this in renderer.sprites
      modifies renderer`sprites
      ensures renderer.Valid()
      ensures renderer.sprites == RemoveFirst(old(renderer.sprites), this)
    {
      renderer.RemoveSprite(this);
    }

    /** The calls Draw issues: none without a texture. */
    function DrawCalls(shader: Shader): seq<GfxCall>
      reads this
    {
      if texture == null then []
      else [WorldTransform(shader, owner), TextureActive(texture), DrawSprite(this)]
    }

    method Draw(shader: Shader, gpu: Gpu)
      modifies gpu`calls
      ensures gpu.calls == old(gpu.calls) + DrawCalls(shader)
    {
      if texture != null {
        gpu.calls := gpu.calls + [WorldTransform(shader, owner)];
        gpu.calls := gpu.calls + [TextureActive(texture)];
        gpu.calls := gpu.calls + [DrawSprite(this)];
      }
    }

    /** SpriteComponent::SetTexture: the texture and its width and height. */
    method SetTexture(texture: Texture)
      modifies this`texture, this`texWidth, this`texHeight
      ensures this.texture == texture && texWidth == texture.width && texHeight == texture.height
    {
      this.texture := texture;
      texWidth := texture.width;
      texHeight := texture.height;
    }
  }

  // ---------------------------------------------------------------------
  // Mesh components and the shader partition.

  type Partition = map<string, seq<MeshComponent>>

  /** Renderer::AddMeshComp on the registry: append to the list of a known
      shader name, or start a one-element list for a new one. */
  function AddToPartition(m: Partition, name: string, mc: MeshComponent): (r: Partition)
    ensures r.Keys == m.Keys + {name}
    ensures r[name] == (if name in m then m[name] else []) + [mc]
    ensures forall n :: n in m && n != name ==> r[n] == m[n]
  {
    if name in m then m[name := m[name] + [mc]] else m[name := [mc]]
  }

  /** The evidently intended Renderer::RemoveMeshComp: erase mc from its
      shader's list in the registry itself. */
  function RemoveFromPartition(m: Partition, name: string, mc: MeshComponent): (r: Partition)
    requires name in m && mc in m[name]
    ensures r.Keys == m.Keys
    ensures var i := IndexOf(m[name], mc);
      r[name] == m[name][..i] + m[name][i + 1..]
    ensures multiset(r[name]) == multiset(m[name]) - multiset{mc}
    ensures forall n :: n in m && n != name ==> r[n] == m[n]
  {
    var list := m[name];
    var i := IndexOf(list, mc);
    assert list == list[..i] + [mc] + list[i + 1..];
    m[name := RemoveFirst(list, mc)]
  }

  /** Renderer::RemoveMeshComp as written, on the registry: the erase happens
      on a local copy of the shader's list, which is then discarded, so the
      registry comes back as it was. */
  function RemoveFromCopy(m: Partition, name: string, mc: MeshComponent): Partition
  {
    m
  }

  /** No shader list holds mc. */
  predicate Unregistered(m: Partition, mc: MeshComponent)
  {
    forall n :: n in m ==> mc !in m[n]
  }

  /** Finding: with the code as written, a mesh component that was added and
      then removed is still in the registry, and the next Draw of its shader
      group still ends with that component's calls: a destroyed component
      with a mesh is drawn again. */
  lemma RemoveAsWrittenLeavesComponent(m: Partition, name: string, mc: MeshComponent, shader: Shader)
    ensures var after := RemoveFromCopy(AddToPartition(m, name, mc), name, mc);
      && after == AddToPartition(m, name, mc)
      && mc in after[name]
      && MeshListCalls(after[name], shader) == MeshListCalls(ListOf(m, name), shader) + mc.DrawCalls(shader)
      && (mc.mesh != null ==> DrawMesh(mc, mc.mesh.indexCount) in MeshListCalls(after[name], shader))
  {
    var added := AddToPartition(m, name, mc);
    var list := added[name];
    assert list[|list| - 1] == mc;
    assert list[..|list| - 1] == ListOf(m, name);
    MeshDrawGuards(mc, shader);
    if mc.mesh != null {
      var calls := MeshListCalls(list, shader);
      assert calls[|calls| - 1] == DrawMesh(mc, mc.mesh.indexCount);
    }
  }

  /** The corrected removal undoes the add: every list is as it was, except that
      a shader name seen for the first time keeps an empty list. */
  lemma RemoveUndoesAdd(m: Partition, name: string, mc: MeshComponent)
    requires Unregistered(m, mc)
    ensures var added := AddToPartition(m, name, mc);
      mc in added[name] && RemoveFromPartition(added, name, mc) == (if name in m then m else m[name := []])
  {
    var old_ := if name in m then m[name] else [];
    var added := AddToPartition(m, name, mc);
    assert added[name] == old_ + [mc];
    assert mc !in old_;
    forall j | 0 <= j < |old_| ensures added[name][j] != mc {
      assert added[name][j] == old_[j];
    }
    assert IndexOf(added[name], mc) == |old_|;
    assert RemoveFirst(added[name], mc) == old_;
  }

  class MeshComponent {
    const owner: Actor
    const renderer: Renderer
    const shaderName: string
    var mesh: Mesh?
    var textureIndex: nat

    /** MeshComponent::MeshComponent: no mesh, texture index 0, and one
        AddMeshComp with the new component. The shader name the registry is
        keyed by (GetShaderName) is a constructor parameter, fixed for the
        component's life. */
    constructor(owner: Actor, renderer: Renderer, shaderName: string)
      modifies renderer`meshComps
      ensures this.owner == owner && this.renderer == renderer && this.shaderName == shaderName
      ensures mesh == null && textureIndex == 0
      ensures renderer.meshComps == AddToPartition(old(renderer.meshComps), shaderName, this)
    {
      this.owner := owner;
      this.renderer := renderer;
      this.shaderName := shaderName;
      mesh := null;
      textureIndex := 0;
      new;
      renderer.AddMeshComp(this);
    }

    /** MeshComponent::~MeshComponent: deregisters through the corrected
        RemoveMeshComp (see RemoveMeshCompAsWritten for the code as written). */
    method Destroy()
      requires shaderName in renderer.meshComps && this in renderer.meshComps[shaderName]
      modifies renderer`meshComps
      ensures renderer.meshComps == RemoveFromPartition(old(renderer.meshComps), shaderName, this)
    {
      renderer.RemoveMeshComp(this);
    }

    method SetMesh(mesh: Mesh?)
      modifies this`mesh
      ensures this.mesh == mesh
    {
      this.mesh := mesh;
    }

    /** The calls Draw issues: none without a mesh; the texture is activated
        only when the mesh has one at the index, and the vertex array is bound
        and drawn in any case. */
    function DrawCalls(shader: Shader): seq<GfxCall>
      reads this
    {
      if mesh == null then []
      else
        var t := mesh.TextureAt(textureIndex);
        [WorldTransform(shader, owner), SpecPowerUniform(shader, mesh)]
        + (if t == null then [] else [TextureActive(t)])
        + [VertexArrayActive(mesh), DrawMesh(this, mesh.indexCount)]
    }

    method Draw(shader: Shader, gpu: Gpu)
      modifies gpu`calls
      ensures gpu.calls == old(gpu.calls) + DrawCalls(shader)
    {
      if mesh != null {
        gpu.calls := gpu.calls + [WorldTransform(shader, owner)];
        gpu.calls := gpu.calls + [SpecPowerUniform(shader, mesh)];
        var t := mesh.TextureAt(textureIndex);
        if t != null {
          gpu.calls := gpu.calls + [TextureActive(t)];
        }
        gpu.calls := gpu.calls + [VertexArrayActive(mesh)];
        gpu.calls := gpu.calls + [DrawMesh(this, mesh.indexCount)];
      }
    }
  }

  /** What a mesh component's Draw promises: nothing without a mesh; with one,
      exactly one draw of it, preceded by a texture activation exactly when
      the mesh has a texture at the component's index. */
  lemma MeshDrawGuards(mc: MeshComponent, shader: Shader)
    ensures mc.mesh == null ==> mc.DrawCalls(shader) == []
    ensures mc.mesh != null ==>
      var calls := mc.DrawCalls(shader);
      && calls[|calls| - 1] == DrawMesh(mc, mc.mesh.indexCount)
      && calls[|calls| - 2] == VertexArrayActive(mc.mesh)
      && (|calls| == 5 <==> mc.mesh.TextureAt(mc.textureIndex) != null)
  {
  }

  // ---------------------------------------------------------------------
  // The frame's draw calls.

  /** The registry's list for a shader name; the map is only ever visited at
      its own keys, so the empty default is never used by Renderer::Draw. */
  function ListOf(parts: Partition, name: string): seq<MeshComponent>
  {
    if name in parts then parts[name] else []
  }

  /** The shader current after SetCurrentShader(name), starting from cur. */
  function ShaderAfter(name: string, shaders: map<string, Shader>, cur: Shader): Shader
  {
    if name in shaders then shaders[name] else cur
  }

  /** The call SetCurrentShader(name) issues when the name is loaded. */
  function Activation(name: string, shaders: map<string, Shader>): seq<GfxCall>
  {
    if name in shaders then [ShaderActive(shaders[name])] else []
  }

  /** Draw each mesh component of a list with the given shader. */
  function MeshListCalls(list: seq<MeshComponent>, shader: Shader): seq<GfxCall>
    reads set mc | mc in list
  {
    if list == [] then []
    else MeshListCalls(list[..|list| - 1], shader) + list[|list| - 1].DrawCalls(shader)
  }

  lemma MeshListCallsSnoc(list: seq<MeshComponent>, k: nat, shader: Shader)
    requires k < |list|
    ensures MeshListCalls(list[..k + 1], shader) == MeshListCalls(list[..k], shader) + list[k].DrawCalls(shader)
  {
    assert list[..k + 1][..k] == list[..k];
  }

  lemma SpritePassSnoc(sprites: seq<SpriteComponent>, k: nat, shader: Shader)
    requires k < |sprites|
    ensures SpritePass(sprites[..k + 1], shader) == SpritePass(sprites[..k], shader) + sprites[k].DrawCalls(shader)
  {
    assert sprites[..k + 1][..k] == sprites[..k];
  }

  /** The mesh phase after its setup: for each shader name in the order the map
      is visited, activate that shader and draw its list with the shader then
      current. */
  function MeshPass(names: seq<string>, parts: Partition, shaders: map<string, Shader>, cur: Shader): seq<GfxCall>
    reads set n, mc | n in parts && mc in parts[n] :: mc
    decreases |names|
  {
    if names == [] then []
    else
      var next := ShaderAfter(names[0], shaders, cur);
      Activation(names[0], shaders) + MeshListCalls(ListOf(parts, names[0]), next)
        + MeshPass(names[1..], parts, shaders, next)
  }

  /** One unfolding of the mesh phase at position i of the names. */
  lemma MeshPassStep(names: seq<string>, i: nat, parts: Partition, shaders: map<string, Shader>, cur: Shader)
    requires i < |names|
    ensures MeshPass(names[i..], parts, shaders, cur)
      == Activation(names[i], shaders) + MeshListCalls(ListOf(parts, names[i]), ShaderAfter(names[i], shaders, cur))
         + MeshPass(names[i + 1..], parts, shaders, ShaderAfter(names[i], shaders, cur))
  {
    assert names[i..][1..] == names[i + 1..];
  }

  lemma FiveAssoc<T>(s: seq<T>, a: seq<T>, b: seq<T>, c: seq<T>, d: seq<T>, e: seq<T>)
    ensures s + a + b + c + d + e == s + (a + b + c + d + e)
  {
    calc {
      s + a + b + c + d + e;
      (s + (a + b)) + c + d + e;
      (s + (a + b + c)) + d + e;
      (s + (a + b + c + d)) + e;
      s + (a + b + c + d + e);
    }
  }

  lemma SeqAssoc3<T>(a: seq<T>, b: seq<T>, c: seq<T>)
    ensures a + b + c == a + (b + c)
  {
  }

  lemma SeqAssoc<T>(a: seq<T>, b: seq<T>, c: seq<T>, d: seq<T>)
    ensures a + (b + c + d) == (a + b + c) + d
  {
  }

  /** The sprite phase after its setup: each sprite in list order. */
  function SpritePass(sprites: seq<SpriteComponent>, shader: Shader): seq<GfxCall>
    reads set s | s in sprites
  {
    if sprites == [] then []
    else SpritePass(sprites[..|sprites| - 1], shader) + sprites[|sprites| - 1].DrawCalls(shader)
  }

  /** The calls that open the mesh phase. */
  function MeshPhaseSetup(meshShader: Shader): seq<GfxCall>
  {
    [ClearBuffers, DepthOnBlendOff, ShaderActive(meshShader), ViewProjUniform(meshShader), LightUniforms(meshShader)]
  }

  /** The calls that open the sprite phase. */
  function SpritePhaseSetup(spriteShader: Shader): seq<GfxCall>
  {
    [DepthOffBlendOn, ShaderActive(spriteShader), SpriteQuadActive]
  }

  /** The whole frame, in the fixed phase order of Renderer::Draw. */
  function FrameCalls(names: seq<string>, parts: Partition, shaders: map<string, Shader>,
                      sprites: seq<SpriteComponent>): seq<GfxCall>
    requires "Mesh" in shaders && "Sprite" in shaders
    reads set n, mc | n in parts && mc in parts[n] :: mc, set s | s in sprites
  {
    var meshShader, spriteShader := shaders["Mesh"], shaders["Sprite"];
    MeshPhaseSetup(meshShader) + MeshPass(names, parts, shaders, meshShader)
    + SpritePhaseSetup(spriteShader) + SpritePass(sprites, spriteShader) + [SwapWindow]
  }

  /** The sprites a sequence of calls draws, in order. */
  function SpritesDrawn(calls: seq<GfxCall>): seq<SpriteComponent>
  {
    if calls == [] then []
    else
      var last := calls[|calls| - 1];
      SpritesDrawn(calls[..|calls| - 1]) + (if last.DrawSprite? then [last.sprite] else [])
  }

  lemma {:induction false} SpritesDrawnAppend(a: seq<GfxCall>, b: seq<GfxCall>)
    ensures SpritesDrawn(a + b) == SpritesDrawn(a) + SpritesDrawn(b)
    decreases |b|
  {
    if b != [] {
      var b' := b[..|b| - 1];
      assert a + b == (a + b') + [b[|b| - 1]];
      assert (a + b)[..|a + b| - 1] == a + b';
      SpritesDrawnAppend(a, b');
    } else {
      assert a + b == a;
    }
  }

  lemma SpritesDrawnSingle(c: GfxCall)
    ensures SpritesDrawn([c]) == if c.DrawSprite? then [c.sprite] else []
  {
    assert [c][..0] == [];
  }

  /** The sprites that have a texture, in list order. */
  function Textured(sprites: seq<SpriteComponent>): seq<SpriteComponent>
    reads set s | s in sprites
  {
    if sprites == [] then []
    else
      var last := sprites[|sprites| - 1];
      Textured(sprites[..|sprites| - 1]) + (if last.texture != null then [last] else [])
  }

  /** The sprite phase draws exactly the textured sprites, in list order. */
  lemma {:induction false} SpritePassOrder(sprites: seq<SpriteComponent>, shader: Shader)
    ensures SpritesDrawn(SpritePass(sprites, shader)) == Textured(sprites)
    decreases |sprites|
  {
    if sprites != [] {
      var init, last := sprites[..|sprites| - 1], sprites[|sprites| - 1];
      SpritePassOrder(init, shader);
      SpritesDrawnAppend(SpritePass(init, shader), last.DrawCalls(shader));
      if last.texture != null {
        var w, t, d := WorldTransform(shader, last.owner), TextureActive(last.texture), DrawSprite(last);
        assert last.DrawCalls(shader) == [w] + [t] + [d];
        SpritesDrawnAppend([w] + [t], [d]);
        SpritesDrawnAppend([w], [t]);
        SpritesDrawnSingle(w);
        SpritesDrawnSingle(t);
        SpritesDrawnSingle(d);
      } else {
        assert last.DrawCalls(shader) == [];
      }
    }
  }

  /** No call draws a sprite. */
  predicate DrawsNoSprite(calls: seq<GfxCall>)
  {
    forall k :: 0 <= k < |calls| ==> !calls[k].DrawSprite?
  }

  /** No call draws a mesh. */
  predicate DrawsNoMesh(calls: seq<GfxCall>)
  {
    forall k :: 0 <= k < |calls| ==> !calls[k].DrawMesh?
  }

  /** Every mesh draw comes before every sprite draw. */
  predicate MeshesBeforeSprites(calls: seq<GfxCall>)
  {
    forall i, j :: 0 <= i < |calls| && 0 <= j < |calls| && calls[i].DrawMesh? && calls[j].DrawSprite? ==> i < j
  }

  lemma NoSpriteConcat(a: seq<GfxCall>, b: seq<GfxCall>)
    requires DrawsNoSprite(a) && DrawsNoSprite(b)
    ensures DrawsNoSprite(a + b)
  {
    forall k | 0 <= k < |a + b| ensures !(a + b)[k].DrawSprite? {
      if k >= |a| {
        assert (a + b)[k] == b[k - |a|];
      }
    }
  }

  lemma NoMeshConcat(a: seq<GfxCall>, b: seq<GfxCall>)
    requires DrawsNoMesh(a) && DrawsNoMesh(b)
    ensures DrawsNoMesh(a + b)
  {
    forall k | 0 <= k < |a + b| ensures !(a + b)[k].DrawMesh? {
      if k >= |a| {
        assert (a + b)[k] == b[k - |a|];
      }
    }
  }

  /** A phase that draws no sprite followed by one that draws no mesh puts
      every mesh before every sprite. */
  lemma PhasesInOrder(a: seq<GfxCall>, b: seq<GfxCall>)
    requires DrawsNoSprite(a) && DrawsNoMesh(b)
    ensures MeshesBeforeSprites(a + b)
  {
  }

  lemma {:induction false} NoSpriteDrawsNothing(calls: seq<GfxCall>)
    requires DrawsNoSprite(calls)
    ensures SpritesDrawn(calls) == []
    decreases |calls|
  {
    if calls != [] {
      NoSpriteDrawsNothing(calls[..|calls| - 1]);
    }
  }

  lemma {:induction false} MeshListDrawsNoSprite(list: seq<MeshComponent>, shader: Shader)
    ensures DrawsNoSprite(MeshListCalls(list, shader))
    decreases |list|
  {
    if list != [] {
      MeshListDrawsNoSprite(list[..|list| - 1], shader);
      assert DrawsNoSprite(list[|list| - 1].DrawCalls(shader));
      NoSpriteConcat(MeshListCalls(list[..|list| - 1], shader), list[|list| - 1].DrawCalls(shader));
    }
  }

  /** No call of the mesh phase draws a sprite. */
  lemma {:induction false} MeshPassDrawsNoSprite(names: seq<string>, parts: Partition, shaders: map<string, Shader>, cur: Shader)
    ensures DrawsNoSprite(MeshPass(names, parts, shaders, cur))
    decreases |names|
  {
    if names != [] {
      var next := ShaderAfter(names[0], shaders, cur);
      MeshPassDrawsNoSprite(names[1..], parts, shaders, next);
      MeshListDrawsNoSprite(ListOf(parts, names[0]), next);
      var a, b, c := Activation(names[0], shaders), MeshListCalls(ListOf(parts, names[0]), next),
                     MeshPass(names[1..], parts, shaders, next);
      assert DrawsNoSprite(a);
      NoSpriteConcat(a, b);
      NoSpriteConcat(a + b, c);
    }
  }

  /** No call of the sprite phase draws a mesh. */
  lemma {:induction false} SpritePassDrawsNoMesh(sprites: seq<SpriteComponent>, shader: Shader)
    ensures DrawsNoMesh(SpritePass(sprites, shader))
    decreases |sprites|
  {
    if sprites != [] {
      SpritePassDrawsNoMesh(sprites[..|sprites| - 1], shader);
      assert DrawsNoMesh(sprites[|sprites| - 1].DrawCalls(shader));
      NoMeshConcat(SpritePass(sprites[..|sprites| - 1], shader), sprites[|sprites| - 1].DrawCalls(shader));
    }
  }

  /** The phase order of a frame: every mesh is drawn before any sprite. */
  lemma FrameMeshesBeforeSprites(names: seq<string>, parts: Partition, shaders: map<string, Shader>,
                                 sprites: seq<SpriteComponent>)
    requires "Mesh" in shaders && "Sprite" in shaders
    ensures MeshesBeforeSprites(FrameCalls(names, parts, shaders, sprites))
  {
    var meshShader, spriteShader := shaders["Mesh"], shaders["Sprite"];
    var head := MeshPhaseSetup(meshShader);
    var meshes := MeshPass(names, parts, shaders, meshShader);
    var mid := SpritePhaseSetup(spriteShader);
    var spr := SpritePass(sprites, spriteShader);
    assert FrameCalls(names, parts, shaders, sprites) == (head + meshes) + ((mid + spr) + [SwapWindow]);
    MeshPassDrawsNoSprite(names, parts, shaders, meshShader);
    assert DrawsNoSprite(head);
    NoSpriteConcat(head, meshes);
    SpritePassDrawsNoMesh(sprites, spriteShader);
    assert DrawsNoMesh(mid);
    assert DrawsNoMesh([SwapWindow]);
    NoMeshConcat(mid, spr);
    NoMeshConcat(mid + spr, [SwapWindow]);
    PhasesInOrder(head + meshes, (mid + spr) + [SwapWindow]);
  }

  /** The sprites a frame draws are exactly the textured ones, in list order. */
  lemma FrameDrawsTexturedSprites(names: seq<string>, parts: Partition, shaders: map<string, Shader>,
                                  sprites: seq<SpriteComponent>)
    requires "Mesh" in shaders && "Sprite" in shaders
    ensures SpritesDrawn(FrameCalls(names, parts, shaders, sprites)) == Textured(sprites)
  {
    var meshShader, spriteShader := shaders["Mesh"], shaders["Sprite"];
    var head := MeshPhaseSetup(meshShader);
    var meshes := MeshPass(names, parts, shaders, meshShader);
    var mid := SpritePhaseSetup(spriteShader);
    var spr := SpritePass(sprites, spriteShader);
    assert FrameCalls(names, parts, shaders, sprites) == (head + meshes + mid) + spr + [SwapWindow];
    MeshPassDrawsNoSprite(names, parts, shaders, meshShader);
    assert DrawsNoSprite(head) && DrawsNoSprite(mid) && DrawsNoSprite([SwapWindow]);
    NoSpriteConcat(head, meshes);
    NoSpriteConcat(head + meshes, mid);
    NoSpriteDrawsNothing(head + meshes + mid);
    NoSpriteDrawsNothing([SwapWindow]);
    SpritePassOrder(sprites, spriteShader);
    SpritesDrawnAppend(head + meshes + mid, spr);
    SpritesDrawnAppend(head + meshes + mid + spr, [SwapWindow]);
  }

  /** Textured sprites of a sorted list come out in non-decreasing draw order. */
  lemma {:induction false} TexturedSorted(sprites: seq<SpriteComponent>)
    requires SortedBy(sprites, DrawOrderOf)
    ensures SortedBy(Textured(sprites), DrawOrderOf)
    ensures forall k :: 0 <= k < |Textured(sprites)| ==> Textured(sprites)[k] in sprites
    decreases |sprites|
  {
    if sprites != [] {
      var init, last := sprites[..|sprites| - 1], sprites[|sprites| - 1];
      assert SortedBy(init, DrawOrderOf);
      TexturedSorted(init);
      forall k | 0 <= k < |Textured(init)| ensures DrawOrderOf(Textured(init)[k]) <= DrawOrderOf(last) {
        var x := Textured(init)[k];
        var i :| 0 <= i < |init| && init[i] == x;
      }
    }
  }

  /** Sprites are drawn by non-decreasing draw order, so a higher draw order
      is painted over a lower one. */
  lemma FrameDrawsSpritesInDrawOrder(names: seq<string>, parts: Partition, shaders: map<string, Shader>,
                                     sprites: seq<SpriteComponent>)
    requires "Mesh" in shaders && "Sprite" in shaders
    requires SortedBy(sprites, DrawOrderOf)
    ensures SortedBy(SpritesDrawn(FrameCalls(names, parts, shaders, sprites)), DrawOrderOf)
  {
    FrameDrawsTexturedSprites(names, parts, shaders, sprites);
    TexturedSorted(sprites);
  }


  // ---------------------------------------------------------------------
  // The renderer.

  class Renderer {
    var textures: map<string, Texture>
    var meshes: map<string, Mesh>
    var shaders: map<string, Shader>
    var meshComps: Partition
    var sprites: seq<SpriteComponent>
    var currentShader: Shader?
    var view: Matrix4
    var ambientLight: Vector3
    const dirLight: DirectionalLight
    const pointLights: PointLightList
    const gpu: Gpu

    /** The sprite list is sorted by draw order. */
    predicate Valid()
      reads this
    {
      SortedBy(sprites, DrawOrderOf)
    }

    /** Renderer::Renderer: no current shader and empty caches, registries and
        point-light list. */
    constructor()
      ensures Valid()
      ensures textures == map[] && meshes == map[] && shaders == map[]
      ensures meshComps == map[] && sprites == [] && currentShader == null
      ensures pointLights.items == [] && gpu.calls == []
      ensures fresh(dirLight) && fresh(pointLights) && fresh(gpu)
    {
      textures, meshes, shaders := map[], map[], map[];
      meshComps, sprites := map[], [];
      currentShader := null;
      dirLight := new DirectionalLight();
      pointLights := new PointLightList();
      gpu := new Gpu();
    }

    /** Renderer::AddSprite: scan for the first sprite with a strictly greater
        draw order and insert in front of it. */
    method AddSprite(sprite: SpriteComponent)
      requires Valid()
      modifies this`sprites
      ensures Valid()
      ensures sprites == InsertSorted(old(sprites), DrawOrderOf, sprite)
    {
      var myDrawOrder := sprite.drawOrder;
      var i := 0;
      while i < |sprites|
        invariant i <= InsertPos(sprites, DrawOrderOf, myDrawOrder)
      {
        if myDrawOrder < sprites[i].drawOrder {
          break;
        }
        i := i + 1;
      }
      InsertSortedSorted(sprites, DrawOrderOf, sprite);
      sprites := sprites[..i] + [sprite] + sprites[i..];
    }

    /** Renderer::RemoveSprite: find the sprite and erase it. Erasing end()
        is undefined, so the sprite must be registered. */
    method RemoveSprite(sprite: SpriteComponent)
      requires Valid() && sprite in sprites
      modifies this`sprites
      ensures Valid()
      ensures sprites == RemoveFirst(old(sprites), sprite)
    {
      var i := Find(sprites, sprite);
      RemoveFirstSpec(sprites, DrawOrderOf, sprite);
      sprites := sprites[..i] + sprites[i + 1..];
    }

    /** Renderer::AddMeshComp. */
    method AddMeshComp(mesh: MeshComponent)
      modifies this`meshComps
      ensures meshComps == AddToPartition(old(meshComps), mesh.shaderName, mesh)
    {
      var name := mesh.shaderName;
      if name in meshComps {
        meshComps := meshComps[name := meshComps[name] + [mesh]];
      } else {
        var mcvec := [mesh];
        meshComps := meshComps[name := mcvec];
      }
    }

    /** Renderer::RemoveMeshComp exactly as written: `at` throws for an
        unknown shader name and erasing end() is undefined, so both must be
        present; the erase hits a copy, so the registry does not change. The
        method may modify nothing, so its ensures only records that; what the
        unchanged registry means for the next frame is stated by
        RemoveAsWrittenLeavesComponent. */
    method RemoveMeshCompAsWritten(mesh: MeshComponent)
      requires mesh.shaderName in meshComps && mesh in meshComps[mesh.shaderName]
      ensures meshComps == RemoveFromCopy(meshComps, mesh.shaderName, mesh)
    {
      var mcvec := meshComps[mesh.shaderName];
      var i := Find(mcvec, mesh);
      mcvec := mcvec[..i] + mcvec[i + 1..];
    }

    /** Renderer::RemoveMeshComp as evidently intended: erase from the list
        held in the registry. */
    method RemoveMeshComp(mesh: MeshComponent)
      requires mesh.shaderName in meshComps && mesh in meshComps[mesh.shaderName]
      modifies this`meshComps
      ensures meshComps == RemoveFromPartition(old(meshComps), mesh.shaderName, mesh)
    {
      var name := mesh.shaderName;
      var mcvec := meshComps[name];
      var i := Find(mcvec, mesh);
      mcvec := mcvec[..i] + mcvec[i + 1..];
      meshComps := meshComps[name := mcvec];
    }

    /** Renderer::GetTexture. The loader is an oracle: loadOk says whether
        Texture::Load succeeds and width, height what it reads. The method is
        CacheGet with the freshly loaded texture as the loader's outcome. */
    method GetTexture(fileName: string, loadOk: bool, width: int, height: int) returns (tex: Texture?)
      modifies this`textures
      ensures Lookup(TextureHandle(tex), textures) == CacheGet(old(textures), fileName, TextureHandle(tex))
      ensures fileName !in old(textures) ==> (tex != null <==> loadOk)
      ensures fileName !in old(textures) && tex != null ==> fresh(tex) && tex.width == width && tex.height == height
    {
      if fileName in textures {
        tex := textures[fileName];
      } else {
        tex := new Texture(width, height);
        if loadOk {
          textures := textures[fileName := tex];
        } else {
          tex := null;
        }
      }
    }

    /** Renderer::GetMesh, with the loader as an oracle as for GetTexture. */
    method GetMesh(fileName: string, loadOk: bool, meshTextures: seq<Texture>, specPower: real, indexCount: nat)
      returns (m: Mesh?)
      modifies this`meshes
      ensures Lookup(MeshHandle(m), meshes) == CacheGet(old(meshes), fileName, MeshHandle(m))
      ensures fileName !in old(meshes) ==> (m != null <==> loadOk)
      ensures fileName !in old(meshes) && m != null ==>
        fresh(m) && m.textures == meshTextures && m.specPower == specPower && m.indexCount == indexCount
    {
      if fileName in meshes {
        m := meshes[fileName];
      } else {
        m := new Mesh(meshTextures, specPower, indexCount);
        if loadOk {
          meshes := meshes[fileName := m];
        } else {
          m := null;
        }
      }
    }

    /** Renderer::SetCurrentShader: succeeds exactly for a loaded name, which
        becomes current and is activated; otherwise nothing changes. */
    method SetCurrentShader(fileName: string) returns (ok: bool)
      modifies this`currentShader, gpu`calls
      ensures ok <==> fileName in shaders
      ensures ok ==> currentShader == shaders[fileName]
      ensures !ok ==> currentShader == old(currentShader)
      ensures gpu.calls == old(gpu.calls) + Activation(fileName, shaders)
    {
      if fileName in shaders {
        var sh := shaders[fileName];
        currentShader := sh;
        gpu.calls := gpu.calls + [ShaderActive(sh)];
        return true;
      }
      return false;
    }

    /** Renderer::LoadShader. The compile-and-link outcome is the oracle
        loadOk. On success the new shader is emplaced under the name (kept out
        of the map when the name is taken) and becomes current anyway. */
    method LoadShader(name: string, vertFile: string, fragFile: string, loadOk: bool) returns (ok: bool)
      modifies this`shaders, this`currentShader, gpu`calls
      ensures ok == loadOk
      ensures ok ==> currentShader != null && fresh(currentShader)
      ensures ok ==> shaders == Emplace(old(shaders), name, currentShader)
      ensures ok ==> gpu.calls == old(gpu.calls) + [ShaderActive(currentShader)]
      ensures !ok ==> shaders == old(shaders) && currentShader == old(currentShader) && gpu.calls == old(gpu.calls)
    {
      var sh := new Shader();
      if loadOk {
        shaders := if name in shaders then shaders else shaders[name := sh];
        currentShader := sh;
        gpu.calls := gpu.calls + [ShaderActive(sh)];
        return true;
      }
      return false;
    }

    /** Renderer::UnloadData: all three caches are emptied. */
    method UnloadData()
      modifies this`textures, this`meshes, this`shaders
      ensures textures == map[] && meshes == map[] && shaders == map[]
    {
      textures := map[];
      meshes := map[];
      shaders := map[];
    }

    method SetViewMatrix(view: Matrix4)
      modifies this`view
      ensures this.view == view
    {
      this.view := view;
    }

    method SetAmbientLight(ambient: Vector3)
      modifies this`ambientLight
      ensures ambientLight == ambient
    {
      ambientLight := ambient;
    }

    /** The renderer's own directional light: writes through it are the
        renderer's. */
    method GetDirectionalLight() returns (light: DirectionalLight)
      ensures light == dirLight
    {
      light := dirLight;
    }

    /** The renderer's own point-light list: appends through it are the
        renderer's. */
    method GetPointLights() returns (lights: PointLightList)
      ensures lights == pointLights
    {
      lights := pointLights;
    }

    /** Renderer::Draw. `names` is the order in which the unordered map of mesh
        partitions happens to be visited, which the source leaves unspecified:
        any order of its keys. */
    method Draw(names: seq<string>)
      requires Valid()
      requires "Mesh" in shaders && "Sprite" in shaders
      requires Distinct(names)
      requires forall n :: n in names ==> n in meshComps
      requires forall n :: n in meshComps ==> n in names
      modifies this`currentShader, gpu`calls
      ensures gpu.calls == old(gpu.calls) + FrameCalls(names, meshComps, shaders, sprites)
      ensures currentShader == shaders["Sprite"]
    {
      ghost var start := gpu.calls;
      var meshShader := BeginMeshPhase();
      DrawMeshPass(names, meshShader);
      ghost var meshes := MeshPass(names, meshComps, shaders, meshShader);
      var spriteShader := SpritePhase();
      assert meshes == MeshPass(names, meshComps, shaders, meshShader);
      FiveAssoc(start, MeshPhaseSetup(meshShader), meshes, SpritePhaseSetup(spriteShader),
                SpritePass(sprites, spriteShader), [SwapWindow]);
    }

    /** Clear the buffers, set up depth testing without blending, and make
        the "Mesh" shader current with its view-projection and light uniforms. */
    method BeginMeshPhase() returns (meshShader: Shader)
      requires "Mesh" in shaders
      modifies this`currentShader, gpu`calls
      ensures meshShader == shaders["Mesh"] && currentShader == meshShader
      ensures gpu.calls == old(gpu.calls) + MeshPhaseSetup(meshShader)
    {
      gpu.calls := gpu.calls + [ClearBuffers, DepthOnBlendOff];
      var _ := SetCurrentShader("Mesh");
      meshShader := shaders["Mesh"];
      gpu.calls := gpu.calls + [ViewProjUniform(meshShader), LightUniforms(meshShader)];
    }

    /** The sprite phase of Draw and the end of the frame: switch to alpha
        blending without depth testing, make the "Sprite" shader current, bind
        the sprite quad, draw each sprite in list order and swap the window. */
    method SpritePhase() returns (spriteShader: Shader)
      requires "Sprite" in shaders
      modifies this`currentShader, gpu`calls
      ensures spriteShader == shaders["Sprite"] && currentShader == spriteShader
      ensures gpu.calls == old(gpu.calls) + SpritePhaseSetup(spriteShader) + SpritePass(sprites, spriteShader) + [SwapWindow]
    {
      gpu.calls := gpu.calls + [DepthOffBlendOn];
      var _ := SetCurrentShader("Sprite");
      spriteShader := shaders["Sprite"];
      gpu.calls := gpu.calls + [SpriteQuadActive];
      DrawSpritePass(spriteShader);
      ghost var spr := SpritePass(sprites, spriteShader);
      gpu.calls := gpu.calls + [SwapWindow];
      assert spr == SpritePass(sprites, spriteShader);
    }

    /** The mesh phase of Draw: per shader name, SetCurrentShader and draw the
        name's list with the shader then current. */
    method DrawMeshPass(names: seq<string>, meshShader: Shader)
      requires forall i :: 0 <= i < |names| ==> names[i] in meshComps
      requires currentShader == meshShader
      modifies this`currentShader, gpu`calls
      ensures gpu.calls == old(gpu.calls) + MeshPass(names, meshComps, shaders, meshShader)
    {
      ghost var head := gpu.calls;
      ghost var total := MeshPass(names, meshComps, shaders, meshShader);
      assert names[0..] == names;
      var i := 0;
      while i < |names|
        invariant i <= |names| && currentShader != null
        invariant head + total == gpu.calls + MeshPass(names[i..], meshComps, shaders, currentShader)
      {
        DrawShaderGroup(names, i);
        i := i + 1;
      }
      assert total == MeshPass(names, meshComps, shaders, meshShader);
    }

    /** One step of the mesh phase: make the shader of names[i] current, when
        it is loaded, and draw that name's list with the shader then current;
        what remains of the phase is the rest of the names. */
    method DrawShaderGroup(names: seq<string>, i: nat)
      requires i < |names| && names[i] in meshComps && currentShader != null
      modifies this`currentShader, gpu`calls
      ensures currentShader == ShaderAfter(names[i], shaders, old(currentShader))
      ensures old(gpu.calls + MeshPass(names[i..], meshComps, shaders, currentShader))
        == gpu.calls + MeshPass(names[i + 1..], meshComps, shaders, currentShader)
    {
      var name := names[i];
      ghost var prev := gpu.calls;
      ghost var next := ShaderAfter(name, shaders, currentShader);
      MeshPassStep(names, i, meshComps, shaders, currentShader);
      ghost var rest := MeshPass(names[i + 1..], meshComps, shaders, next);
      var _ := SetCurrentShader(name);
      DrawMeshList(meshComps[name], currentShader);
      assert rest == MeshPass(names[i + 1..], meshComps, shaders, currentShader);
      SeqAssoc(prev, Activation(name, shaders), MeshListCalls(meshComps[name], next), rest);
    }

    /** Draw each component of one shader's list, in list order. */
    method DrawMeshList(list: seq<MeshComponent>, shader: Shader)
      modifies gpu`calls
      ensures gpu.calls == old(gpu.calls) + MeshListCalls(list, shader)
    {
      ghost var start := gpu.calls;
      var k := 0;
      while k < |list|
        invariant k <= |list|
        invariant gpu.calls == start + MeshListCalls(list[..k], shader)
      {
        ghost var before, done := gpu.calls, MeshListCalls(list[..k], shader);
        list[k].Draw(shader, gpu);
        assert done == MeshListCalls(list[..k], shader);
        MeshListCallsSnoc(list, k, shader);
        assert gpu.calls == start + MeshListCalls(list[..k + 1], shader) by {
          SeqAssoc3(start, done, list[k].DrawCalls(shader));
        }
        k := k + 1;
      }
      assert list[..k] == list;
    }

    /** The sprite phase of Draw: each sprite in list order. */
    method DrawSpritePass(shader: Shader)
      modifies gpu`calls
      ensures gpu.calls == old(gpu.calls) + SpritePass(sprites, shader)
    {
      ghost var start := gpu.calls;
      var j := 0;
      while j < |sprites|
        invariant j <= |sprites|
        invariant gpu.calls == start + SpritePass(sprites[..j], shader)
      {
        sprites[j].Draw(shader, gpu);
        SpritePassSnoc(sprites, j, shader);
        j := j + 1;
      }
      assert sprites[..j] == sprites;
    }
  }

  /** Sprites registered in any order, with distinct draw orders, are drawn in
      ascending draw order: registering [5, 1, 3] gives the list [1, 3, 5]. */
  lemma RegistrationOrderIrrelevant(xs: seq<SpriteComponent>, ys: seq<SpriteComponent>)
    requires multiset(xs) == multiset(ys)
    requires KeysUnique(xs, DrawOrderOf)
    ensures InsertAll([], DrawOrderOf, xs) == InsertAll([], DrawOrderOf, ys)
    ensures SortedBy(InsertAll([], DrawOrderOf, xs), DrawOrderOf)
  {
    InsertionOrderIrrelevant(xs, ys, DrawOrderOf);
  }
}
