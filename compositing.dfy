/** The keyframe object of keyframes.py with its per-keyframe GPU cache: the
    fold of its state operators, the decisions of `composite` (what is
    compiled, allocated and drawn) and the fold of its sound effects. The GL
    driver is reduced to a log of the calls the decisions lead to. */
module Compositing {
  import opened Model

  /** A shader fragment appended by a compositing operator: the first four
      items of the Python tuple (the source text pieces) are one opaque value;
      item 4 says whether a new render pass begins after this fragment. */
  datatype Snippet = Snippet(code: nat, newPass: bool)

  /** `compileProgram(*GenerateShader(group, intermediate))`: a program is
      determined by its fragment group and whether it renders an intermediate
      pass (True) or the final pass (False). */
  datatype Program = Program(group: seq<Snippet>, intermediate: bool)

  /** Pixel dimensions of a source image (`shape[1]`, `shape[0]`). */
  datatype Image = Image(width: nat, height: nat)

  /** One vertex of the geometry buffer (position and texture coordinate). */
  datatype Vertex = Vertex(x: real, y: real, z: real, u: real, v: real)

  /** What the compositing chain threads through its operators. */
  datatype Layers = Layers(image: Image, vertices: seq<Vertex>, shader: seq<Snippet>)

  /** Where a draw call renders: the keyframe's framebuffer or the output. */
  datatype Target = Framebuffer(name: nat) | Output

  datatype Draw = Draw(program: Program, target: Target, vertexCount: nat)

  /** A two-channel sample buffer with its rate, as `sound` returns it. */
  datatype Audio = Audio(rows: seq<Row>, rate: int)

  /** `op.function().composite(image, vertices, shader, params, window, self, offset)`. */
  type Compose = (Op, Layers, int) -> Layers

  // ---------------------------------------------------------------------
  // Folds over operator chains

  /** The loop of `state`: every state operator in list order, each given the
      frame offset of the playhead from the keyframe. */
  function FoldState<S>(ops: seq<Op>, st: S, offset: int, apply: (Op, S, int) -> S): S
  {
    if ops == [] then st else FoldState(ops[1..], apply(ops[0], st, offset), offset, apply)
  }

  /** Folding a chain split in two is folding the second part over the result
      of the first: operators act strictly in list order. */
  lemma {:induction false} FoldStateConcat<S>(a: seq<Op>, b: seq<Op>, st: S, offset: int, apply: (Op, S, int) -> S)
    ensures FoldState(a + b, st, offset, apply) == FoldState(b, FoldState(a, st, offset, apply), offset, apply)
  {
    if a == [] {
      assert a + b == b;
    } else {
      assert (a + b)[1..] == a[1..] + b;
      FoldStateConcat(a[1..], b, apply(a[0], st, offset), offset, apply);
    }
  }

  /** The loop over the compositing operators: those with a `composite`
      capability transform the layers, the rest are skipped. */
  function FoldComposite(ops: seq<Op>, l: Layers, offset: int, compose: Compose): Layers
  {
    if ops == [] then l
    else if ops[0].hasComposite then FoldComposite(ops[1..], compose(ops[0], l, offset), offset, compose)
    else FoldComposite(ops[1..], l, offset, compose)
  }

  /** The operators of a chain that expose a capability, in chain order. */
  function WithCapability(ops: seq<Op>, has: Op -> bool): (r: seq<Op>)
    ensures |r| <= |ops|
    // kept operators have the capability ...
    ensures forall i :: 0 <= i < |r| ==> has(r[i]) && r[i] in ops
    // ... and every operator having it is kept
    ensures forall i :: 0 <= i < |ops| && has(ops[i]) ==> ops[i] in r
  {
    if ops == [] then []
    else
      assert forall i :: 1 <= i < |ops| ==> ops[i] == ops[1..][i - 1];
      (if has(ops[0]) then [ops[0]] else []) + WithCapability(ops[1..], has)
  }

  /** Filtering a chain split in two filters each part: the kept operators
      stay in chain order. */
  lemma {:induction false} WithCapabilityConcat(a: seq<Op>, b: seq<Op>, has: Op -> bool)
    ensures WithCapability(a + b, has) == WithCapability(a, has) + WithCapability(b, has)
  {
    if a == [] {
      assert a + b == b;
    } else {
      assert (a + b)[1..] == a[1..] + b;
      WithCapabilityConcat(a[1..], b, has);
    }
  }

  function HasComposite(o: Op): bool { o.hasComposite }

  function HasSoundEffect(o: Op): bool { o.hasSoundEffect }

  /** An operator without the capability contributes nothing: the compositing
      fold is the plain in-order application of the capable operators. */
  lemma {:induction false} FoldCompositeSkips(ops: seq<Op>, l: Layers, offset: int, compose: Compose)
    ensures FoldComposite(ops, l, offset, compose) == FoldState(WithCapability(ops, HasComposite), l, offset, compose)
  {
    if ops != [] {
      if ops[0].hasComposite {
        FoldCompositeSkips(ops[1..], compose(ops[0], l, offset), offset, compose);
        assert ([ops[0]] + WithCapability(ops[1..], HasComposite))[1..] == WithCapability(ops[1..], HasComposite);
      } else {
        FoldCompositeSkips(ops[1..], l, offset, compose);
        assert [] + WithCapability(ops[1..], HasComposite) == WithCapability(ops[1..], HasComposite);
      }
    }
  }

  /** The loop of `sound` over the compositing operators: those with a
      `soundeffect` capability transform the audio, in list order. */
  function FoldSoundEffects(ops: seq<Op>, a: Audio, offset: int, effect: (Op, Audio, int) -> Audio): Audio
  {
    if ops == [] then a
    else if ops[0].hasSoundEffect then FoldSoundEffects(ops[1..], effect(ops[0], a, offset), offset, effect)
    else FoldSoundEffects(ops[1..], a, offset, effect)
  }

  /** The sound effects act strictly in chain order. */
  lemma {:induction false} FoldSoundEffectsConcat(a: seq<Op>, b: seq<Op>, x: Audio, offset: int, effect: (Op, Audio, int) -> Audio)
    ensures FoldSoundEffects(a + b, x, offset, effect) == FoldSoundEffects(b, FoldSoundEffects(a, x, offset, effect), offset, effect)
  {
    if a == [] {
      assert a + b == b;
    } else {
      assert (a + b)[1..] == a[1..] + b;
      var y := if a[0].hasSoundEffect then effect(a[0], x, offset) else x;
      FoldSoundEffectsConcat(a[1..], b, y, offset, effect);
    }
  }

  /** An operator without `soundeffect` contributes nothing: the fold is the
      plain in-order application of the capable operators. */
  lemma {:induction false} FoldSoundEffectsSkips(ops: seq<Op>, a: Audio, offset: int, effect: (Op, Audio, int) -> Audio)
    ensures FoldSoundEffects(ops, a, offset, effect) == FoldState(WithCapability(ops, HasSoundEffect), a, offset, effect)
  {
    if ops != [] {
      if ops[0].hasSoundEffect {
        FoldSoundEffectsSkips(ops[1..], effect(ops[0], a, offset), offset, effect);
        assert ([ops[0]] + WithCapability(ops[1..], HasSoundEffect))[1..] == WithCapability(ops[1..], HasSoundEffect);
      } else {
        FoldSoundEffectsSkips(ops[1..], a, offset, effect);
        assert [] + WithCapability(ops[1..], HasSoundEffect) == WithCapability(ops[1..], HasSoundEffect);
      }
    }
  }

  /** With no operator exposing `soundeffect`, the source's audio comes through untouched. */
  lemma {:induction false} NoEffectsKeepSound(ops: seq<Op>, a: Audio, offset: int, effect: (Op, Audio, int) -> Audio)
    requires forall i :: 0 <= i < |ops| ==> !ops[i].hasSoundEffect
    ensures FoldSoundEffects(ops, a, offset, effect) == a
  {
    if ops != [] {
      NoEffectsKeepSound(ops[1..], a, offset, effect);
    }
  }

  // ---------------------------------------------------------------------
  // Splitting the shader list into programs

  /** The program-building loop of `composite`, from a pending group `cur`:
      each fragment joins the group; a flagged fragment that is not the last
      closes an intermediate program; the last fragment closes the final one. */
  function Chunk(cur: seq<Snippet>, rest: seq<Snippet>): (r: seq<Program>)
    requires rest != []
    decreases |rest|
  {
    var c := cur + [rest[0]];
    if |rest| == 1 then [Program(c, false)]
    else if rest[0].newPass then [Program(c, true)] + Chunk([], rest[1..])
    else Chunk(c, rest[1..])
  }

  /** The groups put back together give the pending group and the rest. */
  lemma {:induction false} ChunkFlatten(cur: seq<Snippet>, rest: seq<Snippet>)
    requires rest != []
    ensures Flatten(Chunk(cur, rest)) == cur + rest
    decreases |rest|
  {
    var c := cur + [rest[0]];
    if |rest| == 1 {
      FlattenCons(Program(c, false), []);
      assert rest == [rest[0]];
    } else {
      var tail := rest[1..];
      ConsTail(cur, rest);
      if rest[0].newPass {
        assert Chunk(cur, rest) == [Program(c, true)] + Chunk([], tail);
        ChunkFlatten([], tail);
        FlattenCons(Program(c, true), Chunk([], tail));
        assert [] + tail == tail;
      } else {
        assert Chunk(cur, rest) == Chunk(c, tail);
        ChunkFlatten(c, tail);
      }
    }
  }

  lemma ConsTail(cur: seq<Snippet>, rest: seq<Snippet>)
    requires rest != []
    ensures (cur + [rest[0]]) + rest[1..] == cur + rest
  {
    assert rest == [rest[0]] + rest[1..];
  }

  lemma FlattenCons(p: Program, t: seq<Program>)
    ensures Flatten([p] + t) == p.group + Flatten(t)
  {
    assert ([p] + t)[1..] == t;
  }

  /** The last group is final and non-empty. */
  lemma {:induction false} ChunkLast(cur: seq<Snippet>, rest: seq<Snippet>)
    requires rest != []
    ensures var r := Chunk(cur, rest);
      |r| >= 1 && !r[|r| - 1].intermediate && r[|r| - 1].group != []
    decreases |rest|
  {
    if |rest| > 1 {
      var c := cur + [rest[0]];
      if rest[0].newPass {
        ChunkLast([], rest[1..]);
        var t := Chunk([], rest[1..]);
        assert ([Program(c, true)] + t)[|t|] == t[|t| - 1];
      } else {
        ChunkLast(c, rest[1..]);
      }
    }
  }

  /** Every group but the last is an intermediate pass ending at a flagged fragment. */
  predicate InnerClosed(r: seq<Program>)
  {
    forall i :: 0 <= i < |r| - 1 ==> r[i].intermediate && r[i].group != [] && r[i].group[|r[i].group| - 1].newPass
  }

  /** Every group but the last is intermediate and ends with a flagged fragment. */
  lemma {:induction false} ChunkInner(cur: seq<Snippet>, rest: seq<Snippet>)
    requires rest != []
    ensures InnerClosed(Chunk(cur, rest))
    decreases |rest|
  {
    if |rest| > 1 {
      var c := cur + [rest[0]];
      if rest[0].newPass {
        ChunkInner([], rest[1..]);
        var t := Chunk([], rest[1..]);
        var r := [Program(c, true)] + t;
        forall i | 0 <= i < |r| - 1
          ensures r[i].intermediate && r[i].group != [] && r[i].group[|r[i].group| - 1].newPass
        {
          if i == 0 {
            assert r[0] == Program(c, true);
            assert c[|c| - 1] == rest[0];
          } else {
            assert r[i] == t[i - 1];
          }
        }
      } else {
        ChunkInner(c, rest[1..]);
      }
    }
  }

  /** One group per flagged fragment before the last position, plus the final one. */
  lemma {:induction false} ChunkCount(cur: seq<Snippet>, rest: seq<Snippet>)
    requires rest != []
    ensures |Chunk(cur, rest)| == 1 + Flagged(rest[..|rest| - 1])
    decreases |rest|
  {
    var c := cur + [rest[0]];
    if |rest| == 1 {
      assert rest[..0] == [];
    } else {
      var tail := rest[1..];
      assert rest[..|rest| - 1] == [rest[0]] + tail[..|tail| - 1];
      if rest[0].newPass {
        ChunkCount([], tail);
      } else {
        ChunkCount(c, tail);
      }
    }
  }

  /** All fragments of the programs, in order. */
  function Flatten(ps: seq<Program>): seq<Snippet>
  {
    if ps == [] then [] else ps[0].group + Flatten(ps[1..])
  }

  /** How many fragments carry the pass-boundary flag. */
  function Flagged(s: seq<Snippet>): nat
  {
    if s == [] then 0 else (if s[0].newPass then 1 else 0) + Flagged(s[1..])
  }

  /** The programs a non-empty shader list is compiled into. */
  function Partition(shader: seq<Snippet>): (r: seq<Program>)
    requires shader != []
    ensures |r| >= 1 && Flatten(r) == shader
    ensures !r[|r| - 1].intermediate
    ensures forall i :: 0 <= i < |r| - 1 ==> r[i].intermediate
    ensures forall i :: 0 <= i < |r| - 1 ==> r[i].group != [] && r[i].group[|r[i].group| - 1].newPass
    ensures |r| == 1 + Flagged(shader[..|shader| - 1])
  {
    ChunkFlatten([], shader);
    ChunkLast([], shader);
    ChunkInner([], shader);
    ChunkCount([], shader);
    Chunk([], shader)
  }

  /** Intermediate draws: every program but the last renders a full-screen
      quad (6 vertices) into the keyframe's framebuffer. */
  function IntermediateDraws(ps: seq<Program>, fbo: nat): (r: seq<Draw>)
    ensures |r| == |ps|
    ensures forall i :: 0 <= i < |ps| ==> r[i] == Draw(ps[i], Framebuffer(fbo), 6)
  {
    if ps == [] then [] else [Draw(ps[0], Framebuffer(fbo), 6)] + IntermediateDraws(ps[1..], fbo)
  }

  // ---------------------------------------------------------------------
  // The GL driver, reduced to the calls the decisions make

  /** GL object names: `glGen*` never hands out 0, which `if(self.fbo)` reads
      as "no framebuffer". */
  type Name = n: nat | n >= 1 witness 1

  class GlContext {
    /** The next name `glGen*` hands out. */
    var nextName: Name
    /** Every program compiled, in order. */
    var compiled: seq<Program>
    /** Every `glTexImage2D` (texture storage allocation), in order. */
    var allocations: seq<Image>
    /** Every framebuffer name deleted, in order. */
    var deleted: seq<nat>
    /** Every `glDrawArrays`, in order. */
    var draws: seq<Draw>

    /** Whether `n` has been handed out so far. */
    ghost predicate Issued(n: int)
      reads this
    {
      1 <= n < nextName
    }

    constructor ()
      ensures nextName == 1 && forall n :: !Issued(n)
      ensures compiled == [] && allocations == [] && deleted == [] && draws == []
    {
      nextName := 1;
      compiled, allocations, deleted, draws := [], [], [], [];
    }

    /** `glGenTextures(1)` / `glGenFramebuffers(1)`: a nonzero name not
        handed out before, which is handed out from now on. */
    method Gen() returns (name: nat)
      modifies this`nextName
      ensures name != 0 && !old(Issued(name)) && Issued(name)
      ensures forall n :: Issued(n) <==> old(Issued(n)) || n == name
    {
      name := nextName;
      nextName := nextName + 1;
    }
  }

  // ---------------------------------------------------------------------
  // The keyframe

  /** The keyframe object with its GPU cache. Its timeline view is the value
      `Model.Keyframe` with the same frame and source, `actions == stateOps`
      and `effects == compositingOps`. */
  class Keyframe {
    const frame: int
    const source: Op
    const stateOps: seq<Op>
    const compositingOps: seq<Op>

    /** The shader list the cached programs were built from (`lastShaderList`). */
    var lastShaderList: Option<seq<Snippet>>
    var compiledPrograms: seq<Program>
    var currentTexture: Option<nat>
    /** `currentTextureSize`, as (width, height). */
    var currentTextureSize: Option<Image>
    var fbo: Option<nat>

    /** The cache is coherent: the programs are those of the remembered
        shader list, and a texture always has a recorded size. */
    ghost predicate Valid()
      reads this
    {
      && (lastShaderList.Some? ==> lastShaderList.value != [] && compiledPrograms == Partition(lastShaderList.value))
      && (currentTexture.Some? <==> currentTextureSize.Some?)
    }

    constructor (frame: int, source: Op, stateOps: seq<Op>, compositingOps: seq<Op>)
      ensures Valid()
      ensures this.frame == frame && this.source == source
      ensures this.stateOps == stateOps && this.compositingOps == compositingOps
      ensures lastShaderList.None? && currentTexture.None? && fbo.None?
    {
      this.frame := frame;
      this.source := source;
      this.stateOps := stateOps;
      this.compositingOps := compositingOps;
      lastShaderList := None;
      compiledPrograms := [];
      currentTexture := None;
      currentTextureSize := None;
      fbo := None;
    }

    /** `state`: fold the state operators over the incoming state with offset
        `playbackframe - frame`. */
    function State<S>(st: S, playbackframe: int, apply: (Op, S, int) -> S): (r: S)
      ensures stateOps == [] ==> r == st
      // the last operator acts last, on what the others made of the state
      ensures stateOps != [] ==>
        var n := |stateOps| - 1;
        r == apply(stateOps[n], FoldState(stateOps[..n], st, playbackframe - frame, apply), playbackframe - frame)
    {
      var offset := playbackframe - frame;
      if stateOps == [] then st
      else
        var n := |stateOps| - 1;
        assert stateOps[..n] + [stateOps[n]] == stateOps;
        FoldStateConcat(stateOps[..n], [stateOps[n]], st, offset, apply);
        FoldState(stateOps, st, offset, apply)
    }

    /** `sound`: without a `sound` capability on the source, 1024 silent rows
        at 48000 Hz; otherwise the source's audio at the sample offset from the
        keyframe's anchor, passed through every sound effect in order. */
    function Sound(sample: int, sourceSound: (Op, int) -> Audio, effect: (Op, Audio, int) -> Audio): (a: Audio)
      ensures !source.hasSound ==> a.rate == RATE && |a.rows| == 2 * BLOCK
      ensures !source.hasSound ==> forall i :: 0 <= i < |a.rows| ==> a.rows[i] == Row(0, 0)
      ensures source.hasSound && (forall i :: 0 <= i < |compositingOps| ==> !compositingOps[i].hasSoundEffect)
              ==> a == sourceSound(source, sample - FrameToSample(frame))
      // only the operators exposing `soundeffect` act, one after another in chain order
      ensures source.hasSound ==>
        var offset := sample - FrameToSample(frame);
        a == FoldState(WithCapability(compositingOps, HasSoundEffect), sourceSound(source, offset), offset, effect)
    {
      if source.hasSound then
        var offset := sample - FrameToSample(frame);
        NoEffectsKeepSoundAt(compositingOps, sourceSound(source, offset), offset, effect);
        FoldSoundEffectsSkips(compositingOps, sourceSound(source, offset), offset, effect);
        FoldSoundEffects(compositingOps, sourceSound(source, offset), offset, effect)
      else Audio(ZeroRows(2 * BLOCK), RATE)
    }

    /** The program-building loop: compile one program per group, appending
        to `compiledPrograms` as it goes. */
    method Recompile(gl: GlContext, shader: seq<Snippet>)
      requires shader != []
      modifies this`compiledPrograms, gl`compiled
      ensures compiledPrograms == Partition(shader)
      ensures gl.compiled == old(gl.compiled) + Partition(shader)
    {
      compiledPrograms := [];
      var snippets: seq<Snippet> := [];
      var i := 0;
      while i < |shader|
        invariant 0 <= i <= |shader|
        invariant gl.compiled == old(gl.compiled) + compiledPrograms
        invariant i < |shader| ==> compiledPrograms + Chunk(snippets, shader[i..]) == Chunk([], shader)
        invariant i == |shader| ==> compiledPrograms == Chunk([], shader)
      {
        var snippet := shader[i];
        ghost var rest := shader[i..];
        assert rest[0] == snippet && rest[1..] == shader[i + 1..];
        ghost var before := snippets;
        snippets := snippets + [snippet];
        if snippet.newPass && i != |shader| - 1 {
          assert Chunk(before, rest) == [Program(snippets, true)] + Chunk([], shader[i + 1..]);
          var p := Program(snippets, true);
          compiledPrograms := compiledPrograms + [p];
          gl.compiled := gl.compiled + [p];
          snippets := [];
        } else if i == |shader| - 1 {
          assert Chunk(before, rest) == [Program(snippets, false)];
          var p := Program(snippets, false);
          compiledPrograms := compiledPrograms + [p];
          gl.compiled := gl.compiled + [p];
        } else {
          assert Chunk(before, rest) == Chunk(snippets, shader[i + 1..]);
        }
        i := i + 1;
      }
    }

    /** The program cache: rebuild only when the shader list differs from the
        remembered one (`str(shader) != str(self.lastShaderList)`). */
    method UpdatePrograms(gl: GlContext, shader: seq<Snippet>)
      requires Valid() && shader != []
      modifies this`lastShaderList, this`compiledPrograms, gl`compiled
      ensures Valid()
      ensures lastShaderList == Some(shader) && compiledPrograms == Partition(shader)
      ensures gl.compiled == old(gl.compiled) + (if old(lastShaderList) != Some(shader) then Partition(shader) else [])
    {
      if Some(shader) != lastShaderList {
        lastShaderList := Some(shader);
        Recompile(gl, shader);
      }
    }

    /** The texture cache: create the texture on first use with size (0, 0);
        reallocate its storage and a fresh framebuffer only when the image size
        differs from the recorded size, which then becomes the image size. The
        old framebuffer is deleted only when its name is nonzero (truthy). */
    method UpdateTexture(gl: GlContext, image: Image)
      requires Valid() && fbo.Some?
      modifies this`currentTexture, this`currentTextureSize, this`fbo, gl`nextName, gl`deleted, gl`allocations
      ensures Valid()
      ensures currentTexture.Some? && currentTextureSize == Some(image) && fbo.Some?
      ensures var resized := (if old(currentTextureSize).Some? then old(currentTextureSize).value else Image(0, 0)) != image;
        && gl.allocations == old(gl.allocations) + (if resized then [image] else [])
        && gl.deleted == old(gl.deleted) + (if resized && old(fbo).value != 0 then [old(fbo).value] else [])
        && (!resized ==> fbo == old(fbo))
      // the texture is generated once and then kept
      ensures old(currentTexture).Some? ==> currentTexture == old(currentTexture)
      ensures old(currentTexture).None? ==> var t := currentTexture.value; !old(gl.Issued(t)) && gl.Issued(t)
      // a resize replaces the framebuffer by a freshly generated one
      ensures (if old(currentTextureSize).Some? then old(currentTextureSize).value else Image(0, 0)) != image ==>
        var f := fbo.value; !old(gl.Issued(f)) && gl.Issued(f)
      ensures forall n :: old(gl.Issued(n)) ==> gl.Issued(n)
    {
      if currentTexture.None? {
        var name := gl.Gen();
        currentTexture := Some(name);
        currentTextureSize := Some(Image(0, 0));
      }
      if currentTextureSize.value != image {
        if fbo.value != 0 {
          gl.deleted := gl.deleted + [fbo.value];
        }
        var name := gl.Gen();
        fbo := Some(name);
        gl.allocations := gl.allocations + [image];
        currentTextureSize := Some(image);
      }
    }

    /** The draws: with two or more programs, every program but the last
        renders a quad into the framebuffer; then the last program draws the
        geometry to the output. */
    method DrawPasses(gl: GlContext, vertexCount: nat)
      requires |compiledPrograms| >= 1 && fbo.Some?
      modifies gl`draws
      ensures var ps := compiledPrograms;
        gl.draws == old(gl.draws)
          + (if |ps| > 1 then IntermediateDraws(ps[..|ps| - 1], fbo.value) else [])
          + [Draw(ps[|ps| - 1], Output, vertexCount)]
    {
      var ps := compiledPrograms;
      if |ps| > 1 {
        gl.draws := gl.draws + IntermediateDraws(ps[..|ps| - 1], fbo.value);
      }
      gl.draws := gl.draws + [Draw(ps[|ps| - 1], Output, vertexCount)];
    }

    /** `glGenFramebuffers` on first use. */
    method EnsureFbo(gl: GlContext)
      modifies this`fbo, gl`nextName
      ensures fbo.Some?
      ensures old(fbo).Some? ==> fbo == old(fbo)
      ensures old(fbo).None? ==> var f := fbo.value; !old(gl.Issued(f)) && gl.Issued(f)
      ensures forall n :: old(gl.Issued(n)) ==> gl.Issued(n)
    {
      if fbo.None? {
        var name := gl.Gen();
        fbo := Some(name);
      }
    }

    /** The part of `composite` that runs once the layers carry a non-empty
        shader list: ensure a framebuffer, then the program cache, the texture
        cache and the draws. */
    method Render(gl: GlContext, l: Layers)
      requires Valid() && l.shader != []
      modifies this`fbo, this`lastShaderList, this`compiledPrograms, this`currentTexture, this`currentTextureSize
      modifies gl`nextName, gl`compiled, gl`allocations, gl`deleted, gl`draws
      ensures Valid()
      // programs are rebuilt exactly when the shader list differs from the cached one
      ensures lastShaderList == Some(l.shader) && compiledPrograms == Partition(l.shader)
      ensures gl.compiled == old(gl.compiled) + (if old(lastShaderList) != Some(l.shader) then Partition(l.shader) else [])
      // storage is reallocated exactly when the image size differs from the recorded size
      ensures currentTexture.Some? && currentTextureSize == Some(l.image) && fbo.Some?
      ensures gl.allocations == old(gl.allocations) +
        (if (if old(currentTextureSize).Some? then old(currentTextureSize).value else Image(0, 0)) != l.image
         then [l.image] else [])
      // intermediate passes only with two or more programs, then one final draw
      ensures var ps := Partition(l.shader);
        gl.draws == old(gl.draws)
          + (if |ps| > 1 then IntermediateDraws(ps[..|ps| - 1], fbo.value) else [])
          + [Draw(ps[|ps| - 1], Output, |l.vertices|)]
      // the texture is generated once and then kept; a resize brings a fresh framebuffer
      ensures old(currentTexture).Some? ==> currentTexture == old(currentTexture)
      ensures old(currentTexture).None? ==> var t := currentTexture.value; !old(gl.Issued(t))
      ensures (if old(currentTextureSize).Some? then old(currentTextureSize).value else Image(0, 0)) != l.image ==>
        var f := fbo.value; !old(gl.Issued(f))
    {
      EnsureFbo(gl);
      UpdatePrograms(gl, l.shader);
      UpdateTexture(gl, l.image);
      DrawPasses(gl, |l.vertices|);
    }

    /** `composite`: nothing without an image capability or when the
        compositing chain leaves the shader list empty; otherwise `Render`.
        `image` is what the source produces at this frame; `compose` is the
        compositing operators' behaviour. */
    method Composite(gl: GlContext, playbackframe: int, image: Image, compose: Compose)
      requires Valid()
      modifies this, gl
      ensures Valid()
      // nothing happens without an image or with an empty shader list
      ensures var l := FoldComposite(compositingOps, Layers(image, [], []), playbackframe - frame, compose);
        !source.hasImage || l.shader == [] ==> unchanged(this) && unchanged(gl)
      // programs are rebuilt exactly when the shader list changed
      ensures var l := FoldComposite(compositingOps, Layers(image, [], []), playbackframe - frame, compose);
        source.hasImage && l.shader != [] ==>
          && lastShaderList == Some(l.shader) && compiledPrograms == Partition(l.shader)
          && gl.compiled == old(gl.compiled) + (if old(lastShaderList) != Some(l.shader) then Partition(l.shader) else [])
      // storage is reallocated exactly when the image size changed
      ensures var l := FoldComposite(compositingOps, Layers(image, [], []), playbackframe - frame, compose);
        source.hasImage && l.shader != [] ==>
          && currentTextureSize == Some(l.image) && fbo.Some?
          && gl.allocations == old(gl.allocations) +
            (if (if old(currentTextureSize).Some? then old(currentTextureSize).value else Image(0, 0)) != l.image
             then [l.image] else [])
      // the intermediate passes into the framebuffer, then the final draw
      ensures var l := FoldComposite(compositingOps, Layers(image, [], []), playbackframe - frame, compose);
        source.hasImage && l.shader != [] ==>
          var ps := Partition(l.shader);
          gl.draws == old(gl.draws)
            + (if |ps| > 1 then IntermediateDraws(ps[..|ps| - 1], fbo.value) else [])
            + [Draw(ps[|ps| - 1], Output, |l.vertices|)]
      // the texture is generated once and then kept; a resize brings a fresh framebuffer
      ensures var l := FoldComposite(compositingOps, Layers(image, [], []), playbackframe - frame, compose);
        source.hasImage && l.shader != [] ==>
          && (old(currentTexture).Some? ==> currentTexture == old(currentTexture))
          && (old(currentTexture).None? ==> var t := currentTexture.value; !old(gl.Issued(t)))
          && ((if old(currentTextureSize).Some? then old(currentTextureSize).value else Image(0, 0)) != l.image ==>
                var f := fbo.value; !old(gl.Issued(f)))
    {
      if !source.hasImage {
        return;
      }
      var l := FoldComposite(compositingOps, Layers(image, [], []), playbackframe - frame, compose);
      if l.shader == [] {
        return;
      }
      Render(gl, l);
    }
  }

  lemma NoEffectsKeepSoundAt(ops: seq<Op>, a: Audio, offset: int, effect: (Op, Audio, int) -> Audio)
    ensures (forall i :: 0 <= i < |ops| ==> !ops[i].hasSoundEffect) ==> FoldSoundEffects(ops, a, offset, effect) == a
  {
    if forall i :: 0 <= i < |ops| ==> !ops[i].hasSoundEffect {
      NoEffectsKeepSound(ops, a, offset, effect);
    }
  }

}
