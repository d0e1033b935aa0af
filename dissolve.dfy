/** The dissolve demo (src/demos/dissolve/index.js): the cube-map URLs, the
    uniforms copied into the compiled shader, the text patches that add the
    dissolve code to three.js's physical material, and the per-frame
    progress step behind the tweak panel. The GLSL noise source is an input. */
module Dissolve {
  import opened Text

  /** The six faces of a cube map, in the order three.js expects them. */
  const Faces: seq<string> := ["posx", "negx", "posy", "negy", "posz", "negz"]

  /** `generateCubeUrls(prefix, postfix)`. */
  function GenerateCubeUrls(prefix: string, postfix: string): (urls: seq<string>)
    ensures |urls| == 6
    ensures forall i :: 0 <= i < 6 ==> urls[i] == prefix + Faces[i] + postfix
  {
    [prefix + "posx" + postfix, prefix + "negx" + postfix,
     prefix + "posy" + postfix, prefix + "negy" + postfix,
     prefix + "posz" + postfix, prefix + "negz" + postfix]
  }

  /** The six URLs are pairwise different whatever the prefix and postfix,
      and each names its face right after the prefix. */
  lemma CubeUrlsDistinct(prefix: string, postfix: string, i: int, j: int)
    requires 0 <= i < 6 && 0 <= j < 6 && i != j
    ensures GenerateCubeUrls(prefix, postfix)[i] != GenerateCubeUrls(prefix, postfix)[j]
    ensures GenerateCubeUrls(prefix, postfix)[i][|prefix|..|prefix| + 4] == Faces[i]
  {
    var urls := GenerateCubeUrls(prefix, postfix);
    assert urls[i][|prefix|..|prefix| + 4] == Faces[i];
    assert urls[j][|prefix|..|prefix| + 4] == Faces[j];
  }

  /** `cubeTexturePaths`. */
  function CubeTexturePaths(): (urls: seq<string>)
    ensures urls == GenerateCubeUrls("./assets/", ".png")
    ensures urls[0] == "./assets/posx.png" && urls[5] == "./assets/negz.png"
  {
    GenerateCubeUrls("./assets/", ".png")
  }

  /** The value held by a uniform: a colour or a float. */
  datatype UniformValue = ColorValue(hex: int) | FloatValue(x: real)

  /** A `{ value }` uniform object, shared by reference. */
  class Uniform {
    var value: UniformValue

    constructor (value: UniformValue)
      ensures this.value == value
    {
      this.value := value;
    }
  }

  /** The shader object three.js hands to `onBeforeCompile`. */
  class Shader {
    var uniforms: map<string, Uniform>
    var vertexShader: string
    var fragmentShader: string

    constructor (uniforms: map<string, Uniform>, vertexShader: string, fragmentShader: string)
      ensures this.uniforms == uniforms && this.vertexShader == vertexShader && this.fragmentShader == fragmentShader
    {
      this.uniforms := uniforms;
      this.vertexShader := vertexShader;
      this.fragmentShader := fragmentShader;
    }
  }

  /** `keys` lists exactly the keys of `m`, as `Object.keys(m)` does. */
  ghost predicate ListsKeys<V>(keys: seq<string>, m: map<string, V>)
  {
    (set j | 0 <= j < |keys| :: keys[j]) == m.Keys
  }

  /** `setupUniforms`: each key of `uniforms`, as `Object.keys` lists them,
      is assigned the very same uniform object in the shader. */
  method SetupUniforms(shader: Shader, keys: seq<string>, uniforms: map<string, Uniform>)
    requires ListsKeys(keys, uniforms)
    modifies shader`uniforms
    ensures shader.uniforms == old(shader.uniforms) + uniforms
  {
    ghost var done: set<string> := {};
    for i := 0 to |keys|
      invariant done == set j | 0 <= j < i :: keys[j]
      invariant done <= uniforms.Keys
      invariant shader.uniforms == old(shader.uniforms) + map k | k in done :: uniforms[k]
    {
      var key := keys[i];
      shader.uniforms := shader.uniforms[key := uniforms[key]];
      done := done + {key};
      assert done == set j | 0 <= j < i + 1 :: keys[j];
    }
    assert done == uniforms.Keys;
    assert (map k | k in done :: uniforms[k]) == uniforms;
  }

  /** Copying `uniforms` over `before` gives every key of `uniforms` the
      same object and leaves every other key as it was. */
  lemma CopiedUniforms(before: map<string, Uniform>, uniforms: map<string, Uniform>)
    ensures forall k :: k in uniforms ==> k in before + uniforms && (before + uniforms)[k] == uniforms[k]
    ensures forall k :: k !in uniforms ==> (k in before + uniforms <==> k in before)
    ensures forall k :: k !in uniforms && k in before ==> (before + uniforms)[k] == before[k]
  {
  }

  /** `s.replace(marker, marker + text)`: the shader patch idiom. */
  function PatchAfter(s: string, marker: string, text: string): string
  {
    ReplaceFirst(s, marker, marker + text)
  }

  /** Without the marker a patch changes nothing; with it, `text` lands right
      after the marker's first occurrence and the rest is kept on both sides. */
  lemma PatchAfterShape(s: string, marker: string, text: string)
    ensures IndexOf(s, marker).None? ==> PatchAfter(s, marker, text) == s
    ensures IndexOf(s, marker).Some? ==>
      var p := IndexOf(s, marker).value + |marker|;
      p <= |s| && PatchAfter(s, marker, text) == s[..p] + text + s[p..]
  {
    if IndexOf(s, marker).Some? {
      InsertAfterFirst(s, marker, text);
    }
  }

  /** Two strings that agree up to `p` have the same occurrences ending by `p`. */
  lemma SamePrefixOccurs(r: string, s: string, p: nat, marker: string, j: nat)
    requires p <= |r| && p <= |s| && r[..p] == s[..p] && j + |marker| <= p
    ensures OccursAt(r, marker, j) == OccursAt(s, marker, j)
  {
    assert r[j..j + |marker|] == r[..p][j..j + |marker|];
    assert s[j..j + |marker|] == s[..p][j..j + |marker|];
  }

  /** A patch leaves its marker where it was, still the first occurrence, so
      the inserted text always directly follows the marker. */
  lemma PatchKeepsMarker(s: string, marker: string, text: string)
    requires IndexOf(s, marker).Some?
    ensures IndexOf(PatchAfter(s, marker, text), marker) == IndexOf(s, marker)
    ensures var i := IndexOf(s, marker).value;
      PatchAfter(s, marker, text)[i + |marker|..i + |marker| + |text|] == text
  {
    var i := IndexOf(s, marker).value;
    var p := i + |marker|;
    PatchAfterShape(s, marker, text);
    var r := PatchAfter(s, marker, text);
    var head, tail := s[..p], s[p..];
    assert r == head + text + tail;
    assert r[..p] == s[..p];
    SamePrefixOccurs(r, s, p, marker, i);
    forall j | 0 <= j < i ensures !OccursAt(r, marker, j) {
      SamePrefixOccurs(r, s, p, marker, j);
    }
    IndexOfIs(r, marker, i);
    assert r[p..p + |text|] == text;
  }

  const CommonMarker: string := "#include <common>"
  const BeginVertexMarker: string := "#include <begin_vertex>"
  const DitheringMarker: string := "#include <dithering_fragment>"

  /** What the vertex patches insert. */
  const VertexDeclarations: string := "\n        varying vec3 vPos;\n    "
  const VertexMain: string := "\n        vPos = position;\n    "

  /** What the fragment patches insert; `snoise` is the noise source imported from a GLSL file. */
  function FragmentDeclarations(snoise: string): string
  {
    FragmentUniforms + snoise + "\n    "
  }

  const FragmentUniforms: string :=
    "\n        varying vec3 vPos;\n\n        uniform float uFreq;\n        uniform float uAmp;\n        uniform float uProgress;\n        uniform float uEdge;\n        uniform vec3 uEdgeColor;\n\n        "

  const FragmentDissolve: string :=
    "\n\n        float noise = snoise(vPos * uFreq) * uAmp; // \U{5728}\U{7247}\U{6bb5}\U{7740}\U{8272}\U{5668}\U{4e2d}\U{8ba1}\U{7b97}\U{566a}\U{58f0}\U{4ee5}\U{83b7}\U{5f97}\U{5e73}\U{6ed1}\U{7684}\U{6eb6}\U{89e3}\U{8fb9}\U{7f18}\n\n        if(noise < uProgress) discard; // \U{4e22}\U{5f03}\U{566a}\U{58f0}\U{4f4e}\U{4e8e}\U{8fdb}\U{5ea6}\U{7684}\U{4efb}\U{4f55}\U{7247}\U{6bb5}\n\n        float edgeWidth = uProgress + uEdge;\n\n        if(noise > uProgress && noise < edgeWidth){\n            gl_FragColor = vec4(vec3(uEdgeColor),noise); // \U{7740}\U{8272}\U{8fb9}\U{7f18}\n        }else{\n            gl_FragColor = vec4(gl_FragColor.xyz,1.0);\n        }\n    "

  /** The vertex shader after both vertex patches. */
  function PatchedVertex(s: string): string
  {
    PatchAfter(PatchAfter(s, CommonMarker, VertexDeclarations), BeginVertexMarker, VertexMain)
  }

  /** The fragment shader after both fragment patches. */
  function PatchedFragment(s: string, snoise: string): string
  {
    PatchAfter(PatchAfter(s, CommonMarker, FragmentDeclarations(snoise)), DitheringMarker, FragmentDissolve)
  }

  /** `setupDissolveShader`: the two vertex patches, then the two fragment patches. */
  method SetupDissolveShader(shader: Shader, snoise: string)
    modifies shader`vertexShader, shader`fragmentShader
    ensures shader.vertexShader == PatchedVertex(old(shader.vertexShader))
    ensures shader.fragmentShader == PatchedFragment(old(shader.fragmentShader), snoise)
  {
    var v := Patch(shader.vertexShader, CommonMarker, VertexDeclarations);
    v := Patch(v, BeginVertexMarker, VertexMain);
    var f := Patch(shader.fragmentShader, CommonMarker, FragmentDeclarations(snoise));
    f := Patch(f, DitheringMarker, FragmentDissolve);
    shader.vertexShader := v;
    shader.fragmentShader := f;
  }

  /** One `s.replace(marker, marker + text)` of the shader setup. */
  method Patch(s: string, marker: string, text: string) returns (r: string)
    ensures r == PatchAfter(s, marker, text)
  {
    r := ReplaceFirst(s, marker, marker + text);
  }

  /** The keys of `dissolveUniformData`, in declaration order. */
  const UniformKeys: seq<string> := ["uEdgeColor", "uFreq", "uAmp", "uProgress", "uEdge"]

  /** The uniform keys are all different, and a map with exactly these keys is listed by them. */
  lemma UniformKeysListed<V>(m: map<string, V>)
    requires m.Keys == {"uEdgeColor", "uFreq", "uAmp", "uProgress", "uEdge"}
    ensures ListsKeys(UniformKeys, m)
  {
    var listed := set j | 0 <= j < |UniformKeys| :: UniformKeys[j];
    forall k | k in m.Keys ensures k in listed {
      if k == "uEdgeColor" { assert UniformKeys[0] == k; }
      else if k == "uFreq" { assert UniformKeys[1] == k; }
      else if k == "uAmp" { assert UniformKeys[2] == k; }
      else if k == "uProgress" { assert UniformKeys[3] == k; }
      else { assert UniformKeys[4] == k; }
    }
  }

  const InitialProgress: real := -7.0
  const WrapAbove: real := 14.0
  const ProgressStep: real := 0.08
  const SliderMin: real := -20.0
  const SliderMax: real := 20.0

  /** One enabled step of `animateDissolve`: past 14 the progress restarts at -7, then it advances by 0.08. */
  function NextProgress(p: real): (q: real)
    ensures p > WrapAbove ==> q == InitialProgress + ProgressStep
    ensures p <= WrapAbove ==> q == p + ProgressStep
  {
    (if p > WrapAbove then InitialProgress else p) + ProgressStep
  }

  /** The progress cycle from -7 up to just past 14 is closed under the step,
      and a step never leaves the value above 14.08. */
  lemma ProgressCycle(p: real)
    ensures InitialProgress <= p <= WrapAbove + ProgressStep ==>
      InitialProgress <= NextProgress(p) <= WrapAbove + ProgressStep
    ensures NextProgress(p) <= WrapAbove + ProgressStep
  {
  }

  /** The demo's state: the uniform objects of `dissolveUniformData`, the
      `tweaks` object and the slider bound to it. */
  class DissolveDemo {
    const data: map<string, Uniform>
    const progress: Uniform
    var dissolveProgress: real
    var autoDissolve: Option<bool>

    ghost predicate Valid()
      reads this, progress
    {
      ListsKeys(UniformKeys, data) &&
      "uProgress" in data && data["uProgress"] == progress && progress.value.FloatValue?
    }

    /** The module's initialisation: the five uniforms with their values and
        `tweaks` holding only `dissolveProgress`, mirrored from `uProgress`. */
    constructor ()
      ensures Valid() && fresh(progress)
      ensures progress.value == FloatValue(InitialProgress) && dissolveProgress == InitialProgress
      ensures autoDissolve == None
      ensures data.Keys == {"uEdgeColor", "uFreq", "uAmp", "uProgress", "uEdge"}
      ensures data["uFreq"].value == FloatValue(0.25) && data["uAmp"].value == FloatValue(16.0)
      ensures data["uEdge"].value == FloatValue(0.8) && data["uEdgeColor"].value == ColorValue(0x4d9bff)
    {
      var edgeColor := new Uniform(ColorValue(0x4d9bff));
      var freq := new Uniform(FloatValue(0.25));
      var amp := new Uniform(FloatValue(16.0));
      var prog := new Uniform(FloatValue(-7.0));
      var edge := new Uniform(FloatValue(0.8));
      var uniforms := map["uEdgeColor" := edgeColor, "uFreq" := freq, "uAmp" := amp, "uProgress" := prog, "uEdge" := edge];
      UniformKeysListed(uniforms);
      data := uniforms;
      progress := prog;
      dissolveProgress := prog.value.x;
      autoDissolve := None;
    }

    /** `onBeforeCompile`: the shader receives this demo's own uniform objects
        and the dissolve patches. */
    method OnBeforeCompile(shader: Shader, snoise: string)
      requires Valid()
      modifies shader`uniforms, shader`vertexShader, shader`fragmentShader
      ensures shader.uniforms == old(shader.uniforms) + data
      ensures shader.vertexShader == PatchedVertex(old(shader.vertexShader))
      ensures shader.fragmentShader == PatchedFragment(old(shader.fragmentShader), snoise)
    {
      SetupUniforms(shader, UniformKeys, data);
      assert shader.vertexShader == old(shader.vertexShader);
      assert shader.fragmentShader == old(shader.fragmentShader);
      SetupDissolveShader(shader, snoise);
    }

    /** The slider's `change` listener; the slider only produces values in [-20, 20]. */
    method OnSliderChange(value: real)
      requires Valid() && SliderMin <= value <= SliderMax
      modifies progress, this`dissolveProgress
      ensures Valid()
      ensures dissolveProgress == value && progress.value == FloatValue(value)
    {
      dissolveProgress := value;
      progress.value := FloatValue(value);
    }

    /** `animateDissolve`: nothing while `tweaks.autoDissolve` is falsy;
        otherwise one progress step, written back to the slider. No method
        of the demo may change `autoDissolve`, which starts undefined, so
        this is a no-op on every frame. */
    method AnimateDissolve()
      requires Valid()
      modifies progress, this`dissolveProgress
      ensures Valid()
      ensures autoDissolve != Some(true) ==> progress.value == old(progress.value) && dissolveProgress == old(dissolveProgress)
      ensures autoDissolve == Some(true) ==>
        progress.value == FloatValue(NextProgress(old(progress.value.x))) && dissolveProgress == progress.value.x
    {
      if autoDissolve != Some(true) {
        return;
      }
      if progress.value.x > WrapAbove {
        progress.value := FloatValue(InitialProgress);
      }
      progress.value := FloatValue(progress.value.x + ProgressStep);
      dissolveProgress := progress.value.x;
    }
  }
}
