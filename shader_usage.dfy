/**
 * The scan that turns the project's materials into one profile per distinct shader,
 * and the query that lists the shaders classified with a chosen model.
 *
 * The asset database is replaced by its answers: the scan receives, for each
 * material asset in enumeration order, the material (or `None` when it failed to
 * load), its shader (or `None`), and for that shader its asset path and the source
 * text as it reads at that moment (`None` when the file does not exist).
 */
module ShaderUsage {
  import opened Wrappers
  import opened Text
  import opened Classifier

  /** Shader and material handles, equal when they denote the same asset. */
  type Shader(==, !new)
  type Material(==)

  datatype ShaderAsset = ShaderAsset(id: Shader, path: string, text: Option<string>)
  datatype MaterialAsset = MaterialAsset(id: Material, shader: Option<ShaderAsset>)

  /** One loaded material asset, `None` when loading returned null. */
  type Observation = Option<MaterialAsset>

  /** Asset-path prefix of the resources bundled with the editor. */
  const BuiltinPrefix: string := "Resources/unity_builtin_extra"

  /** `IsBuiltinResource`, on the asset path of the object. */
  predicate IsBuiltinResource(path: string)
  {
    StartsWith(path, BuiltinPrefix)
  }

  /** The built-in paths are exactly the prefix followed by anything. */
  lemma BuiltinPathsArePrefixed(path: string, rest: string)
    ensures IsBuiltinResource(BuiltinPrefix + rest)
    ensures IsBuiltinResource(path) ==> path == BuiltinPrefix + path[|BuiltinPrefix|..]
    ensures |path| < |BuiltinPrefix| ==> !IsBuiltinResource(path)
  {
  }

  /** The profile kept per shader; `isExpanded` is display state and not modelled. */
  datatype ShaderInfo = ShaderInfo(
    shaderModel: ShaderModel,
    precision: ShaderPrecision,
    instructionCount: nat,
    textureSampleCount: nat,
    materials: seq<Material>)

  /** The profile created when a shader is first seen: classified, with no material yet. */
  function NewInfo(text: Option<string>): ShaderInfo
  {
    ShaderInfo(GetShaderModel(text), GetShaderPrecision(text), InstructionEstimate(text), TextureEstimate(text), [])
  }

  /** A material that loaded, has a shader, and whose shader is not built in. */
  predicate Accepted(o: Observation)
  {
    o.Some? && o.value.shader.Some? && !IsBuiltinResource(o.value.shader.value.path)
  }

  /** Observation `o` is an accepted material using shader `s`. */
  predicate Sights(o: Observation, s: Shader)
  {
    Accepted(o) && o.value.shader.value.id == s
  }

  predicate SeenIn(obs: seq<Observation>, s: Shader)
  {
    exists i :: 0 <= i < |obs| && Sights(obs[i], s)
  }

  /** The position of the first accepted material that uses `s`. */
  function FirstSight(obs: seq<Observation>, s: Shader): (i: nat)
    requires SeenIn(obs, s)
    ensures i < |obs| && Sights(obs[i], s)
    ensures forall j :: 0 <= j < i ==> !Sights(obs[j], s)
  {
    var init := obs[..|obs| - 1];
    if SeenIn(init, s) then FirstSight(init, s)
    else
      assert forall j :: 0 <= j < |init| ==> obs[j] == init[j];
      |obs| - 1
  }

  /** The materials of the accepted observations that use `s`, in enumeration order. */
  function MaterialsFor(obs: seq<Observation>, s: Shader): seq<Material>
  {
    if obs == [] then []
    else
      var o := obs[|obs| - 1];
      MaterialsFor(obs[..|obs| - 1], s) + if Sights(o, s) then [o.value.id] else []
  }

  /** The shader index: the dictionary's entries and its enumeration (insertion) order. */
  datatype Index = Index(keys: seq<Shader>, infos: map<Shader, ShaderInfo>)

  /** One iteration of the scan loop. */
  function Record(ix: Index, o: Observation): Index
  {
    if !Accepted(o) then ix
    else
      var sh := o.value.shader.value;
      var ix' := if sh.id in ix.infos then ix
                 else Index(ix.keys + [sh.id], ix.infos[sh.id := NewInfo(sh.text)]);
      var info := ix'.infos[sh.id];
      Index(ix'.keys, ix'.infos[sh.id := info.(materials := info.materials + [o.value.id])])
  }

  /** The index a scan over `obs` produces, starting from an empty one. */
  function Scan(obs: seq<Observation>): Index
  {
    if obs == [] then Index([], map[])
    else Record(Scan(obs[..|obs| - 1]), obs[|obs| - 1])
  }

  lemma SeenInSnoc(obs: seq<Observation>, s: Shader)
    requires obs != []
    ensures SeenIn(obs, s) <==> SeenIn(obs[..|obs| - 1], s) || Sights(obs[|obs| - 1], s)
  {
  }

  /** Exactly the shaders of accepted materials become keys. */
  lemma {:induction false} ScanKeys(obs: seq<Observation>)
    ensures forall s :: s in Scan(obs).infos <==> SeenIn(obs, s)
  {
    if obs != [] {
      ScanKeys(obs[..|obs| - 1]);
      forall s {
        SeenInSnoc(obs, s);
      }
    }
  }

  /** The enumeration order lists every key once and nothing else. */
  lemma {:induction false} ScanOrderListsKeys(obs: seq<Observation>)
    ensures forall i, j :: 0 <= i < j < |Scan(obs).keys| ==> Scan(obs).keys[i] != Scan(obs).keys[j]
    ensures forall s :: s in Scan(obs).keys <==> s in Scan(obs).infos
  {
    if obs != [] {
      ScanOrderListsKeys(obs[..|obs| - 1]);
    }
  }

  /** Each key's material list is the accepted materials using it, in enumeration order. */
  lemma {:induction false} ScanMaterials(obs: seq<Observation>)
    ensures forall s :: s in Scan(obs).infos ==> Scan(obs).infos[s].materials == MaterialsFor(obs, s)
  {
    if obs != [] {
      var init := obs[..|obs| - 1];
      ScanMaterials(init);
      ScanKeys(init);
      forall s | s in Scan(obs).infos
        ensures Scan(obs).infos[s].materials == MaterialsFor(obs, s)
      {
        if s !in Scan(init).infos {
          assert !SeenIn(init, s);
          MaterialsForUnseen(init, s);
        }
      }
    }
  }

  lemma {:induction false} MaterialsForUnseen(obs: seq<Observation>, s: Shader)
    requires !SeenIn(obs, s)
    ensures MaterialsFor(obs, s) == []
  {
    if obs != [] {
      SeenInSnoc(obs, s);
      MaterialsForUnseen(obs[..|obs| - 1], s);
    }
  }

  /**
   * Classification happens once, at first sight: apart from its materials, each
   * profile is the classification of the text carried by the first accepted
   * material that uses the shader, whatever later materials carry.
   */
  lemma {:induction false} ScanClassifiesAtFirstSight(obs: seq<Observation>)
    ensures forall s :: s in Scan(obs).infos ==>
              SeenIn(obs, s) &&
              Scan(obs).infos[s].(materials := []) == NewInfo(obs[FirstSight(obs, s)].value.shader.value.text)
  {
    ScanKeys(obs);
    if obs != [] {
      var init := obs[..|obs| - 1];
      ScanClassifiesAtFirstSight(init);
      ScanKeys(init);
      forall s | s in Scan(obs).infos
        ensures Scan(obs).infos[s].(materials := []) == NewInfo(obs[FirstSight(obs, s)].value.shader.value.text)
      {
        if s in Scan(init).infos {
          assert obs[FirstSight(init, s)] == init[FirstSight(init, s)];
        }
      }
    }
  }

  /** Keys are enumerated in the order their shaders were first seen. */
  lemma {:induction false} ScanKeyOrder(obs: seq<Observation>)
    ensures forall i, j :: 0 <= i < j < |Scan(obs).keys| ==>
              SeenIn(obs, Scan(obs).keys[i]) && SeenIn(obs, Scan(obs).keys[j]) &&
              FirstSight(obs, Scan(obs).keys[i]) < FirstSight(obs, Scan(obs).keys[j])
  {
    ScanKeys(obs);
    ScanOrderListsKeys(obs);
    if obs != [] {
      var init := obs[..|obs| - 1];
      ScanKeyOrder(init);
      ScanKeys(init);
      ScanOrderListsKeys(init);
      var keys, keys0 := Scan(obs).keys, Scan(init).keys;
      forall i, j | 0 <= i < j < |keys|
        ensures FirstSight(obs, keys[i]) < FirstSight(obs, keys[j])
      {
        assert keys[i] == keys0[i];
        assert keys[i] in Scan(init).infos;
        if j < |keys0| {
          assert keys[j] == keys0[j];
        } else {
          assert keys[j] !in Scan(init).infos;
        }
      }
    }
  }

  /** A rejected observation (null material, null shader, built-in shader) changes nothing. */
  lemma ScanSkipsRejected(obs: seq<Observation>, o: Observation)
    requires !Accepted(o)
    ensures Scan(obs + [o]) == Scan(obs)
  {
  }

  /** A shader that only ever appears with a built-in path is never a key. */
  lemma BuiltinNeverKeyed(obs: seq<Observation>, s: Shader)
    requires forall i :: 0 <= i < |obs| && obs[i].Some? && obs[i].value.shader.Some? && obs[i].value.shader.value.id == s
               ==> IsBuiltinResource(obs[i].value.shader.value.path)
    ensures s !in Scan(obs).infos
  {
    ScanKeys(obs);
  }

  /** N accepted materials sharing one shader give one key with those N materials, in order. */
  lemma {:induction false} ScanDedupsOneShader(obs: seq<Observation>, s: Shader)
    requires obs != []
    requires forall i :: 0 <= i < |obs| ==> obs[i].Some? && Sights(obs[i], s)
    ensures Scan(obs).keys == [s] && s in Scan(obs).infos
    ensures |Scan(obs).infos[s].materials| == |obs|
    ensures forall i :: 0 <= i < |obs| ==> Scan(obs).infos[s].materials[i] == obs[i].value.id
  {
    var init := obs[..|obs| - 1];
    if init != [] {
      ScanDedupsOneShader(init, s);
    }
  }

  /**
   * M1 and M2 use S1, M3 uses S2 whose text is unavailable: S1 is profiled from its
   * text with materials [M1, M2]; S2 gets the defaults with materials [M3].
   */
  lemma ScanScenario(m1: Material, m2: Material, m3: Material, s1: ShaderAsset, s2: ShaderAsset)
    requires s1.id != s2.id && s1.text.Some? && s2.text.None?
    requires !IsBuiltinResource(s1.path) && !IsBuiltinResource(s2.path)
    ensures var ix := Scan([Some(MaterialAsset(m1, Some(s1))), Some(MaterialAsset(m2, Some(s1))), Some(MaterialAsset(m3, Some(s2)))]);
      && ix.keys == [s1.id, s2.id]
      && ix.infos == map[s1.id := NewInfo(s1.text).(materials := [m1, m2]),
                         s2.id := ShaderInfo(ShaderModel.Unknown, ShaderPrecision.Unknown, 0, 0, [m3])]
  {
    var o1, o2, o3 := Some(MaterialAsset(m1, Some(s1))), Some(MaterialAsset(m2, Some(s1))), Some(MaterialAsset(m3, Some(s2)));
    var obs := [o1, o2, o3];
    assert obs[..2] == [o1, o2] && [o1, o2][..1] == [o1] && [o1][..0] == [];
    var info := NewInfo(s1.text);
    assert Scan([]) == Index([], map[]);
    assert Accepted(o1) && Accepted(o2) && Accepted(o3);
    assert Scan([o1]) == Record(Index([], map[]), o1);
    var r1 := Record(Index([], map[]), o1);
    assert r1.keys == [s1.id];
    assert r1.infos.Keys == {s1.id};
    assert r1.infos[s1.id] == info.(materials := [m1]);
    assert Scan([o1]) == Index([s1.id], map[s1.id := info.(materials := [m1])]);
    var i1 := Index([s1.id], map[s1.id := info.(materials := [m1])]);
    assert Scan([o1, o2]) == Record(i1, o2);
    var r2 := Record(i1, o2);
    assert r2.keys == [s1.id] && r2.infos.Keys == {s1.id};
    assert r2.infos[s1.id] == info.(materials := [m1, m2]);
    var i2 := Index([s1.id], map[s1.id := info.(materials := [m1, m2])]);
    assert Scan(obs) == Record(i2, o3);
    var r3 := Record(i2, o3);
    assert r3.keys == [s1.id, s2.id] && r3.infos.Keys == {s1.id, s2.id};
    assert r3.infos[s1.id] == info.(materials := [m1, m2]);
    assert r3.infos[s2.id] == ShaderInfo(ShaderModel.Unknown, ShaderPrecision.Unknown, 0, 0, [m3]);
  }

  /** The keys among `keys` whose stored model is `tag`, in the order of `keys`. */
  function ShadersWithModel(keys: seq<Shader>, infos: map<Shader, ShaderInfo>, tag: ShaderModel): seq<Shader>
    requires forall s :: s in keys ==> s in infos
  {
    if keys == [] then []
    else
      var k := keys[|keys| - 1];
      ShadersWithModel(keys[..|keys| - 1], infos, tag) + if infos[k].shaderModel == tag then [k] else []
  }

  /** The filter keeps exactly the keys tagged `tag`, and keeps a key list free of repeats. */
  lemma {:induction false} ShadersWithModelSelects(keys: seq<Shader>, infos: map<Shader, ShaderInfo>, tag: ShaderModel)
    requires forall s :: s in keys ==> s in infos
    ensures forall s :: s in ShadersWithModel(keys, infos, tag) <==> s in keys && infos[s].shaderModel == tag
    ensures (forall i, j :: 0 <= i < j < |keys| ==> keys[i] != keys[j]) ==>
              forall i, j :: 0 <= i < j < |ShadersWithModel(keys, infos, tag)| ==>
                ShadersWithModel(keys, infos, tag)[i] != ShadersWithModel(keys, infos, tag)[j]
  {
    if keys != [] {
      var init := keys[..|keys| - 1];
      ShadersWithModelSelects(init, infos, tag);
      assert forall s :: s in keys <==> s in init || s == keys[|keys| - 1];
    }
  }

  /** Shaders tagged 3.0, 3.0 and 5.0: filtering on 3.0 gives the first two, on 6.2 nothing. */
  lemma ShadersWithModelExample(a: Shader, b: Shader, c: Shader, ia: ShaderInfo, ib: ShaderInfo, ic: ShaderInfo)
    requires a != b && b != c && a != c
    requires ia.shaderModel == SM3_0 && ib.shaderModel == SM3_0 && ic.shaderModel == SM5_0
    ensures ShadersWithModel([a, b, c], map[a := ia, b := ib, c := ic], SM3_0) == [a, b]
    ensures ShadersWithModel([a, b, c], map[a := ia, b := ib, c := ic], SM6_2) == []
  {
    var keys, infos := [a, b, c], map[a := ia, b := ib, c := ic];
    assert keys[..2] == [a, b] && [a, b][..1] == [a] && [a][..0] == [];
    assert ShadersWithModel([a], infos, SM3_0) == [a];
    assert ShadersWithModel([a, b], infos, SM3_0) == [a, b];
    assert ShadersWithModel([a], infos, SM6_2) == [];
    assert ShadersWithModel([a, b], infos, SM6_2) == [];
  }

  /** The editor window's state that the scan and the filter use. */
  class ShaderUsageViewer {
    var selectedShaderModel: ShaderModel
    var shaderUsage: map<Shader, ShaderInfo>
    /** The dictionary's enumeration order: keys in insertion order. */
    var order: seq<Shader>

    ghost predicate Valid()
      reads this
    {
      && (forall i, j :: 0 <= i < j < |order| ==> order[i] != order[j])
      && (forall s :: s in order <==> s in shaderUsage)
    }

    constructor ()
      ensures Valid()
      ensures selectedShaderModel == ShaderModel.Unknown && shaderUsage == map[] && order == []
    {
      selectedShaderModel := ShaderModel.Unknown;
      shaderUsage := map[];
      order := [];
    }

    /** `ScanProject`: clear the dictionary, then record every observation in turn. */
    method ScanProject(observations: seq<Observation>)
      modifies this
      ensures Valid()
      ensures shaderUsage == Scan(observations).infos && order == Scan(observations).keys
      ensures selectedShaderModel == old(selectedShaderModel)
    {
      shaderUsage := map[];
      order := [];
      for i := 0 to |observations|
        invariant shaderUsage == Scan(observations[..i]).infos && order == Scan(observations[..i]).keys
        invariant selectedShaderModel == old(selectedShaderModel)
      {
        var o := observations[i];
        if o.Some? {
          var material := o.value;
          if material.shader.Some? && !IsBuiltinResource(material.shader.value.path) {
            var shader := material.shader.value;
            if shader.id !in shaderUsage {
              var instructionCount := GetInstructionCount(shader.text);
              var textureSampleCount := GetTextureSampleCount(shader.text);
              shaderUsage := shaderUsage[shader.id := ShaderInfo(
                GetShaderModel(shader.text), GetShaderPrecision(shader.text),
                instructionCount, textureSampleCount, [])];
              order := order + [shader.id];
            }
            var info := shaderUsage[shader.id];
            shaderUsage := shaderUsage[shader.id := info.(materials := info.materials + [material.id])];
          }
        }
        assert observations[..i + 1][..i] == observations[..i];
      }
      assert observations[..|observations|] == observations;
      ScanOrderListsKeys(observations);
    }

    /**
     * The filtering loop of `ShowShadersUsingSelectedModel`: the keys whose model is
     * the selected one, each once, in enumeration order; empty when none match.
     */
    method ShowShadersUsingSelectedModel() returns (shaders: seq<Shader>)
      requires Valid()
      ensures shaders == ShadersWithModel(order, shaderUsage, selectedShaderModel)
      ensures forall s :: s in shaders <==> s in shaderUsage && shaderUsage[s].shaderModel == selectedShaderModel
      ensures forall i, j :: 0 <= i < j < |shaders| ==> shaders[i] != shaders[j]
      ensures shaders == [] <==> forall s :: s in shaderUsage ==> shaderUsage[s].shaderModel != selectedShaderModel
    {
      shaders := [];
      for i := 0 to |order|
        invariant shaders == ShadersWithModel(order[..i], shaderUsage, selectedShaderModel)
      {
        var key := order[i];
        if shaderUsage[key].shaderModel == selectedShaderModel {
          shaders := shaders + [key];
        }
        assert order[..i + 1][..i] == order[..i];
      }
      assert order[..|order|] == order;
      ShadersWithModelSelects(order, shaderUsage, selectedShaderModel);
      if shaders != [] {
        assert shaders[0] in shaders;
      }
    }
  }
}
