/**
 * The lexical heuristics that profile one shader from its raw source text. The text
 * is `None` when the shader's source file does not exist; every estimate then falls
 * back to its default.
 */
module Classifier {
  import opened Wrappers
  import opened Text

  datatype ShaderModel =
    | Unknown
    | SM2_0 | SM2_5 | SM3_0 | SM3_5 | SM4_0 | SM4_5 | SM5_0 | SM5_1 | SM6_0 | SM6_2

  datatype ShaderPrecision = Unknown | Half | Float | Fixed

  /** The `#pragma target` markers, in the order `GetShaderModel` tests them. */
  const ModelMarkers: seq<string> := [
    "target 2.0", "target 2.5", "target 3.0", "target 3.5", "target 4.0",
    "target 4.5", "target 5.0", "target 5.1", "target 6.0", "target 6.2"
  ]

  /** `ModelTags[k]` is the result when `ModelMarkers[k]` is the first marker found. */
  const ModelTags: seq<ShaderModel> := [
    SM2_0, SM2_5, SM3_0, SM3_5, SM4_0, SM4_5, SM5_0, SM5_1, SM6_0, SM6_2
  ]

  /** The precision keywords, in the order `GetShaderPrecision` tests them. */
  const PrecisionMarkers: seq<string> := ["half", "float", "fixed"]

  const PrecisionTags: seq<ShaderPrecision> := [Half, Float, Fixed]

  /** The keywords whose occurrences are summed into the instruction estimate. */
  const Operations: seq<string> := [
    "add", "mul", "sub", "div", "dot", "cross", "normalize",
    "lerp", "sin", "cos", "tan", "exp", "log"
  ]

  /** The call whose occurrences are the texture-sample estimate. */
  const TextureSampleCall: string := "tex2D("

  /** `GetShaderModel`: the first marker contained in the text, in test order, wins. */
  function GetShaderModel(text: Option<string>): ShaderModel
  {
    match text
    case None => ShaderModel.Unknown
    case Some(code) =>
      if Contains(code, "target 2.0") then SM2_0
      else if Contains(code, "target 2.5") then SM2_5
      else if Contains(code, "target 3.0") then SM3_0
      else if Contains(code, "target 3.5") then SM3_5
      else if Contains(code, "target 4.0") then SM4_0
      else if Contains(code, "target 4.5") then SM4_5
      else if Contains(code, "target 5.0") then SM5_0
      else if Contains(code, "target 5.1") then SM5_1
      else if Contains(code, "target 6.0") then SM6_0
      else if Contains(code, "target 6.2") then SM6_2
      else ShaderModel.Unknown
  }

  /** `GetShaderPrecision`: first of "half", "float", "fixed" contained in the text. */
  function GetShaderPrecision(text: Option<string>): ShaderPrecision
  {
    match text
    case None => ShaderPrecision.Unknown
    case Some(code) =>
      if Contains(code, "half") then Half
      else if Contains(code, "float") then Float
      else if Contains(code, "fixed") then Fixed
      else ShaderPrecision.Unknown
  }

  /**
   * Reference definition of a first-match-wins table lookup: the tag of the first
   * marker at index `k` or later that `code` contains, or `otherwise`.
   */
  function FirstMatch<T>(code: string, markers: seq<string>, tags: seq<T>, otherwise: T, k: nat): T
    requires |markers| == |tags| && k <= |markers|
    decreases |markers| - k
  {
    if k == |markers| then otherwise
    else if Contains(code, markers[k]) then tags[k]
    else FirstMatch(code, markers, tags, otherwise, k + 1)
  }

  /** The first contained marker at or after `k` decides the lookup. */
  lemma {:induction false} FirstMatchPicksFirst<T>(code: string, markers: seq<string>, tags: seq<T>, otherwise: T, k: nat, j: nat)
    requires |markers| == |tags| && k <= j < |markers|
    requires Contains(code, markers[j])
    requires forall i :: k <= i < j ==> !Contains(code, markers[i])
    ensures FirstMatch(code, markers, tags, otherwise, k) == tags[j]
    decreases j - k
  {
    if k < j {
      FirstMatchPicksFirst(code, markers, tags, otherwise, k + 1, j);
    }
  }

  /** With a fallback that is no tag, the lookup falls back exactly when no marker is contained. */
  lemma {:induction false} FirstMatchFallsBack<T>(code: string, markers: seq<string>, tags: seq<T>, otherwise: T, k: nat)
    requires |markers| == |tags| && k <= |markers|
    requires otherwise !in tags
    ensures FirstMatch(code, markers, tags, otherwise, k) == otherwise <==>
              forall i :: k <= i < |markers| ==> !Contains(code, markers[i])
    decreases |markers| - k
  {
    if k < |markers| {
      FirstMatchFallsBack(code, markers, tags, otherwise, k + 1);
      if Contains(code, markers[k]) {
        assert tags[k] in tags;
      }
    }
  }

  /** The if-chain of `GetShaderModel` is the table lookup over `ModelMarkers`. */
  lemma ShaderModelIsFirstMatch(code: string)
    ensures GetShaderModel(Some(code)) == FirstMatch(code, ModelMarkers, ModelTags, ShaderModel.Unknown, 0)
  {
    var m, t, u := ModelMarkers, ModelTags, ShaderModel.Unknown;
    assert m[0] == "target 2.0" && m[1] == "target 2.5" && m[2] == "target 3.0" && m[3] == "target 3.5";
    assert m[4] == "target 4.0" && m[5] == "target 4.5" && m[6] == "target 5.0" && m[7] == "target 5.1";
    assert m[8] == "target 6.0" && m[9] == "target 6.2" && |m| == |t| == 10;
    assert FirstMatch(code, m, t, u, 10) == u;
    assert FirstMatch(code, m, t, u, 9) == if Contains(code, "target 6.2") then SM6_2 else u;
    assert FirstMatch(code, m, t, u, 8) == if Contains(code, "target 6.0") then SM6_0 else FirstMatch(code, m, t, u, 9);
    assert FirstMatch(code, m, t, u, 7) == if Contains(code, "target 5.1") then SM5_1 else FirstMatch(code, m, t, u, 8);
    assert FirstMatch(code, m, t, u, 6) == if Contains(code, "target 5.0") then SM5_0 else FirstMatch(code, m, t, u, 7);
    assert FirstMatch(code, m, t, u, 5) == if Contains(code, "target 4.5") then SM4_5 else FirstMatch(code, m, t, u, 6);
    assert FirstMatch(code, m, t, u, 4) == if Contains(code, "target 4.0") then SM4_0 else FirstMatch(code, m, t, u, 5);
    assert FirstMatch(code, m, t, u, 3) == if Contains(code, "target 3.5") then SM3_5 else FirstMatch(code, m, t, u, 4);
    assert FirstMatch(code, m, t, u, 2) == if Contains(code, "target 3.0") then SM3_0 else FirstMatch(code, m, t, u, 3);
    assert FirstMatch(code, m, t, u, 1) == if Contains(code, "target 2.5") then SM2_5 else FirstMatch(code, m, t, u, 2);
    assert FirstMatch(code, m, t, u, 0) == if Contains(code, "target 2.0") then SM2_0 else FirstMatch(code, m, t, u, 1);
  }

  /**
   * First match wins in test order: if marker `k` is contained and no marker before
   * it in `ModelMarkers` is, the model is `ModelTags[k]`, whatever later markers the
   * text holds and wherever they stand in it.
   */
  lemma ShaderModelFirstMatchWins(code: string, k: nat)
    requires k < |ModelMarkers| && Contains(code, ModelMarkers[k])
    requires forall j :: 0 <= j < k ==> !Contains(code, ModelMarkers[j])
    ensures GetShaderModel(Some(code)) == ModelTags[k]
  {
    ShaderModelIsFirstMatch(code);
    FirstMatchPicksFirst(code, ModelMarkers, ModelTags, ShaderModel.Unknown, 0, k);
  }

  /** The model is `Unknown` exactly when the text is unavailable or holds no marker. */
  lemma ShaderModelUnknownIff(text: Option<string>)
    ensures GetShaderModel(text) == ShaderModel.Unknown <==>
              text.None? || forall k :: 0 <= k < |ModelMarkers| ==> !Contains(text.value, ModelMarkers[k])
  {
    if text.Some? {
      ShaderModelIsFirstMatch(text.value);
      FirstMatchFallsBack(text.value, ModelMarkers, ModelTags, ShaderModel.Unknown, 0);
    }
  }

  /** The if-chain of `GetShaderPrecision` is the table lookup over `PrecisionMarkers`. */
  lemma PrecisionIsFirstMatch(code: string)
    ensures GetShaderPrecision(Some(code)) == FirstMatch(code, PrecisionMarkers, PrecisionTags, ShaderPrecision.Unknown, 0)
  {
    var m, t, u := PrecisionMarkers, PrecisionTags, ShaderPrecision.Unknown;
    assert FirstMatch(code, m, t, u, 2) == if Contains(code, "fixed") then Fixed else u;
    assert FirstMatch(code, m, t, u, 1) == if Contains(code, "float") then Float else FirstMatch(code, m, t, u, 2);
    assert FirstMatch(code, m, t, u, 0) == if Contains(code, "half") then Half else FirstMatch(code, m, t, u, 1);
  }

  /** First match wins over "half", "float", "fixed", by raw case-sensitive substring test. */
  lemma PrecisionFirstMatchWins(code: string, k: nat)
    requires k < |PrecisionMarkers| && Contains(code, PrecisionMarkers[k])
    requires forall j :: 0 <= j < k ==> !Contains(code, PrecisionMarkers[j])
    ensures GetShaderPrecision(Some(code)) == PrecisionTags[k]
  {
    PrecisionIsFirstMatch(code);
    FirstMatchPicksFirst(code, PrecisionMarkers, PrecisionTags, ShaderPrecision.Unknown, 0, k);
  }

  /** The precision is `Unknown` exactly when the text is unavailable or holds none of the keywords. */
  lemma PrecisionUnknownIff(text: Option<string>)
    ensures GetShaderPrecision(text) == ShaderPrecision.Unknown <==>
              text.None? || forall k :: 0 <= k < |PrecisionMarkers| ==> !Contains(text.value, PrecisionMarkers[k])
  {
    if text.Some? {
      PrecisionIsFirstMatch(text.value);
      FirstMatchFallsBack(text.value, PrecisionMarkers, PrecisionTags, ShaderPrecision.Unknown, 0);
    }
  }

  /** A marker standing at a known position makes the text contain it. */
  lemma ContainsAt(s: string, sub: string, i: nat)
    requires OccursAt(s, sub, i)
    ensures Contains(s, sub)
  {
  }

  /** A text with "target 5.0" before "target 2.0" is still classified 2.0. */
  lemma ShaderModelIgnoresTextOrder()
    ensures GetShaderModel(Some("target 5.0 target 2.0")) == SM2_0
  {
    var code := "target 5.0 target 2.0";
    assert code[11..21] == "target 2.0";
    ContainsAt(code, "target 2.0", 11);
  }

  /** A text holding both "float" and "half" is `Half`, "half" being tested first. */
  lemma PrecisionHalfBeforeFloat()
    ensures GetShaderPrecision(Some("float4 c; half h;")) == Half
  {
    var code := "float4 c; half h;";
    assert code[10..14] == "half";
    ContainsAt(code, "half", 10);
  }

  predicate AllNonEmpty(ops: seq<string>)
  {
    forall i :: 0 <= i < |ops| ==> |ops[i]| > 0
  }

  /** Sum of the non-overlapping occurrence counts of each keyword in `ops`. */
  function SumOccurrences(code: string, ops: seq<string>): nat
    requires AllNonEmpty(ops)
  {
    if ops == [] then 0
    else SumOccurrences(code, ops[..|ops| - 1]) + Occurrences(code, ops[|ops| - 1])
  }

  /** Keywords of at least three characters: three times the sum is at most |ops| * |code|. */
  lemma {:induction false} SumOccurrencesBound(code: string, ops: seq<string>)
    requires forall i :: 0 <= i < |ops| ==> |ops[i]| >= 3
    ensures 3 * SumOccurrences(code, ops) <= |ops| * |code|
  {
    if ops != [] {
      var init, op := ops[..|ops| - 1], ops[|ops| - 1];
      SumOccurrencesBound(code, init);
      HitsBound(code, op, 0);
      ShortKeywordBound(Occurrences(code, op), |op|, |code|);
      SuccTimes(|init|, |code|);
    }
  }

  lemma ShortKeywordBound(n: nat, len: nat, total: nat)
    requires len >= 3 && n * len <= total
    ensures 3 * n <= total
  {
    assert n * len == 3 * n + n * (len - 3);
  }

  lemma SuccTimes(a: nat, c: nat)
    ensures (a + 1) * c == a * c + c
  {
  }

  /** The instruction estimate a shader's text yields; 0 when the text is unavailable. */
  function InstructionEstimate(text: Option<string>): nat
  {
    assert AllNonEmpty(Operations);
    match text
    case None => 0
    case Some(code) => SumOccurrences(code, Operations)
  }

  /** The texture-sample estimate a shader's text yields; 0 when the text is unavailable. */
  function TextureEstimate(text: Option<string>): nat
  {
    match text
    case None => 0
    case Some(code) => Occurrences(code, TextureSampleCall)
  }

  /** No keyword is shorter than three characters, so the estimate is at most 13 * |code| / 3. */
  lemma InstructionEstimateBound(code: string)
    ensures 3 * InstructionEstimate(Some(code)) <= 13 * |code|
  {
    SumOccurrencesBound(code, Operations);
  }

  /** Unavailable text gives `Unknown`, `Unknown`, 0 and 0, and no error. */
  lemma UnavailableTextDefaults()
    ensures GetShaderModel(None) == ShaderModel.Unknown
    ensures GetShaderPrecision(None) == ShaderPrecision.Unknown
    ensures InstructionEstimate(None) == 0 && TextureEstimate(None) == 0
  {
  }

  /** `GetInstructionCount`: add up the count of every keyword of `Operations`, in order. */
  method GetInstructionCount(text: Option<string>) returns (instructionCount: nat)
    ensures instructionCount == InstructionEstimate(text)
    ensures text.None? ==> instructionCount == 0
    ensures text.Some? ==> 3 * instructionCount <= 13 * |text.value|
  {
    if text.None? {
      return 0;
    }
    var code := text.value;
    instructionCount := 0;
    for i := 0 to |Operations|
      invariant instructionCount == SumOccurrences(code, Operations[..i])
    {
      var n := CountOccurrences(code, Operations[i]);
      assert Operations[..i + 1][..i] == Operations[..i];
      instructionCount := instructionCount + n;
    }
    assert Operations[..|Operations|] == Operations;
    InstructionEstimateBound(code);
  }

  /** `GetTextureSampleCount`: the number of non-overlapping "tex2D(" in the text. */
  method GetTextureSampleCount(text: Option<string>) returns (textureSampleCount: nat)
    ensures textureSampleCount == TextureEstimate(text)
    ensures text.None? ==> textureSampleCount == 0
    ensures text.Some? ==> textureSampleCount * |TextureSampleCall| <= |text.value|
  {
    if text.None? {
      return 0;
    }
    textureSampleCount := CountOccurrences(text.value, TextureSampleCall);
  }
}
