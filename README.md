# Shader usage viewer: classifier, scan and filter

A Dafny model of the non-UI logic of the Unity editor window `ShaderUsageViewer`
(`Editor/ShaderUsageViewer.cs`). The window scans every material asset of a project. It
builds one profile per distinct shader. A profile holds an apparent `#pragma target`
shader model, an apparent precision, an instruction-count estimate, a texture-sample
estimate, and the materials that use the shader. The window can also list the shaders
classified with a chosen model.

The files:

- `wrappers.dfy`: `Option`, standing for a reference that may be null.
- `text.dfy` (module `Text`): ordinal `Contains`, `StartsWith` and `IndexOf`. It also holds
  `CountOccurrences`, a method with the source's search-and-advance loop. That method is
  proved against `Hits`, a reference definition of greedy left-to-right, non-overlapping
  matching.
- `classifier.dfy` (module `Classifier`): the `ShaderModel` and `ShaderPrecision` enums.
  `GetShaderModel` and `GetShaderPrecision` are the source's `Contains` if-chains.
  `FirstMatch` is an independent table lookup, proved equal to the chains.
  `GetInstructionCount` (a loop over the 13 keywords) and `GetTextureSampleCount` are
  methods proved against the functions `InstructionEstimate` and `TextureEstimate`.
- `shader_usage.dfy` (module `ShaderUsage`): the observations the asset database yields,
  `ShaderInfo`, and `Scan`, the scan as a fold. Lemmas characterise `Scan` independently of
  its definition: which keys it holds, their order, the material lists, and
  classification at first sight. The class `ShaderUsageViewer` holds the `shaderUsage`
  dictionary and its key order. `ScanProject` mutates them in place and is proved equal
  to `Scan`. `ShowShadersUsingSelectedModel` is the filtering loop.

Inputs replaced by parameters: the asset database and the file system become a
sequence of observations. Each observation is the loaded material (`None` when loading
returned null). A material holds its shader (`None` when null). A shader holds its asset
path and its source text as read at that moment (`None` when `File.Exists` is false).
The dictionary's enumeration order is an explicit key sequence, in insertion order. The
scan starts with `shaderUsage.Clear()` and then only adds entries. In the .NET
implementation, `Clear` resets the entry table, and a dictionary that is only added to
afterwards enumerates in insertion order. That is implementation behaviour, not a
documented guarantee of `Dictionary`. Every "in enumeration order" claim below rests on
it: the filter's result order and the key order of the scan.

## Model

| member | source | states |
|---|---|---|
| Text.IndexOf | Editor/ShaderUsageViewer.cs:267 | `IndexOf(sub, start)` gives -1 exactly when no occurrence starts at or after `start`; otherwise it gives the first such occurrence |
| Text.CountOccurrences | Editor/ShaderUsageViewer.cs:262-274 | the loop's count equals the number of greedy left-to-right non-overlapping hits, and `count * |substring| <= |source|`; the needle must be non-empty |
| Text.HitsAreDisjointOccurrences | Editor/ShaderUsageViewer.cs:267-270 | every counted hit is a real occurrence, and after each hit the next one starts at least `|substring|` later (no overlap) |
| Text.HitsCoverEveryOccurrence | Editor/ShaderUsageViewer.cs:267-270 | left-to-right greediness: every occurrence is either counted or starts inside a hit taken before it |
| Text.HitsBound | Editor/ShaderUsageViewer.cs:262-274 | count times needle length is at most the length of the text searched |
| Text.CountExamples | Editor/ShaderUsageViewer.cs:262-274 | "addadd" holds 2 "add"; "aaa" holds 1 "aa", not 2 |
| Classifier.FirstMatchPicksFirst | Editor/ShaderUsageViewer.cs:145-156 | a first-match table lookup returns the tag of the first contained marker, whatever later markers are contained |
| Classifier.FirstMatchFallsBack | Editor/ShaderUsageViewer.cs:145-156 | the lookup returns its fallback exactly when no marker is contained (fallback distinct from all tags) |
| Classifier.ShaderModelIsFirstMatch | Editor/ShaderUsageViewer.cs:145-156 | the ten-step `Contains` chain equals the table lookup over the markers `target 2.0` … `target 6.2` in that order |
| Classifier.ShaderModelFirstMatchWins | Editor/ShaderUsageViewer.cs:145-156 | if marker k is contained and no earlier marker in check order is, the model is tag k |
| Classifier.ShaderModelUnknownIff | Editor/ShaderUsageViewer.cs:140-156 | the model is `Unknown` iff the file is absent or the text holds none of the ten markers |
| Classifier.ShaderModelIgnoresTextOrder | Editor/ShaderUsageViewer.cs:145-151 | a text with "target 5.0" before "target 2.0" is classified 2.0: check order wins, not the order in the text |
| Classifier.PrecisionIsFirstMatch | Editor/ShaderUsageViewer.cs:287-291 | the `half`/`float`/`fixed` chain equals the table lookup in that order |
| Classifier.PrecisionFirstMatchWins | Editor/ShaderUsageViewer.cs:287-291 | if keyword k is contained and no earlier keyword is, the precision is tag k (raw, case-sensitive substring test) |
| Classifier.PrecisionUnknownIff | Editor/ShaderUsageViewer.cs:282-291 | the precision is `Unknown` iff the file is absent or none of the three keywords occurs |
| Classifier.PrecisionHalfBeforeFloat | Editor/ShaderUsageViewer.cs:287-288 | a text holding both "float" and "half" is `Half` |
| Classifier.SumOccurrencesBound | Editor/ShaderUsageViewer.cs:252-257 | with keywords of length at least 3, three times the summed count is at most (number of keywords) times the text length |
| Classifier.InstructionEstimateBound | Editor/ShaderUsageViewer.cs:250-259 | the instruction estimate over the 13 keywords is at most 13/3 of the text length |
| Classifier.UnavailableTextDefaults | Editor/ShaderUsageViewer.cs:140-141 | an absent file gives model `Unknown`, precision `Unknown` and instruction and texture counts 0 (lines 246-247, 282-283 and 298-299 likewise) |
| Classifier.GetInstructionCount | Editor/ShaderUsageViewer.cs:242-260 | the `foreach` total equals the sum over the 13 keywords of their non-overlapping counts; 0 when the file is absent; at most 13/3 of the text length |
| Classifier.GetTextureSampleCount | Editor/ShaderUsageViewer.cs:294-306 | the result is the non-overlapping count of "tex2D("; 0 when the file is absent; bounded by text length / 6 |
| ShaderUsage.BuiltinPathsArePrefixed | Editor/ShaderUsageViewer.cs:131-134 | a path is built-in exactly when it is "Resources/unity_builtin_extra" followed by anything |
| ShaderUsage.FirstSight | Editor/ShaderUsageViewer.cs:111 | the first enumerated accepted material that uses a shader: it uses it, and none before it does |
| ShaderUsage.ScanKeys | Editor/ShaderUsageViewer.cs:105-121 | a shader is a key iff some loaded material with a non-null, non-built-in shader uses it |
| ShaderUsage.ScanOrderListsKeys | Editor/ShaderUsageViewer.cs:111-121 | each key appears exactly once in the enumeration order, and the order holds nothing else |
| ShaderUsage.ScanKeyOrder | Editor/ShaderUsageViewer.cs:111-121 | keys are enumerated in the order their shaders were first seen |
| ShaderUsage.ScanMaterials | Editor/ShaderUsageViewer.cs:123 | each key's materials list is exactly the accepted materials using it, in enumeration order |
| ShaderUsage.ScanClassifiesAtFirstSight | Editor/ShaderUsageViewer.cs:111-120 | apart from its materials, each profile is the classification of the text read when the shader was first seen; later materials do not change it |
| ShaderUsage.ScanSkipsRejected | Editor/ShaderUsageViewer.cs:105-109 | a null material, a null shader or a built-in shader adds no key and no list entry |
| ShaderUsage.BuiltinNeverKeyed | Editor/ShaderUsageViewer.cs:109 | a shader that only appears with a built-in path never becomes a key, however many materials use it |
| ShaderUsage.ScanDedupsOneShader | Editor/ShaderUsageViewer.cs:111-123 | N accepted materials on one shader give exactly one key, whose list is those N materials in order |
| ShaderUsage.ScanScenario | Editor/ShaderUsageViewer.cs:95-129 | M1, M2 on S1 and M3 on S2 (text absent) give the keys [S1, S2]. S1 is classified from its text with [M1, M2]. S2 gets `Unknown`/`Unknown`/0/0 with [M3] |
| ShaderUsage.ShadersWithModelSelects | Editor/ShaderUsageViewer.cs:161-169 | the filter keeps exactly the keys whose stored model is the tag, and produces no repeats from a repeat-free key order |
| ShaderUsage.ShadersWithModelExample | Editor/ShaderUsageViewer.cs:161-171 | with three shaders tagged 3.0, 3.0, 5.0, filtering on 3.0 gives the first two and filtering on 6.2 gives nothing |
| ShaderUsage.ShaderUsageViewer.constructor | Editor/ShaderUsageViewer.cs:14-15 | a new window has no entries and selected model `Unknown` |
| ShaderUsage.ShaderUsageViewer.ScanProject | Editor/ShaderUsageViewer.cs:95-129 | the dictionary is cleared, then rebuilt in place; the result equals `Scan` of the observations whatever it held before; the selected model is untouched |
| ShaderUsage.ShaderUsageViewer.ShowShadersUsingSelectedModel | Editor/ShaderUsageViewer.cs:159-171 | the list built is the keys whose model is the selected one, in enumeration order, each once; it is empty exactly when no key matches |

## Left out

- The editor UI is not modelled: `OnGUI`, `ShowWindow` and its menu item, `SetGUIColorForShaderModel`, `ShaderListPopup`, the `isExpanded` foldout flag, the display thresholds (450 instructions, red for `Float`), scroll positions, and the popup or "No Shaders Found" dialog shown after filtering. They only present the results.
- `AssetDatabase.FindAssets`, `GUIDToAssetPath`, `LoadAssetAtPath` and `GetAssetPath` are not modelled: each observation carries their answers.
- `File.Exists` and `File.ReadAllText` are not modelled either: the `Option<string>` text carries their answer.
- ShaderUsage.ShaderUsageViewer.ScanProject: assumes that every `File.ReadAllText` after a successful `File.Exists` succeeds, so the model's scan always completes. In the C# code a read that throws aborts `ScanProject` partway through. The exception can be `IOException`, `UnauthorizedAccessException`, or `FileNotFoundException` when the file disappears after the check. The dictionary is then left cleared and only partly rebuilt.
- Each classifier reads the file again, and the model does not capture the file changing between those four reads. One text value per sighting feeds all four estimates.
- `Debug.Log` at the end of the scan is not modelled: it only reports the count.
- Unity `Object` reference semantics: shaders and materials are opaque handles with equality. `ShaderInfo` is a value stored in the map, not a shared mutable object, so aliasing of the info objects is not captured.
- Text.CountOccurrences: requires a non-empty needle. With "" the C# loop never ends, since `IndexOf` returns the start index itself. Every caller passes a non-empty constant.
- Text.IndexOf: .NET's `IndexOf(string, int)` and `StartsWith(string)` compare culture-sensitively, while `Contains(string)` compares ordinally. The model compares ordinally throughout, so culture-specific ignorable characters and collation effects are not modelled.
- Classifier.GetInstructionCount: the counts are unbounded naturals, so a 32-bit overflow of the `int` total is not modelled. It would need a text of several hundred million characters.
- Strings are Dafny `string`s, sequences of Dafny `char`, and no Unicode normalisation is modelled. A Dafny `char` is a Unicode scalar value, while a .NET `char` is a UTF-16 code unit. A character outside the Basic Multilingual Plane is one Dafny `char` but two .NET `char`s, so lengths and positions differ for such text. The counts of the ASCII needles are unaffected. The length `|text|` in `Text.HitsBound`, `Classifier.InstructionEstimateBound` and `Classifier.GetTextureSampleCount` is the number of scalar values, which can be less than the C# `Length`. The bounds therefore also hold for the C# `Length`.
