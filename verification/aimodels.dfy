/** AI models, their features and the cost calculation over cost templates.
    Amounts in euro and unit counts are `real`, an idealisation of `float64`. */
module AIModels {
  import opened Wrappers
  import opened Strings
  import opened Seqs
  import Adapters

  const ModelIdPrefix: string := "aimodel"
  const ModelIdLength: nat := 12

  /** The length is counted in UTF-8 bytes, as Go's `len` counts it. */
  predicate IsAIModelID(id: string) {
    Utf8Length(id) == ModelIdLength + |ModelIdPrefix| + 1 && HasPrefix(id, ModelIdPrefix)
  }

  /** The ids are 20 bytes starting "aimodel"; for ASCII ids, 20 characters. */
  lemma ModelIdShape(id: string)
    ensures IsAIModelID(id) <==> Utf8Length(id) == 20 && |id| >= 7 && id[..7] == "aimodel"
    ensures IsAscii(id) ==> (IsAIModelID(id) <==> |id| == 20 && id[..7] == "aimodel")
    ensures IsAIModelID(id) ==> 7 <= |id| <= 20
  {
    Utf8LengthBounds(id);
  }

  type Capability = string

  const FunctionCalling: Capability := "function-calling"
  const FunctionCallingStreaming: Capability := "function-calling_streaming"
  const AcceptsDocumentFiles: Capability := "accepts-document-files"
  const TextToText: Capability := "text-to-text"
  const TextToTextStreaming: Capability := "text-to-text_streaming"
  const TextToImage: Capability := "text-to-image"
  const TextToSpeech: Capability := "text-to-speech"
  const TextToSpeechStreaming: Capability := "text-to-speech_streaming"
  const TextToMusic: Capability := "text-to-music"
  const TextToMusicStreaming: Capability := "text-to-music_streaming"
  const TextToVideo: Capability := "text-to-video"
  const TextToVideoStreaming: Capability := "text-to-video_streaming"
  const SpeechToText: Capability := "speech-to-text"
  const SpeechToTextStreaming: Capability := "speech-to-text_streaming"
  const ImageToText: Capability := "image-to-text"
  const VideoToText: Capability := "video-to-text"
  const VideoToTextStreaming: Capability := "video-to-text_streaming"

  type CostUnit = string

  const InputPerMillionTokens: CostUnit := "input-tokens-per-million"
  const OutputPerMillionTokens: CostUnit := "output-tokens-per-million"
  const InputPerMillionCharacters: CostUnit := "input-characters-per-million"
  const ImageInputPerFile: CostUnit := "image-input-file"
  const AudioInputPerSecond: CostUnit := "audio-input-per-second"
  const VideoInputPerSecond: CostUnit := "video-input-per-second"
  const ImageGenerationPerImage: CostUnit := "image-generation-per-image"
  const ImageGenerationPerPixel: CostUnit := "image-generation-per-pixel"
  const AudioGenerationPerSecond: CostUnit := "audio-generation-per-second"
  const VideoGenerationPerSecond: CostUnit := "video-generation-per-second"
  const PerFunctionCall: CostUnit := "per-function-call"

  datatype Constraint = Constraint(direction: string, min: real, max: real, unit: string)

  /** The price of one unit of some usage. */
  datatype CostTemplate = CostTemplate(description: string, costUnit: CostUnit, costPerUnitInEuro: real)

  /** A template together with the units used and what they cost. */
  datatype UsageCost = UsageCost(
    template: CostTemplate,
    usedUnits: real,
    resultingCostInEuro: real,
    resultingSourceCostInEuro: real)

  /** One capability of a model with its constraints and cost templates. */
  datatype Feature = Feature(
    capability: Capability,
    constraints: seq<Constraint>,
    costItemTemplates: seq<CostTemplate>,
    costItems: seq<UsageCost>)

  datatype FeatureError = DifferentCapability

  function ErrorMessage(e: FeatureError): string {
    match e
    case DifferentCapability => "feature has different capability"
  }

  datatype AIModel = AIModel(
    id: string,
    name: string,
    description: string,
    documentationUrl: string,
    serviceId: string,
    modelId: string,
    maxInputTokens: int,
    maxOutputTokens: int,
    constraints: seq<Constraint>,
    features: seq<Feature>,
    serviceHostLocations: seq<string>,
    acceptedFileMimetypes: seq<string>,
    parameters: map<string, Adapters.Value>,
    parameterDefinitions: seq<Adapters.ToolParameter>,
    isPublic: bool,
    ownerId: string,
    ownerOrganizationId: string,
    internalId: string,
    createdAt: int,
    updatedBy: string,
    updatedAt: int)

  /** `NewAIModel`; the generated id and the current JavaScript timestamp are parameters. */
  function NewAIModel(id: string, now: int): (m: AIModel)
    ensures m.id == id && m.parameters == map[] && m.features == []
    ensures m.createdAt == now && m.updatedAt == m.createdAt
  {
    AIModel(id, "", "", "", "", "", 0, 0, [], [], [], [], map[], [], false, "", "", "", now, "", now)
  }

  /** The first of the feature's templates with this unit, or nil. */
  function GetCostItemByCostUnit(feat: Feature, costUnit: CostUnit): (r: Option<CostTemplate>)
    ensures r.None? <==> forall i :: 0 <= i < |feat.costItemTemplates| ==> feat.costItemTemplates[i].costUnit != costUnit
    ensures r.Some? ==> r.value.costUnit == costUnit && r.value in feat.costItemTemplates
    ensures r.Some? ==>
      exists i :: 0 <= i < |feat.costItemTemplates| && feat.costItemTemplates[i] == r.value &&
        forall k :: 0 <= k < i ==> feat.costItemTemplates[k].costUnit != costUnit
  {
    FirstWithUnit(feat.costItemTemplates, costUnit)
  }

  function FirstWithUnit(ts: seq<CostTemplate>, costUnit: CostUnit): (r: Option<CostTemplate>)
    ensures r.None? <==> forall i :: 0 <= i < |ts| ==> ts[i].costUnit != costUnit
    ensures r.Some? ==>
      exists i :: 0 <= i < |ts| && ts[i] == r.value && r.value.costUnit == costUnit &&
        forall k :: 0 <= k < i ==> ts[k].costUnit != costUnit
    decreases |ts|
  {
    if ts == [] then None
    else if ts[0].costUnit == costUnit then Some(ts[0])
    else
      var r := FirstWithUnit(ts[1..], costUnit);
      if r.Some? then
        ghost var i :| 0 <= i < |ts[1..]| && ts[1..][i] == r.value && r.value.costUnit == costUnit &&
          forall k :: 0 <= k < i ==> ts[1..][k].costUnit != costUnit;
        assert ts[i + 1] == r.value;
        r
      else r
  }

  /** The three units priced per million: tokens in, tokens out, characters in. */
  predicate IsPerMillion(costUnit: CostUnit) {
    costUnit == OutputPerMillionTokens || costUnit == InputPerMillionCharacters || costUnit == InputPerMillionTokens
  }

  /** The used units expressed in the template's unit. */
  function RelativeUnits(costUnit: CostUnit, usedUnits: real): (r: real)
    ensures IsPerMillion(costUnit) ==> r * 1000000.0 == usedUnits
    ensures !IsPerMillion(costUnit) ==> r == usedUnits
  {
    if IsPerMillion(costUnit) then usedUnits / 1000000.0 else usedUnits
  }

  /** `NewExecutionUsageCost`: the cost of `usedUnits` under a template, with the
      multiplier applied to the resulting cost and to the copied unit price but not
      to the source cost. */
  function NewExecutionUsageCost(template: CostTemplate, usedUnits: real, multiplier: real): (r: UsageCost)
    ensures r.template.description == template.description && r.template.costUnit == template.costUnit
    ensures r.template.costPerUnitInEuro == template.costPerUnitInEuro * multiplier
    ensures r.usedUnits == RelativeUnits(template.costUnit, usedUnits)
    ensures r.resultingSourceCostInEuro == template.costPerUnitInEuro * r.usedUnits
    ensures r.resultingCostInEuro == r.resultingSourceCostInEuro * multiplier
  {
    var rel := RelativeUnits(template.costUnit, usedUnits);
    UsageCost(
      template.(costPerUnitInEuro := template.costPerUnitInEuro * multiplier),
      rel,
      template.costPerUnitInEuro * rel * multiplier,
      template.costPerUnitInEuro * rel)
  }

  /** For the per-million units a million used units cost the unit price; costs
      are additive in the usage, and a multiplier of one charges the source cost. */
  lemma UsageCostArithmetic(t: CostTemplate, a: real, b: real, multiplier: real)
    ensures IsPerMillion(t.costUnit) ==> NewExecutionUsageCost(t, 1000000.0, 1.0).resultingCostInEuro == t.costPerUnitInEuro
    ensures !IsPerMillion(t.costUnit) ==> NewExecutionUsageCost(t, 1.0, 1.0).resultingCostInEuro == t.costPerUnitInEuro
    ensures NewExecutionUsageCost(t, a + b, multiplier).resultingCostInEuro ==
      NewExecutionUsageCost(t, a, multiplier).resultingCostInEuro + NewExecutionUsageCost(t, b, multiplier).resultingCostInEuro
    ensures NewExecutionUsageCost(t, a, 1.0).resultingCostInEuro == NewExecutionUsageCost(t, a, 1.0).resultingSourceCostInEuro
  {
    var p := t.costPerUnitInEuro;
    if IsPerMillion(t.costUnit) {
      assert (a + b) / 1000000.0 == a / 1000000.0 + b / 1000000.0;
      assert p * ((a + b) / 1000000.0) * multiplier == p * (a / 1000000.0) * multiplier + p * (b / 1000000.0) * multiplier;
    } else {
      assert p * (a + b) * multiplier == p * a * multiplier + p * b * multiplier;
    }
  }

  /** The used feature `CreateUsedFeatures` records for one template: the
      capability and a single cost item, without constraints or templates. */
  function UsedFeature(capability: Capability, template: CostTemplate, usedUnits: real, multiplier: real): Feature {
    Feature(capability, [], [], [NewExecutionUsageCost(template, usedUnits, multiplier)])
  }

  /** `CreateUsedFeatures`: for a feature of the requested capability, one used
      feature per template with the requested unit, in template order. */
  function CreateUsedFeatures(feat: Feature, capability: Capability, costUnit: CostUnit, usedUnits: real, multiplier: real): (r: (seq<Feature>, Option<FeatureError>))
    ensures feat.capability != capability ==> r == ([], Some(DifferentCapability))
    ensures feat.capability == capability ==> r.1.None?
    ensures feat.capability == capability ==>
      |r.0| == |Filter(feat.costItemTemplates, (t: CostTemplate) => t.costUnit == costUnit)|
    ensures forall i :: 0 <= i < |r.0| ==>
      r.0[i].capability == capability && |r.0[i].costItems| == 1 && r.0[i].costItems[0].template.costUnit == costUnit
    ensures feat.capability == capability ==>
      var matching := Filter(feat.costItemTemplates, (t: CostTemplate) => t.costUnit == costUnit);
      forall i :: 0 <= i < |r.0| ==>
        r.0[i].costItems[0] == NewExecutionUsageCost(matching[i], usedUnits, multiplier) &&
        r.0[i].constraints == [] && r.0[i].costItemTemplates == []
  {
    if feat.capability != capability then ([], Some(DifferentCapability))
    else
      var matching := Filter(feat.costItemTemplates, (t: CostTemplate) => t.costUnit == costUnit);
      (Map(matching, (t: CostTemplate) => UsedFeature(feat.capability, t, usedUnits, multiplier)), None)
  }

  /** A feature of the right capability yields used features exactly when it has
      a template for the unit, and the first of them is priced by that template. */
  lemma UsedFeaturesIffTemplate(feat: Feature, costUnit: CostUnit, usedUnits: real, multiplier: real)
    ensures var r := CreateUsedFeatures(feat, feat.capability, costUnit, usedUnits, multiplier).0;
      (r != [] <==> GetCostItemByCostUnit(feat, costUnit).Some?) &&
      (r != [] ==> r[0].costItems[0] == NewExecutionUsageCost(GetCostItemByCostUnit(feat, costUnit).value, usedUnits, multiplier))
  {
    var p := (t: CostTemplate) => t.costUnit == costUnit;
    FilterEmptyIff(feat.costItemTemplates, p);
    FirstMatchIsFilterHead(feat.costItemTemplates, costUnit);
  }

  lemma {:induction false} FirstMatchIsFilterHead(ts: seq<CostTemplate>, costUnit: CostUnit)
    ensures var f := Filter(ts, (t: CostTemplate) => t.costUnit == costUnit);
      f != [] ==> FirstWithUnit(ts, costUnit) == Some(f[0])
    decreases |ts|
  {
    if ts != [] && ts[0].costUnit != costUnit {
      FirstMatchIsFilterHead(ts[1..], costUnit);
    }
  }

  /** The used features a feature contributes to `CalculateUsageCostsForFeature`. */
  function Contribution(feat: Feature, capability: Capability, costUnit: CostUnit, usedUnits: real, multiplier: real): seq<Feature> {
    if feat.capability != capability || GetCostItemByCostUnit(feat, costUnit).None? then []
    else CreateUsedFeatures(feat, capability, costUnit, usedUnits, multiplier).0
  }

  /** The Go loop over the model's features; the error branch of the loop
      is kept as written although a feature that passed the capability test
      never reports one. */
  function UsageCosts(features: seq<Feature>, capability: Capability, costUnit: CostUnit, usedUnits: real, multiplier: real): (r: (seq<Feature>, Option<FeatureError>))
    ensures r.1.None?
    ensures forall i :: 0 <= i < |r.0| ==>
      r.0[i].capability == capability && |r.0[i].costItems| == 1 && r.0[i].costItems[0].template.costUnit == costUnit
    decreases |features|
  {
    if features == [] then ([], None)
    else
      var (acc, err) := UsageCosts(features[..|features| - 1], capability, costUnit, usedUnits, multiplier);
      if err.Some? then (acc, err)
      else
        var feat := features[|features| - 1];
        if feat.capability != capability then (acc, None)
        else if GetCostItemByCostUnit(feat, costUnit).None? then (acc, None)
        else
          var (used, err2) := CreateUsedFeatures(feat, capability, costUnit, usedUnits, multiplier);
          if err2.Some? then (acc, err2) else (acc + used, None)
  }

  /** The loop charges, in feature order, exactly what each feature contributes. */
  lemma {:induction false} UsageCostsConcatenateContributions(features: seq<Feature>, capability: Capability, costUnit: CostUnit, usedUnits: real, multiplier: real)
    ensures UsageCosts(features, capability, costUnit, usedUnits, multiplier).0 ==
      FlatMap(features, (f: Feature) => Contribution(f, capability, costUnit, usedUnits, multiplier))
    decreases |features|
  {
    if features != [] {
      UsageCostsConcatenateContributions(features[..|features| - 1], capability, costUnit, usedUnits, multiplier);
    }
  }

  /** `CalculateUsageCostsForFeature` on a model. */
  function CalculateUsageCostsForFeature(model: AIModel, capability: Capability, costUnit: CostUnit, usedUnits: real, multiplier: real): (r: (seq<Feature>, Option<FeatureError>))
    ensures r.1.None?
    ensures forall i :: 0 <= i < |r.0| ==>
      r.0[i].capability == capability && |r.0[i].costItems| == 1 && r.0[i].costItems[0].template.costUnit == costUnit
    ensures r.0 == FlatMap(model.features, (f: Feature) => Contribution(f, capability, costUnit, usedUnits, multiplier))
  {
    UsageCostsConcatenateContributions(model.features, capability, costUnit, usedUnits, multiplier);
    UsageCosts(model.features, capability, costUnit, usedUnits, multiplier)
  }

  /** Nothing is charged unless some feature of the capability has a template
      for the unit, and then something is. */
  lemma {:induction false} UsageCostsEmptyIff(features: seq<Feature>, capability: Capability, costUnit: CostUnit, usedUnits: real, multiplier: real)
    ensures UsageCosts(features, capability, costUnit, usedUnits, multiplier).0 == [] <==>
      forall i :: 0 <= i < |features| && features[i].capability == capability ==>
        GetCostItemByCostUnit(features[i], costUnit).None?
    decreases |features|
  {
    if features != [] {
      var init := features[..|features| - 1];
      var feat := features[|features| - 1];
      UsageCostsEmptyIff(init, capability, costUnit, usedUnits, multiplier);
      if feat.capability == capability && GetCostItemByCostUnit(feat, costUnit).Some? {
        UsedFeaturesIffTemplate(feat, costUnit, usedUnits, multiplier);
      }
      assert forall i :: 0 <= i < |init| ==> init[i] == features[i];
    }
  }

  /** The text-to-text costs: output tokens, then input tokens, then tool calls,
      each only for a positive count; the error is always nil. The result is
      built by appending to a nil slice, so it stays nil when nothing is charged. */
  function CalculateCostForText2Text(model: AIModel, toolCallsUsed: int, inputTokenCount: int, outputTokenCount: int, costMultiplier: real): (r: (Slice<Feature>, Option<FeatureError>))
    ensures r.1.None?
    ensures r.0.Nil? <==> r.0.Elements() == []
    ensures var fs := r.0.Elements(); forall i :: 0 <= i < |fs| ==> |fs[i].costItems| == 1
    ensures var fs := r.0.Elements(); forall i :: 0 <= i < |fs| ==>
      (fs[i].capability == TextToText && fs[i].costItems[0].template.costUnit in {OutputPerMillionTokens, InputPerMillionTokens}) ||
      (fs[i].capability == FunctionCalling && fs[i].costItems[0].template.costUnit == PerFunctionCall)
  {
    var outs := if outputTokenCount > 0
      then CalculateUsageCostsForFeature(model, TextToText, OutputPerMillionTokens, outputTokenCount as real, costMultiplier).0
      else [];
    var ins := if inputTokenCount > 0
      then CalculateUsageCostsForFeature(model, TextToText, InputPerMillionTokens, inputTokenCount as real, costMultiplier).0
      else [];
    var calls := if toolCallsUsed > 0
      then CalculateUsageCostsForFeature(model, FunctionCalling, PerFunctionCall, toolCallsUsed as real, costMultiplier).0
      else [];
    (if outs + ins + calls == [] then Nil else Slice(outs + ins + calls), None)
  }

  predicate ChargedIn(costUnit: CostUnit, f: Feature) {
    |f.costItems| == 1 && f.costItems[0].template.costUnit == costUnit
  }

  /** The test "charged in this unit", as a filter predicate. */
  function Charged(costUnit: CostUnit): Feature -> bool {
    f => ChargedIn(costUnit, f)
  }

  /** Picking the features charged in one unit out of the text-to-text result
      gives back exactly what that unit's calculation alone yields. */
  lemma Text2TextByUnit(model: AIModel, toolCallsUsed: int, inputTokenCount: int, outputTokenCount: int, m: real)
    ensures var r := CalculateCostForText2Text(model, toolCallsUsed, inputTokenCount, outputTokenCount, m).0.Elements();
      Filter(r, Charged(OutputPerMillionTokens)) ==
        (if outputTokenCount > 0 then CalculateUsageCostsForFeature(model, TextToText, OutputPerMillionTokens, outputTokenCount as real, m).0 else []) &&
      Filter(r, Charged(InputPerMillionTokens)) ==
        (if inputTokenCount > 0 then CalculateUsageCostsForFeature(model, TextToText, InputPerMillionTokens, inputTokenCount as real, m).0 else []) &&
      Filter(r, Charged(PerFunctionCall)) ==
        (if toolCallsUsed > 0 then CalculateUsageCostsForFeature(model, FunctionCalling, PerFunctionCall, toolCallsUsed as real, m).0 else [])
  {
    var outs := if outputTokenCount > 0
      then CalculateUsageCostsForFeature(model, TextToText, OutputPerMillionTokens, outputTokenCount as real, m).0
      else [];
    var ins := if inputTokenCount > 0
      then CalculateUsageCostsForFeature(model, TextToText, InputPerMillionTokens, inputTokenCount as real, m).0
      else [];
    var calls := if toolCallsUsed > 0
      then CalculateUsageCostsForFeature(model, FunctionCalling, PerFunctionCall, toolCallsUsed as real, m).0
      else [];
    assert CalculateCostForText2Text(model, toolCallsUsed, inputTokenCount, outputTokenCount, m).0.Elements() == outs + ins + calls;
    SeparateUnits(outs, ins, calls);
  }

  /** The group a text-to-text cost belongs to: output tokens, input tokens, or
      anything else (the tool calls). */
  function Text2TextRank(f: Feature): nat {
    if ChargedIn(OutputPerMillionTokens, f) then 0
    else if ChargedIn(InputPerMillionTokens, f) then 1
    else 2
  }

  /** The text-to-text result lists the output-token costs first, then the
      input-token costs, then the tool-call costs. */
  lemma Text2TextGroupOrder(model: AIModel, toolCallsUsed: int, inputTokenCount: int, outputTokenCount: int, m: real)
    ensures var fs := CalculateCostForText2Text(model, toolCallsUsed, inputTokenCount, outputTokenCount, m).0.Elements();
      forall i, j :: 0 <= i < j < |fs| ==> Text2TextRank(fs[i]) <= Text2TextRank(fs[j])
  {
    var outs := if outputTokenCount > 0
      then CalculateUsageCostsForFeature(model, TextToText, OutputPerMillionTokens, outputTokenCount as real, m).0
      else [];
    var ins := if inputTokenCount > 0
      then CalculateUsageCostsForFeature(model, TextToText, InputPerMillionTokens, inputTokenCount as real, m).0
      else [];
    var calls := if toolCallsUsed > 0
      then CalculateUsageCostsForFeature(model, FunctionCalling, PerFunctionCall, toolCallsUsed as real, m).0
      else [];
    assert CalculateCostForText2Text(model, toolCallsUsed, inputTokenCount, outputTokenCount, m).0.Elements() == outs + ins + calls;
    RankedParts(outs, ins, calls, Text2TextRank);
  }

  /** Joining parts whose elements rank 0, 1 and 2 gives a list ordered by rank. */
  lemma RankedParts<T>(a: seq<T>, b: seq<T>, c: seq<T>, rank: T -> nat)
    requires forall i :: 0 <= i < |a| ==> rank(a[i]) == 0
    requires forall i :: 0 <= i < |b| ==> rank(b[i]) == 1
    requires forall i :: 0 <= i < |c| ==> rank(c[i]) == 2
    ensures var s := a + b + c; forall i, j :: 0 <= i < j < |s| ==> rank(s[i]) <= rank(s[j])
  {
    var s := a + b + c;
    forall i | 0 <= i < |s|
      ensures rank(s[i]) == if i < |a| then 0 else if i < |a| + |b| then 1 else 2
    {
      if i < |a| {
        assert s[i] == a[i];
      } else if i < |a| + |b| {
        assert s[i] == b[i - |a|];
      } else {
        assert s[i] == c[i - |a| - |b|];
      }
    }
  }

  /** Three lists, each charged in its own unit, are separated again by unit. */
  lemma SeparateUnits(outs: seq<Feature>, ins: seq<Feature>, calls: seq<Feature>)
    requires forall i :: 0 <= i < |outs| ==> ChargedIn(OutputPerMillionTokens, outs[i])
    requires forall i :: 0 <= i < |ins| ==> ChargedIn(InputPerMillionTokens, ins[i])
    requires forall i :: 0 <= i < |calls| ==> ChargedIn(PerFunctionCall, calls[i])
    ensures Filter(outs + ins + calls, Charged(OutputPerMillionTokens)) == outs
    ensures Filter(outs + ins + calls, Charged(InputPerMillionTokens)) == ins
    ensures Filter(outs + ins + calls, Charged(PerFunctionCall)) == calls
  {
    assert OutputPerMillionTokens != InputPerMillionTokens;
    assert OutputPerMillionTokens != PerFunctionCall && InputPerMillionTokens != PerFunctionCall;
    SelectOne(outs, ins, calls, OutputPerMillionTokens, InputPerMillionTokens, PerFunctionCall, OutputPerMillionTokens);
    SelectOne(outs, ins, calls, OutputPerMillionTokens, InputPerMillionTokens, PerFunctionCall, InputPerMillionTokens);
    SelectOne(outs, ins, calls, OutputPerMillionTokens, InputPerMillionTokens, PerFunctionCall, PerFunctionCall);
  }

  /** Selecting one unit from three single-unit parts keeps the parts in that unit. */
  lemma SelectOne(a: seq<Feature>, b: seq<Feature>, c: seq<Feature>, va: CostUnit, vb: CostUnit, vc: CostUnit, u: CostUnit)
    requires forall i :: 0 <= i < |a| ==> ChargedIn(va, a[i])
    requires forall i :: 0 <= i < |b| ==> ChargedIn(vb, b[i])
    requires forall i :: 0 <= i < |c| ==> ChargedIn(vc, c[i])
    ensures Filter(a + b + c, Charged(u)) ==
      (if u == va then a else []) + (if u == vb then b else []) + (if u == vc then c else [])
  {
    SelectPart(a, va, u);
    SelectPart(b, vb, u);
    SelectPart(c, vc, u);
    ThreeParts(a, b, c, u);
  }

  lemma ThreeParts(a: seq<Feature>, b: seq<Feature>, c: seq<Feature>, u: CostUnit)
    ensures Filter(a + b + c, Charged(u)) ==
      Filter(a, Charged(u)) + Filter(b, Charged(u)) + Filter(c, Charged(u))
  {
    FilterAppend(a + b, c, Charged(u));
    FilterAppend(a, b, Charged(u));
  }

  /** A list charged in a single unit is kept whole by that unit's selection and
      dropped by any other's. */
  lemma SelectPart(part: seq<Feature>, v: CostUnit, u: CostUnit)
    requires forall i :: 0 <= i < |part| ==> ChargedIn(v, part[i])
    ensures Filter(part, Charged(u)) == if u == v then part else []
  {
    if u == v {
      FilterAllKept(part, Charged(u));
    } else {
      FilterEmptyIff(part, Charged(u));
    }
  }

  /** The text-to-image cost: the image generation features, only for a
      positive number of images; the error is always nil. The result stays a
      nil slice when the count is not positive or no text-to-image feature
      prices images, since appending nothing to nil leaves it nil. */
  function CalculateCostForText2Image(model: AIModel, numberOfImages: int, costMultiplier: real): (r: (Slice<Feature>, Option<FeatureError>))
    ensures r.1.None?
    ensures r.0.Nil? <==> (numberOfImages <= 0 ||
      forall i :: 0 <= i < |model.features| && model.features[i].capability == TextToImage ==>
        GetCostItemByCostUnit(model.features[i], ImageGenerationPerImage).None?)
    ensures numberOfImages <= 0 ==> r.0.Elements() == []
    ensures numberOfImages > 0 ==>
      r.0.Elements() == CalculateUsageCostsForFeature(model, TextToImage, ImageGenerationPerImage, numberOfImages as real, costMultiplier).0
  {
    if numberOfImages > 0 then
      var used := CalculateUsageCostsForFeature(model, TextToImage, ImageGenerationPerImage, numberOfImages as real, costMultiplier).0;
      UsageCostsEmptyIff(model.features, TextToImage, ImageGenerationPerImage, numberOfImages as real, costMultiplier);
      (if used == [] then Nil else Slice(used), None)
    else (Nil, None)
  }

  /** Each image is charged once: the cost item of every result counts the images. */
  lemma Text2ImageCounts(model: AIModel, numberOfImages: int, m: real)
    ensures forall f :: f in CalculateCostForText2Image(model, numberOfImages, m).0.Elements() ==>
      f.capability == TextToImage && |f.costItems| == 1 &&
      f.costItems[0].usedUnits == numberOfImages as real
  {
    var r := CalculateCostForText2Image(model, numberOfImages, m).0.Elements();
    if numberOfImages > 0 {
      UsageCostsUnits(model.features, TextToImage, ImageGenerationPerImage, numberOfImages as real, m);
    }
  }

  /** Every cost item in a usage calculation records the used units in its template's unit. */
  lemma {:induction false} UsageCostsUnits(features: seq<Feature>, capability: Capability, costUnit: CostUnit, usedUnits: real, multiplier: real)
    ensures forall f :: f in UsageCosts(features, capability, costUnit, usedUnits, multiplier).0 ==>
      |f.costItems| == 1 && f.costItems[0].usedUnits == RelativeUnits(costUnit, usedUnits)
    decreases |features|
  {
    if features != [] {
      UsageCostsUnits(features[..|features| - 1], capability, costUnit, usedUnits, multiplier);
    }
  }
}
