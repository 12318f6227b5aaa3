/**
 * NewSupport: the support-region layer-stack pipeline.
 *
 * Every stack is a sequence of regions indexed by layer (0 is the first printed
 * layer). Each pass is a method that builds a fresh stack with a loop, the way
 * the C# passes fill a list made by CreateEmptyPolygons; its postcondition ties
 * the result to a specification function, and the lemmas after the passes state
 * what the pipeline guarantees.
 */
module NewSupport {
  import opened Geometry

  type Stack = seq<Region>

  /** The configuration values the support passes read. */
  datatype SupportConfig = SupportConfig(
    extrusionWidthUm: int,
    generateInternalSupport: bool,
    supportInterfaceLayers: int,
    supportXYDistanceUm: int)

  /** Every extruder has at least as many layers as extruder 0 (whose count is used). */
  predicate ExtrudersAligned(extruders: seq<Stack>)
  {
    |extruders| > 0 && forall e :: 0 <= e < |extruders| ==> |extruders[e]| >= |extruders[0]|
  }

  // ---------------------------------------------------------------------------
  // Specification of each pass
  // ---------------------------------------------------------------------------

  /** Union of layer `i` of the first `e` extruders. */
  function LayerUnion(extruders: seq<Stack>, e: nat, i: nat): Region
    requires e <= |extruders|
    requires forall j :: 0 <= j < e ==> i < |extruders[j]|
  {
    if e == 0 then {} else LayerUnion(extruders, e - 1, i) + extruders[e - 1][i]
  }

  function AllPartOutlines(extruders: seq<Stack>): (r: Stack)
    requires ExtrudersAligned(extruders)
    ensures |r| == |extruders[0]|
  {
    seq(|extruders[0]|, i requires 0 <= i < |extruders[0]| => LayerUnion(extruders, |extruders|, i))
  }

  /** Area solid one layer up but open on this layer; the top layer has none. */
  function PotentialSupport(k: Clipper, parts: Stack): (r: Stack)
    ensures |r| == |parts|
  {
    seq(|parts|, i requires 0 <= i < |parts| =>
      if i < |parts| - 1 then k.clean(parts[i + 1] - parts[i], CleanDistanceUm) else {})
  }

  /** The morphological opening RemoveSelfSupportedSections applies: shrink, then grow, by half a line width. */
  function Opening(k: Clipper, r: Region, extrusionWidthUm: int): Region
  {
    k.offset(k.offset(r, TruncDiv(-extrusionWidthUm, 2)), TruncDiv(extrusionWidthUm, 2))
  }

  function SelfSupportPruned(k: Clipper, input: Stack, extrusionWidthUm: int): (r: Stack)
    ensures |r| == |input|
  {
    seq(|input|, i requires 0 <= i < |input| =>
      if i == 0 then {}
      else if input[i - 1] != {} then
        (if input[i] != {} then k.clean(Opening(k, input[i], extrusionWidthUm), CleanDistanceUm) else {})
      else input[i])
  }

  /** The accumulator of RemoveSupportFromInternalSpaces after the first `c` layers. */
  function AccumulatedParts(k: Clipper, parts: Stack, c: nat): Region
    requires c <= |parts|
  {
    if c == 0 then {} else k.clean(AccumulatedParts(k, parts, c - 1) + parts[c - 1], CleanDistanceUm)
  }

  function WithoutInternalSupport(k: Clipper, input: Stack, parts: Stack): (r: Stack)
    requires |input| <= |parts|
    ensures |r| == |input|
  {
    seq(|input|, i requires 0 <= i < |input| =>
      k.clean(input[i] - AccumulatedParts(k, parts, i + 1), CleanDistanceUm))
  }

  function EasyGrab(k: Clipper, input: Stack, grabDistanceUm: int): (r: Stack)
    ensures |r| == |input|
  {
    seq(|input|, i requires 0 <= i < |input| => k.clean(k.offset(input[i], grabDistanceUm), CleanDistanceUm))
  }

  /** Exclusive upper bound of the layers CreateInterfaceLayers adds to layer `i`. */
  function InterfaceEnd(i: int, numInterfaceLayers: int, numLayers: int): int
  {
    if i + numInterfaceLayers < numLayers - 2 then i + numInterfaceLayers else numLayers - 2
  }

  /** `input[i]`, then each of `input[i+1 .. j)` unioned in and cleaned, one at a time. */
  function InterfaceAccumulation(k: Clipper, input: Stack, i: nat, j: int): Region
    requires i < |input| && j <= |input|
    decreases j
  {
    if j <= i + 1 then input[i]
    else k.clean(InterfaceAccumulation(k, input, i, j - 1) + input[j - 1], CleanDistanceUm)
  }

  function Interface(k: Clipper, input: Stack, numInterfaceLayers: int): (r: Stack)
    ensures |r| == |input|
  {
    seq(|input|, i requires 0 <= i < |input| =>
      if numInterfaceLayers > 0
      then InterfaceAccumulation(k, input, i, InterfaceEnd(i, numInterfaceLayers, |input|))
      else {})
  }

  function ClippedToXy(k: Clipper, input: Stack, parts: Stack, xyDistanceUm: int): (r: Stack)
    requires |input| <= |parts| + 1
    ensures |r| == |input|
  {
    seq(|input|, i requires 0 <= i < |input| =>
      if i < |input| - 1 then k.clean(input[i] - k.offset(parts[i], xyDistanceUm), CleanDistanceUm) else {})
  }

  /** Support carried down from the top: layer `i` of AccumulateDownPolygons. */
  function DownAt(k: Clipper, input: Stack, parts: Stack, i: nat): Region
    requires i < |input| <= |parts| + 1
    decreases |input| - i
  {
    if i == |input| - 1 then {}
    else k.clean((DownAt(k, input, parts, i + 1) + input[i + 1] + input[i]) - parts[i], CleanDistanceUm)
  }

  function AccumulatedDown(k: Clipper, input: Stack, parts: Stack): (r: Stack)
    requires |input| <= |parts| + 1
    ensures |r| == |input|
  {
    seq(|input|, i requires 0 <= i < |input| => DownAt(k, input, parts, i))
  }

  function DifferencePerLayer(k: Clipper, input: Stack, toRemove: Stack): (r: Stack)
    requires |input| <= |toRemove| + 1
    ensures |r| == |input|
  {
    seq(|input|, i requires 0 <= i < |input| =>
      if i < |input| - 1 then k.clean(input[i] - toRemove[i], CleanDistanceUm) else {})
  }

  function AirGappedBottoms(input: Stack, parts: Stack): (r: Stack)
    requires |input| <= |parts| + 1
    ensures |r| == |input|
  {
    seq(|input|, i requires 0 <= i < |input| => if i == 0 then {} else parts[i - 1] * input[i])
  }

  /** allRequiredSupportOutlines as the constructor leaves it. */
  function RequiredSupport(k: Clipper, config: SupportConfig, parts: Stack): (r: Stack)
    ensures |r| == |parts|
  {
    var pruned := SelfSupportPruned(k, PotentialSupport(k, parts), config.extrusionWidthUm);
    if config.generateInternalSupport then pruned else WithoutInternalSupport(k, pruned, parts)
  }

  /** interfaceLayers as the constructor leaves it. */
  function InterfaceSupport(k: Clipper, config: SupportConfig, easyGrab: Stack, parts: Stack): (r: Stack)
    requires |easyGrab| <= |parts| + 1
    ensures |r| == |easyGrab|
  {
    ClippedToXy(k, Interface(k, easyGrab, config.supportInterfaceLayers), parts, config.supportXYDistanceUm)
  }

  /** supportOutlines after the interface layers are taken out and before the air gap is. */
  function SupportBeforeAirGap(k: Clipper, config: SupportConfig, easyGrab: Stack, parts: Stack): (r: Stack)
    requires |easyGrab| <= |parts| + 1
    ensures |r| == |easyGrab|
  {
    var clipped := ClippedToXy(k, AccumulatedDown(k, easyGrab, parts), parts, config.supportXYDistanceUm);
    DifferencePerLayer(k, clipped, InterfaceSupport(k, config, easyGrab, parts))
  }

  /** Opening a region by `extrusionWidthUm` never adds area to it. */
  ghost predicate OpeningShrinks(k: Clipper, extrusionWidthUm: int)
  {
    forall r: Region :: Opening(k, r, extrusionWidthUm) <= r
  }

  // ---------------------------------------------------------------------------
  // The passes
  // ---------------------------------------------------------------------------

  method CreateEmptyPolygons(numLayers: nat) returns (polygonsList: Stack)
    ensures |polygonsList| == numLayers
    ensures forall i :: 0 <= i < |polygonsList| ==> polygonsList[i] == {}
  {
    polygonsList := [];
    var i := 0;
    while i < numLayers
      invariant 0 <= i <= numLayers && |polygonsList| == i
      invariant forall j :: 0 <= j < i ==> polygonsList[j] == {}
    {
      polygonsList := polygonsList + [{}];
      i := i + 1;
    }
  }

  method CalculateAllPartOutlines(extruders: seq<Stack>) returns (allPartOutlines: Stack)
    requires ExtrudersAligned(extruders)
    ensures allPartOutlines == AllPartOutlines(extruders)
  {
    var numLayers := |extruders[0]|;
    allPartOutlines := CreateEmptyPolygons(numLayers);
    for e := 0 to |extruders|
      invariant |allPartOutlines| == numLayers
      invariant forall i :: 0 <= i < numLayers ==> allPartOutlines[i] == LayerUnion(extruders, e, i)
    {
      var layerIndex := numLayers - 1;
      while layerIndex >= 0
        invariant -1 <= layerIndex < numLayers
        invariant |allPartOutlines| == numLayers
        invariant forall i :: 0 <= i <= layerIndex ==> allPartOutlines[i] == LayerUnion(extruders, e, i)
        invariant forall i :: 0 <= i && layerIndex < i < numLayers ==> allPartOutlines[i] == LayerUnion(extruders, e + 1, i)
      {
        allPartOutlines := allPartOutlines[layerIndex := allPartOutlines[layerIndex] + extruders[e][layerIndex]];
        layerIndex := layerIndex - 1;
      }
    }
  }

  method FindAllPotentialSupportOutlines(k: Clipper, inputPolys: Stack) returns (allPotentialSupportOutlines: Stack)
    ensures allPotentialSupportOutlines == PotentialSupport(k, inputPolys)
  {
    var numLayers := |inputPolys|;
    allPotentialSupportOutlines := CreateEmptyPolygons(numLayers);
    var layerIndex := numLayers - 2;
    while layerIndex >= 0
      invariant -2 <= layerIndex <= numLayers - 2
      invariant |allPotentialSupportOutlines| == numLayers
      invariant numLayers > 0 ==> allPotentialSupportOutlines[numLayers - 1] == {}
      invariant forall i :: 0 <= i && layerIndex < i < numLayers - 1 ==>
        allPotentialSupportOutlines[i] == k.clean(inputPolys[i + 1] - inputPolys[i], CleanDistanceUm)
    {
      var aboveLayerPolys := inputPolys[layerIndex + 1];
      var curLayerPolys := inputPolys[layerIndex];
      var supportedAreas := aboveLayerPolys - curLayerPolys;
      allPotentialSupportOutlines := allPotentialSupportOutlines[layerIndex := k.clean(supportedAreas, CleanDistanceUm)];
      layerIndex := layerIndex - 1;
    }
  }

  method RemoveSelfSupportedSections(k: Clipper, inputPolys: Stack, config: SupportConfig)
    returns (allRequiredSupportOutlines: Stack)
    ensures allRequiredSupportOutlines == SelfSupportPruned(k, inputPolys, config.extrusionWidthUm)
  {
    var numLayers := |inputPolys|;
    var w := config.extrusionWidthUm;
    allRequiredSupportOutlines := CreateEmptyPolygons(numLayers);
    var layerIndex := numLayers - 1;
    while layerIndex > 0
      invariant -1 <= layerIndex <= numLayers - 1
      invariant |allRequiredSupportOutlines| == numLayers
      invariant forall i :: 0 <= i <= layerIndex ==> allRequiredSupportOutlines[i] == {}
      invariant forall i :: 0 <= i && layerIndex < i < numLayers ==>
        allRequiredSupportOutlines[i] == SelfSupportPruned(k, inputPolys, w)[i]
    {
      if inputPolys[layerIndex - 1] != {} {
        if inputPolys[layerIndex] != {} {
          var shrunk := k.offset(inputPolys[layerIndex], TruncDiv(-w, 2));
          var regrown := k.offset(shrunk, TruncDiv(w, 2));
          assert regrown == Opening(k, inputPolys[layerIndex], w);
          allRequiredSupportOutlines := allRequiredSupportOutlines[layerIndex := k.clean(regrown, CleanDistanceUm)];
        }
      } else {
        allRequiredSupportOutlines := allRequiredSupportOutlines[layerIndex := inputPolys[layerIndex]];
      }
      assert allRequiredSupportOutlines[layerIndex] == SelfSupportPruned(k, inputPolys, w)[layerIndex];
      layerIndex := layerIndex - 1;
    }
  }

  /** Works in place on the list it is given, and returns that same list. */
  method RemoveSupportFromInternalSpaces(k: Clipper, inputPolys: array<Region>, allPartOutlines: Stack)
    returns (result: array<Region>)
    requires inputPolys.Length <= |allPartOutlines|
    modifies inputPolys
    ensures result == inputPolys
    ensures inputPolys[..] == WithoutInternalSupport(k, old(inputPolys[..]), allPartOutlines)
  {
    var numLayers := inputPolys.Length;
    ghost var original := inputPolys[..];
    var accumulatedLayers: Region := {};
    for layerIndex := 0 to numLayers
      invariant accumulatedLayers == AccumulatedParts(k, allPartOutlines, layerIndex)
      invariant forall i :: 0 <= i < layerIndex ==>
        inputPolys[i] == WithoutInternalSupport(k, original, allPartOutlines)[i]
      invariant forall i :: layerIndex <= i < numLayers ==> inputPolys[i] == original[i]
    {
      accumulatedLayers := accumulatedLayers + allPartOutlines[layerIndex];
      accumulatedLayers := k.clean(accumulatedLayers, CleanDistanceUm);
      inputPolys[layerIndex] := inputPolys[layerIndex] - accumulatedLayers;
      inputPolys[layerIndex] := k.clean(inputPolys[layerIndex], CleanDistanceUm);
    }
    result := inputPolys;
  }

  method ExpandToEasyGrabDistance(k: Clipper, inputPolys: Stack, grabDistanceUm: int)
    returns (easyGrabDistanceOutlines: Stack)
    ensures easyGrabDistanceOutlines == EasyGrab(k, inputPolys, grabDistanceUm)
  {
    var numLayers := |inputPolys|;
    easyGrabDistanceOutlines := CreateEmptyPolygons(numLayers);
    var layerIndex := numLayers - 1;
    while layerIndex >= 0
      invariant -1 <= layerIndex < numLayers
      invariant |easyGrabDistanceOutlines| == numLayers
      invariant forall i :: 0 <= i && layerIndex < i < numLayers ==>
        easyGrabDistanceOutlines[i] == k.clean(k.offset(inputPolys[i], grabDistanceUm), CleanDistanceUm)
    {
      var curLayerPolys := inputPolys[layerIndex];
      easyGrabDistanceOutlines := easyGrabDistanceOutlines[layerIndex := k.clean(k.offset(curLayerPolys, grabDistanceUm), CleanDistanceUm)];
      layerIndex := layerIndex - 1;
    }
  }

  method CreateInterfaceLayers(k: Clipper, inputPolys: Stack, numInterfaceLayers: int)
    returns (allInterfaceLayers: Stack)
    ensures allInterfaceLayers == Interface(k, inputPolys, numInterfaceLayers)
  {
    var numLayers := |inputPolys|;
    allInterfaceLayers := CreateEmptyPolygons(numLayers);
    if numInterfaceLayers > 0 {
      for layerIndex := 0 to numLayers
        invariant |allInterfaceLayers| == numLayers
        invariant forall i :: 0 <= i < layerIndex ==> allInterfaceLayers[i] == Interface(k, inputPolys, numInterfaceLayers)[i]
      {
        var accumulatedAbove := inputPolys[layerIndex];
        var end := InterfaceEnd(layerIndex, numInterfaceLayers, numLayers);
        var addIndex := layerIndex + 1;
        while addIndex < end
          invariant layerIndex + 1 <= addIndex <= numLayers
          invariant addIndex == layerIndex + 1 || addIndex <= end
          invariant accumulatedAbove == InterfaceAccumulation(k, inputPolys, layerIndex, addIndex)
        {
          accumulatedAbove := accumulatedAbove + inputPolys[addIndex];
          accumulatedAbove := k.clean(accumulatedAbove, CleanDistanceUm);
          addIndex := addIndex + 1;
        }
        assert accumulatedAbove == InterfaceAccumulation(k, inputPolys, layerIndex, end);
        allInterfaceLayers := allInterfaceLayers[layerIndex := accumulatedAbove];
      }
    }
  }

  method ClipToXyDistance(k: Clipper, inputPolys: Stack, allPartOutlines: Stack, config: SupportConfig)
    returns (clippedToXyOutlines: Stack)
    requires |inputPolys| <= |allPartOutlines| + 1
    ensures clippedToXyOutlines == ClippedToXy(k, inputPolys, allPartOutlines, config.supportXYDistanceUm)
  {
    var numLayers := |inputPolys|;
    clippedToXyOutlines := CreateEmptyPolygons(numLayers);
    var layerIndex := numLayers - 2;
    while layerIndex >= 0
      invariant -2 <= layerIndex <= numLayers - 2
      invariant |clippedToXyOutlines| == numLayers
      invariant numLayers > 0 ==> clippedToXyOutlines[numLayers - 1] == {}
      invariant forall i :: 0 <= i && layerIndex < i < numLayers - 1 ==>
        clippedToXyOutlines[i] == k.clean(inputPolys[i] - k.offset(allPartOutlines[i], config.supportXYDistanceUm), CleanDistanceUm)
    {
      var curRequiredSupport := inputPolys[layerIndex];
      var expandedlayerPolys := k.offset(allPartOutlines[layerIndex], config.supportXYDistanceUm);
      var totalSupportThisLayer := curRequiredSupport - expandedlayerPolys;
      clippedToXyOutlines := clippedToXyOutlines[layerIndex := k.clean(totalSupportThisLayer, CleanDistanceUm)];
      layerIndex := layerIndex - 1;
    }
  }

  method AccumulateDownPolygons(k: Clipper, inputPolys: Stack, allPartOutlines: Stack)
    returns (allDownOutlines: Stack)
    requires |inputPolys| <= |allPartOutlines| + 1
    ensures allDownOutlines == AccumulatedDown(k, inputPolys, allPartOutlines)
  {
    var numLayers := |inputPolys|;
    allDownOutlines := CreateEmptyPolygons(numLayers);
    var layerIndex := numLayers - 2;
    while layerIndex >= 0
      invariant -2 <= layerIndex <= numLayers - 2
      invariant |allDownOutlines| == numLayers
      invariant numLayers > 0 ==> allDownOutlines[numLayers - 1] == {}
      invariant forall i :: 0 <= i && layerIndex < i < numLayers ==> allDownOutlines[i] == DownAt(k, inputPolys, allPartOutlines, i)
    {
      var aboveRequiredSupport := inputPolys[layerIndex + 1];
      var accumulatedAbove := allDownOutlines[layerIndex + 1] + aboveRequiredSupport;
      var curRequiredSupport := inputPolys[layerIndex];
      var totalSupportThisLayer := accumulatedAbove + curRequiredSupport;
      var remainingAbove := totalSupportThisLayer - allPartOutlines[layerIndex];
      allDownOutlines := allDownOutlines[layerIndex := k.clean(remainingAbove, CleanDistanceUm)];
      layerIndex := layerIndex - 1;
    }
  }

  method CreateAirGappedBottomLayers(inputPolys: Stack, allPartOutlines: Stack) returns (airGappedBottoms: Stack)
    requires |inputPolys| <= |allPartOutlines| + 1
    ensures airGappedBottoms == AirGappedBottoms(inputPolys, allPartOutlines)
  {
    var numLayers := |inputPolys|;
    airGappedBottoms := CreateEmptyPolygons(numLayers);
    var layerIndex := 1;
    while layerIndex < numLayers
      invariant 1 <= layerIndex && (numLayers > 0 ==> layerIndex <= numLayers)
      invariant |airGappedBottoms| == numLayers
      invariant numLayers > 0 ==> airGappedBottoms[0] == {}
      invariant forall i :: 1 <= i < layerIndex && i < numLayers ==> airGappedBottoms[i] == allPartOutlines[i - 1] * inputPolys[i]
    {
      var belowOutlines := allPartOutlines[layerIndex - 1];
      var curRequiredSupport := inputPolys[layerIndex];
      var airGapArea := belowOutlines * curRequiredSupport;
      airGappedBottoms := airGappedBottoms[layerIndex := airGapArea];
      layerIndex := layerIndex + 1;
    }
  }

  method CalculateDifferencePerLayer(k: Clipper, inputPolys: Stack, outlinesToRemove: Stack)
    returns (diferenceLayers: Stack)
    requires |inputPolys| <= |outlinesToRemove| + 1
    ensures diferenceLayers == DifferencePerLayer(k, inputPolys, outlinesToRemove)
  {
    var numLayers := |inputPolys|;
    diferenceLayers := CreateEmptyPolygons(numLayers);
    var layerIndex := numLayers - 2;
    while layerIndex >= 0
      invariant -2 <= layerIndex <= numLayers - 2
      invariant |diferenceLayers| == numLayers
      invariant numLayers > 0 ==> diferenceLayers[numLayers - 1] == {}
      invariant forall i :: 0 <= i && layerIndex < i < numLayers - 1 ==>
        diferenceLayers[i] == k.clean(inputPolys[i] - outlinesToRemove[i], CleanDistanceUm)
    {
      var curRequiredSupport := inputPolys[layerIndex];
      var totalSupportThisLayer := curRequiredSupport - outlinesToRemove[layerIndex];
      diferenceLayers := diferenceLayers[layerIndex := k.clean(totalSupportThisLayer, CleanDistanceUm)];
      layerIndex := layerIndex - 1;
    }
  }

  // ---------------------------------------------------------------------------
  // What the passes guarantee
  // ---------------------------------------------------------------------------

  /** `p` lies in `s[j]` for some layer `lo <= j < hi`. */
  ghost predicate InSomeLayer(s: Stack, lo: int, hi: int, p: IntPoint)
  {
    exists j :: lo <= j < hi && 0 <= j < |s| && p in s[j]
  }

  /**
   * Required support is overhang: on layer `i` it lies inside the layer above and
   * outside layer `i` itself. The bottom and top layers require none.
   */
  lemma RequiredSupportBounds(k: Clipper, config: SupportConfig, parts: Stack, i: nat)
    requires CleanShrinks(k) && i < |parts|
    ensures OpeningShrinks(k, config.extrusionWidthUm) && i < |parts| - 1 ==>
      RequiredSupport(k, config, parts)[i] <= parts[i + 1] - parts[i]
    ensures i == 0 || i == |parts| - 1 ==> RequiredSupport(k, config, parts)[i] == {}
  {
    var w := config.extrusionWidthUm;
    var potential := PotentialSupport(k, parts);
    var pruned := SelfSupportPruned(k, potential, w);
    assert potential[|parts| - 1] == {};
    if i == |parts| - 1 && i > 0 {
      assert pruned[i] == {};
    }
    if OpeningShrinks(k, w) && i < |parts| - 1 {
      assert potential[i] <= parts[i + 1] - parts[i];
      if i > 0 && potential[i - 1] != {} && potential[i] != {} {
        assert Opening(k, potential[i], w) <= potential[i];
      }
      assert pruned[i] <= potential[i];
    }
    if !config.generateInternalSupport {
      assert WithoutInternalSupport(k, pruned, parts)[i] <= pruned[i];
    }
  }

  /** With exact cleaning the accumulator of RemoveSupportFromInternalSpaces is the union of the layers seen. */
  lemma {:induction false} AccumulatedPartsIsUnion(k: Clipper, parts: Stack, c: nat)
    requires CleanExact(k) && c <= |parts|
    ensures forall p :: p in AccumulatedParts(k, parts, c) <==> InSomeLayer(parts, 0, c, p)
  {
    if c > 0 {
      AccumulatedPartsIsUnion(k, parts, c - 1);
      forall p
        ensures p in AccumulatedParts(k, parts, c) <==> InSomeLayer(parts, 0, c, p)
      {
        if p in parts[c - 1] {
          assert InSomeLayer(parts, 0, c, p);
        } else if InSomeLayer(parts, 0, c, p) {
          var j :| 0 <= j < c && 0 <= j < |parts| && p in parts[j];
          assert InSomeLayer(parts, 0, c - 1, p);
        }
      }
    }
  }

  /** However cleaning behaves, so long as it only removes area, the accumulator stays inside the union. */
  lemma {:induction false} AccumulatedPartsWithinUnion(k: Clipper, parts: Stack, c: nat)
    requires CleanShrinks(k) && c <= |parts|
    ensures forall p :: p in AccumulatedParts(k, parts, c) ==> InSomeLayer(parts, 0, c, p)
  {
    if c > 0 {
      AccumulatedPartsWithinUnion(k, parts, c - 1);
      forall p | p in AccumulatedParts(k, parts, c)
        ensures InSomeLayer(parts, 0, c, p)
      {
        assert p in AccumulatedParts(k, parts, c - 1) + parts[c - 1];
        if p !in parts[c - 1] {
          assert InSomeLayer(parts, 0, c - 1, p);
        }
      }
    }
  }

  /**
   * Without internal support, a point keeps its support on layer `i` exactly when
   * no part of the model lies at that point on layer `i` or any layer below it:
   * support then only ever stands on the bed.
   */
  lemma InternalSupportRemoved(k: Clipper, input: Stack, parts: Stack, i: nat)
    requires CleanExact(k) && |input| <= |parts| && i < |input|
    ensures forall p :: p in WithoutInternalSupport(k, input, parts)[i] <==>
      p in input[i] && !InSomeLayer(parts, 0, i + 1, p)
  {
    AccumulatedPartsIsUnion(k, parts, i + 1);
  }

  /** With exact cleaning, interface layer `i` is the union of easy-grab layers `i` up to (not including) `j`. */
  lemma {:induction false} InterfaceAccumulationIsUnion(k: Clipper, input: Stack, i: nat, j: int)
    requires CleanExact(k) && i < |input| && j <= |input|
    ensures forall p :: p in InterfaceAccumulation(k, input, i, j) <==> p in input[i] || InSomeLayer(input, i + 1, j, p)
    decreases j
  {
    if j > i + 1 {
      InterfaceAccumulationIsUnion(k, input, i, j - 1);
      forall p
        ensures p in InterfaceAccumulation(k, input, i, j) <==> p in input[i] || InSomeLayer(input, i + 1, j, p)
      {
        if p in input[j - 1] {
          assert InSomeLayer(input, i + 1, j, p);
        } else if InSomeLayer(input, i + 1, j, p) {
          var m :| i + 1 <= m < j && 0 <= m < |input| && p in input[m];
          assert InSomeLayer(input, i + 1, j - 1, p);
        }
      }
    }
  }

  /**
   * `p` is support required on layer `j` that reaches layer `i` below it: the model
   * occupies `p` neither on layer `i` nor on any layer from `i` up to, but not
   * including, `j`.
   */
  ghost predicate ReachesDown(input: Stack, parts: Stack, i: int, j: int, p: IntPoint)
    requires |input| <= |parts| + 1
  {
    0 <= i <= j < |input| && p in input[j]
    && forall m :: i <= m && (m < j || m == i) && m < |parts| ==> p !in parts[m]
  }

  /**
   * With exact cleaning, support is carried down from every layer that needs it to
   * every layer beneath, until it reaches the model.
   */
  lemma {:induction false} DownReachesEveryFreeLayer(k: Clipper, input: Stack, parts: Stack, i: nat, j: nat, p: IntPoint)
    requires CleanExact(k) && |input| <= |parts| + 1
    requires i < |input| - 1 && ReachesDown(input, parts, i, j, p)
    ensures p in DownAt(k, input, parts, i)
    decreases j - i
  {
    if j > i + 1 {
      DownReachesEveryFreeLayer(k, input, parts, i + 1, j, p);
    }
  }

  /** Every point of the carried-down support comes from support required at or above that layer, as ReachesDown says. */
  lemma {:induction false} DownComesFromAbove(k: Clipper, input: Stack, parts: Stack, i: nat, p: IntPoint)
    requires CleanShrinks(k) && |input| <= |parts| + 1
    requires i < |input| && p in DownAt(k, input, parts, i)
    ensures exists j :: ReachesDown(input, parts, i, j, p)
    decreases |input| - i
  {
    assert i < |input| - 1;
    assert p !in parts[i];
    if p in input[i] {
      assert ReachesDown(input, parts, i, i, p);
    } else if p in input[i + 1] {
      assert ReachesDown(input, parts, i, i + 1, p);
    } else {
      assert p in DownAt(k, input, parts, i + 1);
      DownComesFromAbove(k, input, parts, i + 1, p);
      var j :| ReachesDown(input, parts, i + 1, j, p);
      assert ReachesDown(input, parts, i, j, p);
    }
  }

  /**
   * On every layer the normal support, the interface and the air-gapped bottoms
   * never overlap, none of them comes within the XY distance of the model, and
   * the air-gapped bottoms sit directly on the layer of the model below. The top
   * layer prints none of them.
   */
  lemma SupportClearOfParts(k: Clipper, config: SupportConfig, easyGrab: Stack, parts: Stack, i: nat)
    requires CleanShrinks(k) && |easyGrab| <= |parts| + 1 && i < |easyGrab|
    ensures var before := SupportBeforeAirGap(k, config, easyGrab, parts);
      var interface := InterfaceSupport(k, config, easyGrab, parts);
      var airGapped := AirGappedBottoms(before, parts);
      var support := DifferencePerLayer(k, before, airGapped);
      var clearance := if i < |parts| then k.offset(parts[i], config.supportXYDistanceUm) else {};
      support[i] !! interface[i] && support[i] !! airGapped[i] && interface[i] !! airGapped[i]
      && support[i] !! clearance && interface[i] !! clearance && airGapped[i] !! clearance
      && (i > 0 ==> airGapped[i] <= parts[i - 1])
      && (i == |easyGrab| - 1 ==> support[i] == interface[i] == airGapped[i] == {})
  {
    var xy := config.supportXYDistanceUm;
    var clipped := ClippedToXy(k, AccumulatedDown(k, easyGrab, parts), parts, xy);
    var interface := InterfaceSupport(k, config, easyGrab, parts);
    var before := SupportBeforeAirGap(k, config, easyGrab, parts);
    var airGapped := AirGappedBottoms(before, parts);
    var support := DifferencePerLayer(k, before, airGapped);
    if i < |easyGrab| - 1 {
      assert clipped[i] !! k.offset(parts[i], xy);
      assert interface[i] !! k.offset(parts[i], xy);
      assert before[i] <= clipped[i] - interface[i];
      assert airGapped[i] <= before[i];
      assert support[i] <= before[i] - airGapped[i];
    } else {
      assert before[i] == {};
      assert airGapped[i] == {};
    }
  }

  // ---------------------------------------------------------------------------
  // The support object
  // ---------------------------------------------------------------------------

  /**
   * The support areas for a whole print, computed once when the object is made.
   * The layer stacks are not changed after construction.
   */
  class NewSupport {
    const clipper: Clipper
    const config: SupportConfig
    /** `(int)(grabDistanceMm * 1000)`, the easy-grab expansion in micrometres. */
    const grabDistanceUm: int
    const allPartOutlines: Stack
    const allPotentialSupportOutlines: Stack
    const allRequiredSupportOutlines: Stack
    const easyGrabDistanceOutlines: Stack
    const airGappedBottomOutlines: Stack
    const supportOutlines: Stack
    const interfaceLayers: Stack

    /** Each stack holds what the constructor's pipeline computes from the part outlines. */
    ghost predicate Valid()
    {
      |allPartOutlines| == |allPotentialSupportOutlines| == |allRequiredSupportOutlines|
        == |easyGrabDistanceOutlines| == |airGappedBottomOutlines| == |supportOutlines| == |interfaceLayers|
      && allPotentialSupportOutlines == PotentialSupport(clipper, allPartOutlines)
      && allRequiredSupportOutlines == RequiredSupport(clipper, config, allPartOutlines)
      && easyGrabDistanceOutlines == EasyGrab(clipper, allRequiredSupportOutlines, grabDistanceUm)
      && interfaceLayers == InterfaceSupport(clipper, config, easyGrabDistanceOutlines, allPartOutlines)
      && airGappedBottomOutlines
        == AirGappedBottoms(SupportBeforeAirGap(clipper, config, easyGrabDistanceOutlines, allPartOutlines), allPartOutlines)
      && supportOutlines
        == DifferencePerLayer(clipper, SupportBeforeAirGap(clipper, config, easyGrabDistanceOutlines, allPartOutlines), airGappedBottomOutlines)
    }

    constructor (clipper: Clipper, config: SupportConfig, extruders: seq<Stack>, grabDistanceUm: int)
      requires ExtrudersAligned(extruders)
      ensures Valid()
      ensures allPartOutlines == AllPartOutlines(extruders)
      ensures this.clipper == clipper && this.config == config && this.grabDistanceUm == grabDistanceUm
    {
      this.clipper := clipper;
      this.config := config;
      this.grabDistanceUm := grabDistanceUm;
      var parts := CalculateAllPartOutlines(extruders);
      var potential := FindAllPotentialSupportOutlines(clipper, parts);
      var required := RemoveSelfSupportedSections(clipper, potential, config);
      if !config.generateInternalSupport {
        var layers := new Region[|required|](i requires 0 <= i < |required| => required[i]);
        assert layers[..] == required;
        layers := RemoveSupportFromInternalSpaces(clipper, layers, parts);
        required := layers[..];
      }
      var easyGrab := ExpandToEasyGrabDistance(clipper, required, grabDistanceUm);
      var interface := CreateInterfaceLayers(clipper, easyGrab, config.supportInterfaceLayers);
      interface := ClipToXyDistance(clipper, interface, parts, config);
      var support := AccumulateDownPolygons(clipper, easyGrab, parts);
      support := ClipToXyDistance(clipper, support, parts, config);
      support := CalculateDifferencePerLayer(clipper, support, interface);
      var airGapped := CreateAirGappedBottomLayers(support, parts);
      support := CalculateDifferencePerLayer(clipper, support, airGapped);
      allPartOutlines := parts;
      allPotentialSupportOutlines := potential;
      allRequiredSupportOutlines := required;
      easyGrabDistanceOutlines := easyGrab;
      interfaceLayers := interface;
      airGappedBottomOutlines := airGapped;
      supportOutlines := support;
    }

    /** The area that must be held up under printed layer `layerIndex`. */
    function GetRequiredSupportAreas(layerIndex: int): (r: Region)
      ensures r != {} ==>
        1 <= layerIndex <= |allRequiredSupportOutlines| && r == allRequiredSupportOutlines[layerIndex - 1]
    {
      var index := layerIndex - 1;
      if index < |allRequiredSupportOutlines| && index >= 0 then allRequiredSupportOutlines[index] else {}
    }

    /**
     * What GetRequiredSupportAreas hands out is overhang: area of the layer with
     * nothing of the model under it on the layer below. The first two layers, the
     * top layer and layers outside the stack need none.
     */
    lemma RequiredSupportAreasAreOverhangs(layerIndex: int)
      requires Valid() && CleanShrinks(clipper)
      ensures OpeningShrinks(clipper, config.extrusionWidthUm) && 1 <= layerIndex < |allPartOutlines| ==>
        GetRequiredSupportAreas(layerIndex) <= allPartOutlines[layerIndex] - allPartOutlines[layerIndex - 1]
      ensures layerIndex <= 1 || layerIndex >= |allPartOutlines| ==> GetRequiredSupportAreas(layerIndex) == {}
    {
      if 0 <= layerIndex - 1 < |allPartOutlines| {
        RequiredSupportBounds(clipper, config, allPartOutlines, layerIndex - 1);
      }
    }

    /** The support and interface printed on the bed, which the raft and skirt must go around. */
    function GetBedOutlines(): (r: Region)
      requires |supportOutlines| > 0 && |interfaceLayers| > 0
      ensures supportOutlines[0] <= r && interfaceLayers[0] <= r
      ensures r <= supportOutlines[0] + interfaceLayers[0]
    {
      supportOutlines[0] + interfaceLayers[0]
    }

    /** Nothing on the bed outline comes within the XY distance of the first layer of the model. */
    lemma BedOutlinesClearOfParts()
      requires Valid() && CleanShrinks(clipper) && |allPartOutlines| > 0
      ensures GetBedOutlines() !! clipper.offset(allPartOutlines[0], config.supportXYDistanceUm)
    {
      SupportClearOfParts(clipper, config, easyGrabDistanceOutlines, allPartOutlines, 0);
    }
  }
}
