/** The ASTM layer codes and the two ways entities are matched against them:
    by the decimal string of the code, and by the numeric value of the layer. */
module Layers {
  import opened Wrappers
  import opened Numerals
  import opened Dxf

  datatype AstmLayer =
    | Boundery | TurnPoints | CurvePoints | Notches | GradeReference
    | MirrorLine | GrainLine | InternalLines | DrillHoles | AnnotationText
    | AstmBoundery | AstmInternalLines

  /** The numeric code of each layer. */
  function Code(l: AstmLayer): nat {
    match l
    case Boundery => 1
    case TurnPoints => 2
    case CurvePoints => 3
    case Notches => 4
    case GradeReference => 5
    case MirrorLine => 6
    case GrainLine => 7
    case InternalLines => 8
    case DrillHoles => 13
    case AnnotationText => 15
    case AstmBoundery => 84
    case AstmInternalLines => 85
  }

  /** The layer a numeric code names, if any. */
  function FromCode(n: int): Option<AstmLayer> {
    if n == 1 then Some(Boundery)
    else if n == 2 then Some(TurnPoints)
    else if n == 3 then Some(CurvePoints)
    else if n == 4 then Some(Notches)
    else if n == 5 then Some(GradeReference)
    else if n == 6 then Some(MirrorLine)
    else if n == 7 then Some(GrainLine)
    else if n == 8 then Some(InternalLines)
    else if n == 13 then Some(DrillHoles)
    else if n == 15 then Some(AnnotationText)
    else if n == 84 then Some(AstmBoundery)
    else if n == 85 then Some(AstmInternalLines)
    else None
  }

  /** Codes and layers are in one-to-one correspondence. */
  lemma CodeRoundTrip(l: AstmLayer, n: int)
    ensures FromCode(Code(l)) == Some(l)
    ensures FromCode(n) == Some(l) ==> Code(l) == n
  {
  }

  /** The layers a pattern piece builds shapes from; the two legacy ASTM
      layers are known but not handled. */
  predicate Handled(l: AstmLayer) {
    !(l == AstmBoundery || l == AstmInternalLines)
  }

  /** `layer.toString()`. */
  function LayerString(l: AstmLayer): string {
    NatToString(Code(l))
  }

  /** `entity.layer === layer.toString()`. */
  predicate OnLayer(e: Entity, l: AstmLayer) {
    e.layer == LayerString(l)
  }

  /** `entities.filter(entity => entity.layer === layer.toString())`. */
  function FilterLayer(es: seq<Entity>, l: AstmLayer): (r: seq<Entity>)
    ensures |r| <= |es|
    ensures forall k :: 0 <= k < |r| ==> OnLayer(r[k], l) && r[k] in es
    ensures forall e :: e in es && OnLayer(e, l) ==> e in r
  {
    if |es| == 0 then []
    else
      var rest := FilterLayer(es[..|es| - 1], l);
      if OnLayer(es[|es| - 1], l) then rest + [es[|es| - 1]] else rest
  }

  /** `+entity.layer === code`. */
  predicate OnLayerNumeric(e: Entity, code: int) {
    NumericValue(e.layer) == Some(code)
  }

  /** `entities.filter(entity => +entity.layer === code)`. */
  function FilterNumeric(es: seq<Entity>, code: int): (r: seq<Entity>)
    ensures |r| <= |es|
    ensures forall k :: 0 <= k < |r| ==> OnLayerNumeric(r[k], code) && r[k] in es
    ensures forall e :: e in es && OnLayerNumeric(e, code) ==> e in r
  {
    if |es| == 0 then []
    else
      var rest := FilterNumeric(es[..|es| - 1], code);
      if OnLayerNumeric(es[|es| - 1], code) then rest + [es[|es| - 1]] else rest
  }

  /** Filtering distributes over concatenation, so the entities of other
      layers never reach a builder. */
  lemma {:induction false} FilterLayerAppend(es: seq<Entity>, more: seq<Entity>, l: AstmLayer)
    ensures FilterLayer(es + more, l) == FilterLayer(es, l) + FilterLayer(more, l)
    decreases |more|
  {
    if |more| > 0 {
      var init := more[..|more| - 1];
      assert (es + more)[..|es + more| - 1] == es + init;
      FilterLayerAppend(es, init, l);
    } else {
      assert es + more == es;
    }
  }

  /** The numeric filter distributes over concatenation too: it keeps the
      block order and every repetition of the entities it lets through. */
  lemma {:induction false} FilterNumericAppend(es: seq<Entity>, more: seq<Entity>, code: int)
    ensures FilterNumeric(es + more, code) == FilterNumeric(es, code) + FilterNumeric(more, code)
    decreases |more|
  {
    if |more| > 0 {
      var init := more[..|more| - 1];
      assert (es + more)[..|es + more| - 1] == es + init;
      FilterNumericAppend(es, init, code);
    } else {
      assert es + more == es;
    }
  }

  /** One more entity joins the numeric filter's result at the end exactly
      when it is numerically on the layer. */
  lemma FilterNumericSnoc(es: seq<Entity>, e: Entity, code: int)
    ensures FilterNumeric(es + [e], code) == FilterNumeric(es, code) + if OnLayerNumeric(e, code) then [e] else []
  {
    assert (es + [e])[..|es|] == es;
  }

  /** An entity on another layer does not change what a builder sees,
      wherever it stands in the block. */
  lemma ForeignEntityIsInvisible(es: seq<Entity>, e: Entity, more: seq<Entity>, l: AstmLayer)
    requires !OnLayer(e, l)
    ensures FilterLayer(es + [e] + more, l) == FilterLayer(es + more, l)
  {
    FilterLayerAppend(es + [e], more, l);
    FilterLayerAppend(es, [e], l);
    FilterLayerAppend(es, more, l);
    assert FilterLayer([e], l) == [] by {
      assert [e][..0] == [];
    }
  }

  /** Every entity a builder matches by string is on the same layer
      numerically. */
  lemma OnLayerIsNumeric(e: Entity, l: AstmLayer)
    requires OnLayer(e, l)
    ensures OnLayerNumeric(e, Code(l))
  {
    NumericValueOfNatToString(Code(l));
  }

  /** The converse fails: "01" is layer 1 numerically but no builder matches it. */
  lemma PaddedLayerIsOnlyNumeric()
    ensures OnLayerNumeric(Text("01", ""), 1) && !OnLayer(Text("01", ""), Boundery)
  {
    LeadingZeroReadsAsNumber();
  }

  /** A layer with more fraction digits than a double keeps is on the layer
      its value rounds to: "1.0000000000000001" is layer 1 numerically. */
  lemma RoundedLayerIsOnlyNumeric(e: Entity)
    requires e.layer == "1.0000000000000001"
    ensures OnLayerNumeric(e, 1) && !OnLayer(e, Boundery)
  {
    DecimalBelowPrecisionReadsAsInteger(e.layer);
  }
}
