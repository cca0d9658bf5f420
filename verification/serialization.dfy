/** Conversion of runtime filters to the execution layer's wire message. The expression converter
    is a parameter: a partial function from a column to its wire expression, None where the
    converter gives nil. */
module Serialization {
  import opened Wrappers
  import opened Text
  import opened RuntimeFilters

  /** A converted expression; its byte encoding is not part of this model. */
  datatype ExprPB = ExprPB(encoded: seq<bv8>)

  datatype RuntimeFilterTypePB = TypeIn | TypeMinMax
  datatype RuntimeFilterModePB = ModeLocal | ModeGlobal

  /** The wire message of one filter. */
  datatype RuntimeFilterPB = RuntimeFilterPB(
    id: int,
    sourceExprList: seq<ExprPB>,
    targetExprList: seq<ExprPB>,
    sourceExecutorId: string,
    targetExecutorId: string,
    rfType: RuntimeFilterTypePB,
    rfMode: RuntimeFilterModePB)

  /** The internal error raised when an expression has no wire form, naming the expression's text
      and whether it was a source or a target expression. */
  datatype ConvertError = SrcExprNotConverted(expr: string) | TargetExprNotConverted(expr: string)

  type ExprConverter = Column -> Option<ExprPB>

  /** Go's `int32(x)` conversion: the low 32 bits read as a two's-complement number. */
  function Int32(x: int): (r: int)
    ensures -0x8000_0000 <= r < 0x8000_0000
    ensures (x - r) % 0x1_0000_0000 == 0
    ensures -0x8000_0000 <= x < 0x8000_0000 ==> r == x
  {
    (x + 0x8000_0000) % 0x1_0000_0000 - 0x8000_0000
  }

  /** MinMax maps to MIN_MAX and every other type to IN. */
  function TypeToPB(t: RuntimeFilterType): (r: RuntimeFilterTypePB)
    ensures r == TypeMinMax <==> t == MinMax
  {
    match t
    case MinMax => TypeMinMax
    case _ => TypeIn
  }

  /** Global maps to GLOBAL and every other mode, the unset zero mode included, to LOCAL. */
  function ModeToPB(m: RuntimeFilterMode): (r: RuntimeFilterModePB)
    ensures r == ModeGlobal <==> m == Global
  {
    match m
    case Global => ModeGlobal
    case _ => ModeLocal
  }

  function SrcConverter(exprToPB: ExprConverter): Column -> Result<ExprPB, ConvertError> {
    c => if exprToPB(c).Some? then Success(exprToPB(c).value) else Failure(SrcExprNotConverted(c.text))
  }

  function TargetConverter(exprToPB: ExprConverter): Column -> Result<ExprPB, ConvertError> {
    c => if exprToPB(c).Some? then Success(exprToPB(c).value) else Failure(TargetExprNotConverted(c.text))
  }

  /** The wire message of a filter, or the error of the first expression without a wire form;
      source expressions are converted before target expressions. */
  function Wire(rf: RuntimeFilter, exprToPB: ExprConverter): Result<RuntimeFilterPB, ConvertError> {
    match MapUntilFailure(rf.srcExprList, SrcConverter(exprToPB))
    case Failure(e) => Failure(e)
    case Success(src) =>
      match MapUntilFailure(rf.targetExprList, TargetConverter(exprToPB))
      case Failure(e) => Failure(e)
      case Success(target) =>
        Success(RuntimeFilterPB(
          Int32(rf.id), src, target,
          DecimalString(rf.buildNodeID), DecimalString(rf.targetNodeID),
          TypeToPB(rf.rfType), ModeToPB(rf.rfMode)))
  }

  /** Converts a filter to its wire message. */
  method ToPB(rf: RuntimeFilter, exprToPB: ExprConverter) returns (r: Result<RuntimeFilterPB, ConvertError>)
    ensures r == Wire(rf, exprToPB)
  {
    var srcPB: seq<ExprPB> := [];
    for i := 0 to |rf.srcExprList|
      invariant MapUntilFailure(rf.srcExprList[..i], SrcConverter(exprToPB)) == Success(srcPB)
    {
      var e := exprToPB(rf.srcExprList[i]);
      assert rf.srcExprList[..i + 1][..i] == rf.srcExprList[..i];
      if e.None? {
        FailureIsFinal(rf.srcExprList, i + 1, SrcConverter(exprToPB));
        return Failure(SrcExprNotConverted(rf.srcExprList[i].text));
      }
      srcPB := srcPB + [e.value];
    }
    assert rf.srcExprList[..|rf.srcExprList|] == rf.srcExprList;
    var targetPB: seq<ExprPB> := [];
    for i := 0 to |rf.targetExprList|
      invariant MapUntilFailure(rf.targetExprList[..i], TargetConverter(exprToPB)) == Success(targetPB)
    {
      var e := exprToPB(rf.targetExprList[i]);
      assert rf.targetExprList[..i + 1][..i] == rf.targetExprList[..i];
      if e.None? {
        FailureIsFinal(rf.targetExprList, i + 1, TargetConverter(exprToPB));
        return Failure(TargetExprNotConverted(rf.targetExprList[i].text));
      }
      targetPB := targetPB + [e.value];
    }
    assert rf.targetExprList[..|rf.targetExprList|] == rf.targetExprList;
    var rfTypePB := TypeIn;
    match rf.rfType {
      case In => rfTypePB := TypeIn;
      case MinMax => rfTypePB := TypeMinMax;
    }
    var rfModePB := ModeLocal;
    match rf.rfMode {
      case Local => rfModePB := ModeLocal;
      case Global => rfModePB := ModeGlobal;
      case _ =>
    }
    r := Success(RuntimeFilterPB(
      Int32(rf.id), srcPB, targetPB,
      DecimalString(rf.buildNodeID), DecimalString(rf.targetNodeID),
      rfTypePB, rfModePB));
  }

  /** Conversion fails exactly when some source or target expression has no wire form. A failure
      names a source expression exactly when some source fails, and then it is the first failing
      source; a target failure means every source converted and names the first failing target. */
  lemma WireFailure(rf: RuntimeFilter, exprToPB: ExprConverter)
    ensures Wire(rf, exprToPB).Failure? <==>
      (exists i :: 0 <= i < |rf.srcExprList| && exprToPB(rf.srcExprList[i]).None?) ||
      (exists i :: 0 <= i < |rf.targetExprList| && exprToPB(rf.targetExprList[i]).None?)
    ensures (Wire(rf, exprToPB).Failure? && Wire(rf, exprToPB).error.SrcExprNotConverted?) <==>
      exists i :: 0 <= i < |rf.srcExprList| && exprToPB(rf.srcExprList[i]).None?
    ensures forall t :: Wire(rf, exprToPB) == Failure(SrcExprNotConverted(t)) ==>
      exists i :: 0 <= i < |rf.srcExprList| && exprToPB(rf.srcExprList[i]).None? &&
        t == rf.srcExprList[i].text &&
        forall j :: 0 <= j < i ==> exprToPB(rf.srcExprList[j]).Some?
    ensures forall t :: Wire(rf, exprToPB) == Failure(TargetExprNotConverted(t)) ==>
      (forall i :: 0 <= i < |rf.srcExprList| ==> exprToPB(rf.srcExprList[i]).Some?) &&
      exists i :: 0 <= i < |rf.targetExprList| && exprToPB(rf.targetExprList[i]).None? &&
        t == rf.targetExprList[i].text &&
        forall j :: 0 <= j < i ==> exprToPB(rf.targetExprList[j]).Some?
  {
    var src := MapUntilFailure(rf.srcExprList, SrcConverter(exprToPB));
    var target := MapUntilFailure(rf.targetExprList, TargetConverter(exprToPB));
    if src.Success? {
      assert forall i :: 0 <= i < |rf.srcExprList| ==>
        SrcConverter(exprToPB)(rf.srcExprList[i]).Success?;
    }
    if src.Success? && target.Success? {
      assert forall i :: 0 <= i < |rf.targetExprList| ==>
        TargetConverter(exprToPB)(rf.targetExprList[i]).Success?;
    }
  }

  /** A successful conversion carries the id truncated to 32 bits, the converted source and target
      expressions in their order, the decimal texts of the stored build and target ids, and the
      mapped type and mode. */
  lemma WireSuccess(rf: RuntimeFilter, exprToPB: ExprConverter)
    requires Wire(rf, exprToPB).Success?
    ensures var pb := Wire(rf, exprToPB).value;
      && pb.id == Int32(rf.id)
      && |pb.sourceExprList| == |rf.srcExprList|
      && (forall i :: 0 <= i < |rf.srcExprList| ==> exprToPB(rf.srcExprList[i]) == Some(pb.sourceExprList[i]))
      && |pb.targetExprList| == |rf.targetExprList|
      && (forall i :: 0 <= i < |rf.targetExprList| ==> exprToPB(rf.targetExprList[i]) == Some(pb.targetExprList[i]))
      && IsDecimal(pb.sourceExecutorId) && ParseDecimal(pb.sourceExecutorId) == rf.buildNodeID
      && IsDecimal(pb.targetExecutorId) && ParseDecimal(pb.targetExecutorId) == rf.targetNodeID
      && (pb.rfType == TypeMinMax <==> rf.rfType == MinMax)
      && (pb.rfMode == ModeGlobal <==> rf.rfMode == Global)
  {
    var pb := Wire(rf, exprToPB).value;
    assert forall i :: 0 <= i < |rf.srcExprList| ==>
      SrcConverter(exprToPB)(rf.srcExprList[i]) == Success(pb.sourceExprList[i]);
    assert forall i :: 0 <= i < |rf.targetExprList| ==>
      TargetConverter(exprToPB)(rf.targetExprList[i]) == Success(pb.targetExprList[i]);
    DecimalRoundTrip(rf.buildNodeID);
    DecimalRoundTrip(rf.targetNodeID);
  }

  /** A clone converts exactly when the original does, and its executor ids are the decimal texts
      of the operators the original points at (or of the ids it already held). */
  lemma CloneThenWire(rf: RuntimeFilter, exprToPB: ExprConverter)
    ensures Wire(Cloned(rf), exprToPB).Success? <==> Wire(rf, exprToPB).Success?
    ensures Wire(Cloned(rf), exprToPB).Success? ==>
      var pb := Wire(Cloned(rf), exprToPB).value;
      && pb.id == Int32(rf.id)
      && ParseDecimal(pb.sourceExecutorId) == (if rf.buildNode.Some? then rf.buildNode.value.id else rf.buildNodeID)
      && ParseDecimal(pb.targetExecutorId) == (if rf.targetNode.Some? then rf.targetNode.value.id else rf.targetNodeID)
  {
    if Wire(Cloned(rf), exprToPB).Success? {
      WireSuccess(Cloned(rf), exprToPB);
    }
  }

  function Serializer(exprToPB: ExprConverter): RuntimeFilter -> Result<RuntimeFilterPB, ConvertError> {
    rf => Wire(rf, exprToPB)
  }

  function WireList(rfs: seq<RuntimeFilter>, exprToPB: ExprConverter): Result<seq<RuntimeFilterPB>, ConvertError> {
    MapUntilFailure(rfs, Serializer(exprToPB))
  }

  /** Converts a list of filters, stopping at the first filter that fails to convert. */
  method RuntimeFilterListToPB(rfs: seq<RuntimeFilter>, exprToPB: ExprConverter)
    returns (r: Result<seq<RuntimeFilterPB>, ConvertError>)
    ensures r == WireList(rfs, exprToPB)
  {
    var result: seq<RuntimeFilterPB> := [];
    for i := 0 to |rfs|
      invariant MapUntilFailure(rfs[..i], Serializer(exprToPB)) == Success(result)
    {
      var rfPB := ToPB(rfs[i], exprToPB);
      assert rfs[..i + 1][..i] == rfs[..i];
      if rfPB.Failure? {
        FailureIsFinal(rfs, i + 1, Serializer(exprToPB));
        return Failure(rfPB.error);
      }
      result := result + [rfPB.value];
    }
    assert rfs[..|rfs|] == rfs;
    r := Success(result);
  }

  /** List conversion is all or nothing: on success one message per filter, in input order, each
      the filter's own message; on failure the error of the first filter that fails, with every
      filter before it converted; the empty list converts to the empty list. */
  lemma WireListAllOrNothing(rfs: seq<RuntimeFilter>, exprToPB: ExprConverter)
    ensures WireList(rfs, exprToPB).Success? <==> forall i :: 0 <= i < |rfs| ==> Wire(rfs[i], exprToPB).Success?
    ensures WireList(rfs, exprToPB).Success? ==>
      |WireList(rfs, exprToPB).value| == |rfs| &&
      forall i :: 0 <= i < |rfs| ==> Wire(rfs[i], exprToPB) == Success(WireList(rfs, exprToPB).value[i])
    ensures WireList(rfs, exprToPB).Failure? ==>
      exists i :: 0 <= i < |rfs| && Wire(rfs[i], exprToPB) == Failure(WireList(rfs, exprToPB).error) &&
        forall j :: 0 <= j < i ==> Wire(rfs[j], exprToPB).Success?
    ensures |rfs| == 0 ==> WireList(rfs, exprToPB) == Success([])
  {
    var r := WireList(rfs, exprToPB);
    if r.Success? {
      assert forall i :: 0 <= i < |rfs| ==> Serializer(exprToPB)(rfs[i]) == Success(r.value[i]);
    } else {
      var i :| 0 <= i < |rfs| && Serializer(exprToPB)(rfs[i]) == Failure(r.error) &&
        forall j :: 0 <= j < i ==> Serializer(exprToPB)(rfs[j]).Success?;
      assert Wire(rfs[i], exprToPB).Failure?;
    }
  }
}
