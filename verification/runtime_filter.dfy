/** The runtime filter record of the planner and the operations on it that only read it: the two
    explain texts, the debug string, and the detached clone. */
module RuntimeFilters {
  import opened Wrappers
  import opened Text

  /** A column reference: its planner-wide `UniqueID` and the text its `String` method prints.
      How columns print and clone is outside this model; a column clone is the same value. */
  datatype Column = Column(uniqueID: int, text: string)

  /** Membership test or range test. */
  datatype RuntimeFilterType = In | MinMax

  /** The distribution scope. `Unset` is the zero value every new filter has. */
  datatype RuntimeFilterMode = Unset | Off | Local | Global

  /** The names the filter types print with. */
  function TypeName(t: RuntimeFilterType): string {
    match t
    case In => "IN"
    case MinMax => "MIN_MAX"
  }

  /** The names the filter modes print with; the zero mode has no name. */
  function ModeName(m: RuntimeFilterMode): string {
    match m
    case Unset => ""
    case Off => "OFF"
    case Local => "LOCAL"
    case Global => "GLOBAL"
  }

  /** A live reference to a plan operator: its slot in the plan's operator arena and the operator's
      own plan id, which never changes once the operator exists. */
  datatype NodeRef = NodeRef(slot: nat, id: int)

  /** The runtime filter record. `buildNode` and `targetNode` are the live operator references
      (None is a nil pointer); `buildNodeID` and `targetNodeID` hold the resolved ids a clone keeps
      and are zero on a filter that was never cloned. */
  datatype RuntimeFilter = RuntimeFilter(
    id: int,
    buildNode: Option<NodeRef>,
    srcExprList: seq<Column>,
    targetExprList: seq<Column>,
    rfType: RuntimeFilterType,
    rfMode: RuntimeFilterMode,
    targetNode: Option<NodeRef>,
    buildNodeID: int,
    targetNodeID: int)

  function Texts(cols: seq<Column>): (ts: seq<string>)
    ensures |ts| == |cols| && forall i :: 0 <= i < |cols| ==> ts[i] == cols[i].text
  {
    seq(|cols|, i requires 0 <= i < |cols| => cols[i].text)
  }

  // ---------------------------------------------------------------- explain text

  /** What comes before the column texts: the id, the type in brackets and the arrow that shows
      the side the text is seen from. */
  function ExplainHeader(rf: RuntimeFilter, isBuildNode: bool): string {
    DecimalString(rf.id) + "[" + TypeName(rf.rfType) + "]" + (if isBuildNode then " <- " else " -> ")
  }

  /** The columns the explain text lists: the sources seen from the join, the targets seen from the scan. */
  function ExplainedColumns(rf: RuntimeFilter, isBuildNode: bool): seq<Column> {
    if isBuildNode then rf.srcExprList else rf.targetExprList
  }

  function ExplainText(rf: RuntimeFilter, isBuildNode: bool): string {
    ExplainHeader(rf, isBuildNode) + JoinComma(Texts(ExplainedColumns(rf, isBuildNode)))
  }

  /** Explain text of a filter: the header, then the column texts in list order with a comma
      between neighbours only. */
  method ExplainInfo(rf: RuntimeFilter, isBuildNode: bool) returns (s: string)
    ensures s == ExplainText(rf, isBuildNode)
  {
    s := DecimalString(rf.id) + "[" + TypeName(rf.rfType) + "]";
    var exprs: seq<Column>;
    if isBuildNode {
      s := s + " <- ";
      exprs := rf.srcExprList;
    } else {
      s := s + " -> ";
      exprs := rf.targetExprList;
    }
    ghost var header, ts := s, Texts(exprs);
    for i := 0 to |exprs|
      invariant s == header + JoinComma(ts[..i])
    {
      if i != 0 {
        s := s + ",";
      }
      s := s + exprs[i].text;
      assert ts[..i + 1][..i] == ts[..i];
    }
    assert ts[..|exprs|] == ts;
  }

  /** The explain text starts with the header; an empty list adds nothing to it; otherwise, when no
      column text holds a comma, splitting the rest at commas gives the column texts back in order,
      so there is no comma before the first or after the last. */
  lemma ExplainListsColumns(rf: RuntimeFilter, isBuildNode: bool)
    ensures var h, cols := ExplainHeader(rf, isBuildNode), ExplainedColumns(rf, isBuildNode);
      && ExplainText(rf, isBuildNode)[..|h|] == h
      && (|cols| == 0 ==> ExplainText(rf, isBuildNode) == h)
      && ((|cols| > 0 && forall i :: 0 <= i < |cols| ==> NoComma(cols[i].text)) ==>
            SplitComma(ExplainText(rf, isBuildNode)[|h|..]) == Texts(cols))
  {
    var h, cols := ExplainHeader(rf, isBuildNode), ExplainedColumns(rf, isBuildNode);
    var s := ExplainText(rf, isBuildNode);
    assert s[|h|..] == JoinComma(Texts(cols));
    if |cols| > 0 && forall i :: 0 <= i < |cols| ==> NoComma(cols[i].text) {
      SplitJoin(Texts(cols));
    }
  }

  // ---------------------------------------------------------------- debug string

  function TargetNodeField(targetNode: Option<NodeRef>): string {
    if targetNode.None? then "targetNodeID=nil" else "targetNodeID=" + DecimalString(targetNode.value.id)
  }

  function ModeField(m: RuntimeFilterMode): string {
    if m == Unset then "rfMode=nil" else "rfMode=" + ModeName(m)
  }

  /** The debug string of a live filter. */
  function FilterString(rf: RuntimeFilter): string
    requires rf.buildNode.Some?
  {
    "id=" + DecimalString(rf.id) + ", "
    + "buildNodeID=" + DecimalString(rf.buildNode.value.id) + ", "
    + TargetNodeField(rf.targetNode) + ", "
    + "srcColumn=" + Terminated(Texts(rf.srcExprList)) + ", "
    + "targetColumn=" + Terminated(Texts(rf.targetExprList)) + ", "
    + "rfType=" + TypeName(rf.rfType) + ", "
    + ModeField(rf.rfMode) + "."
  }

  /** Appends the texts of `cols` to `s`, each followed by a comma. */
  method AppendTerminated(s: string, cols: seq<Column>) returns (r: string)
    ensures r == s + Terminated(Texts(cols))
  {
    r := s;
    ghost var ts := Texts(cols);
    for i := 0 to |cols|
      invariant r == s + Terminated(ts[..i])
    {
      r := r + cols[i].text + ",";
      assert ts[..i + 1][..i] == ts[..i];
    }
    assert ts[..|cols|] == ts;
  }

  /** Debug string of a live filter (its build node is dereferenced, so it must be set). */
  method String(rf: RuntimeFilter) returns (s: string)
    requires rf.buildNode.Some?
    ensures s == FilterString(rf)
  {
    s := "id=" + DecimalString(rf.id);
    s := s + ", ";
    s := s + "buildNodeID=" + DecimalString(rf.buildNode.value.id);
    s := s + ", ";
    if rf.targetNode.None? {
      s := s + "targetNodeID=nil";
    } else {
      s := s + "targetNodeID=" + DecimalString(rf.targetNode.value.id);
    }
    assert s == "id=" + DecimalString(rf.id) + ", "
      + "buildNodeID=" + DecimalString(rf.buildNode.value.id) + ", "
      + TargetNodeField(rf.targetNode);
    s := s + ", ";
    s := s + "srcColumn=";
    s := AppendTerminated(s, rf.srcExprList);
    s := s + ", ";
    s := s + "targetColumn=";
    s := AppendTerminated(s, rf.targetExprList);
    s := s + ", ";
    s := s + "rfType=" + TypeName(rf.rfType);
    s := s + ", ";
    ghost var beforeMode := s;
    if rf.rfMode == Unset {
      s := s + "rfMode=nil";
    } else {
      s := s + "rfMode=" + ModeName(rf.rfMode);
    }
    assert s == beforeMode + ModeField(rf.rfMode);
    s := s + ".";
  }

  /** The target field reads `targetNodeID=nil` exactly when the filter has no target node. */
  lemma TargetNodeFieldNil(targetNode: Option<NodeRef>)
    ensures TargetNodeField(targetNode) == "targetNodeID=nil" <==> targetNode.None?
  {
    if targetNode.Some? {
      var d := DecimalString(targetNode.value.id);
      var f := TargetNodeField(targetNode);
      assert f == "targetNodeID=" + d;
      assert f[13] == d[0] && d[0] != 'n';
      assert "targetNodeID=nil"[13] == 'n';
    }
  }

  /** The mode field reads `rfMode=nil` exactly when the mode is the zero value. */
  lemma ModeFieldNil(m: RuntimeFilterMode)
    ensures ModeField(m) == "rfMode=nil" <==> m == Unset
  {
    if m != Unset {
      var f := ModeField(m);
      assert f == "rfMode=" + ModeName(m);
      assert f[7] == ModeName(m)[0] && ModeName(m)[0] != 'n';
      assert "rfMode=nil"[7] == 'n';
    }
  }

  // ---------------------------------------------------------------- clone

  /** The detached copy: same id, type, mode and expression lists, no live references, and each
      endpoint's id taken from the live operator when there is one, else from the stored id. */
  function Cloned(rf: RuntimeFilter): RuntimeFilter {
    RuntimeFilter(
      rf.id, None, rf.srcExprList, rf.targetExprList, rf.rfType, rf.rfMode, None,
      if rf.buildNode.None? then rf.buildNodeID else rf.buildNode.value.id,
      if rf.targetNode.None? then rf.targetNodeID else rf.targetNode.value.id)
  }

  /** Deep copy of a filter that keeps integer operator ids instead of operator references. */
  method Clone(rf: RuntimeFilter) returns (cloned: RuntimeFilter)
    ensures cloned == Cloned(rf)
  {
    var buildNodeID, targetNodeID;
    if rf.buildNode.None? {
      buildNodeID := rf.buildNodeID;
    } else {
      buildNodeID := rf.buildNode.value.id;
    }
    if rf.targetNode.None? {
      targetNodeID := rf.targetNodeID;
    } else {
      targetNodeID := rf.targetNode.value.id;
    }
    var src: seq<Column> := [];
    for i := 0 to |rf.srcExprList|
      invariant src == rf.srcExprList[..i]
    {
      src := src + [rf.srcExprList[i]];
    }
    var target: seq<Column> := [];
    for i := 0 to |rf.targetExprList|
      invariant target == rf.targetExprList[..i]
    {
      target := target + [rf.targetExprList[i]];
    }
    cloned := RuntimeFilter(rf.id, None, src, target, rf.rfType, rf.rfMode, None, buildNodeID, targetNodeID);
  }

  /** A clone keeps the id, type, mode and both expression lists (same length, same order), holds
      no live reference, and resolves each endpoint from the live operator when there is one. */
  lemma CloneKeepsFilter(rf: RuntimeFilter)
    ensures var c := Cloned(rf);
      && c.id == rf.id && c.rfType == rf.rfType && c.rfMode == rf.rfMode
      && c.srcExprList == rf.srcExprList && c.targetExprList == rf.targetExprList
      && c.buildNode.None? && c.targetNode.None?
      && (rf.buildNode.Some? ==> c.buildNodeID == rf.buildNode.value.id)
      && (rf.buildNode.None? ==> c.buildNodeID == rf.buildNodeID)
      && (rf.targetNode.Some? ==> c.targetNodeID == rf.targetNode.value.id)
      && (rf.targetNode.None? ==> c.targetNodeID == rf.targetNodeID)
  {
  }

  /** Cloning a clone changes nothing. */
  lemma CloneIdempotent(rf: RuntimeFilter)
    ensures Cloned(Cloned(rf)) == Cloned(rf)
  {
  }
}
