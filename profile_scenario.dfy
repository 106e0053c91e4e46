/**
 * Whole-tree consequences: a tree built live, written on one node and read on
 * another, keeps its names, times and shape, and renders as before.
 */
module ProfileScenario {
  import opened CollectorNaming
  import opened ProfileTree
  import opened ProfileStream
  import opened ProfileRendering

  /** What the remote side reads back renders exactly as the original did,
      and agrees with it position by position. */
  lemma TransferPreservesProfile(n: Node, rest: seq<Token>, formatTime: Int64 -> string)
    ensures DecodeNode(Encode(n) + rest, 0).Some?
    ensures var d := DecodeNode(Encode(n) + rest, 0).value.0;
      AllDetached(d) && SameProfile(n, d) && Render(d, formatTime) == Render(n, formatTime)
  {
    DecodeEncodeFront(n, rest);
    DetachAgrees(n);
    RenderDetach(n, formatTime);
  }

  /** A filtering collector over an anonymous aggregator class nested in
      SumAggregator: after the transfer the parent keeps its bare class name,
      the child carries the aggregation suffix, and the child is rendered
      inside the parent's children array. */
  lemma FilterOverSumAggregation(parentTime: Nanos, childTime: Nanos, formatTime: Int64 -> string)
    ensures
      var child := NewLive(Target("", "SumAggregator", "total_sum"), ReasonAggregation, [], childTime);
      var parent := NewLive(Target("FilterCollector", "", "filter"), "other", [child], parentTime);
      var r := DecodeNode(Encode(parent), 0);
      && r.Some?
      && r.value.1 == |Encode(parent)|
      && r.value.0.name == "FilterCollector"
      && GetTime(r.value.0) == parentTime
      && |r.value.0.children| == 1
      && r.value.0.children[0].name == "SumAggregator: [total_sum]"
      && GetTime(r.value.0.children[0]) == childTime
      && Render(r.value.0, formatTime).fields[3].1 == Arr([Render(r.value.0.children[0], formatTime)])
  {
    var child := NewLive(Target("", "SumAggregator", "total_sum"), ReasonAggregation, [], childTime);
    var parent := NewLive(Target("FilterCollector", "", "filter"), "other", [child], parentTime);
    DecodeEncodeFront(parent, []);
    assert Encode(parent) + [] == Encode(parent);
    assert parent.name == "FilterCollector";
    assert child.name == "SumAggregator: [total_sum]";
    var d := Detach(parent);
    assert d.children == [Detach(child)];
    assert GetTime(d) == parentTime && GetTime(d.children[0]) == childTime;
    RenderChildren(d, formatTime);
    assert RenderAll(d.children, formatTime) == [Render(d.children[0], formatTime)];
  }
}
