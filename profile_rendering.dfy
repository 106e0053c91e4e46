/**
 * The structured rendering of a profiling node (toXContent), as a small
 * document value: an object with name, reason and time, and a children
 * array only when the node has children.
 *
 * The ten-significant-digit millisecond formatting is floating point with a
 * fixed locale; it is a parameter here, applied to getTime().
 */
module ProfileRendering {
  import opened ProfileTree

  datatype Doc =
    | Text(text: string)
    | Arr(items: seq<Doc>)
    | Obj(fields: seq<(string, Doc)>)

  /** The field names of an object, in order. */
  function Keys(d: Doc): seq<string>
    requires d.Obj?
  {
    seq(|d.fields|, i requires 0 <= i < |d.fields| => d.fields[i].0)
  }

  /** toXContent: an object with name (getName(), through toString()), reason
      and formatted time, in that order, followed by a children array exactly
      when the node has children; the array's contents are stated by
      RenderChildren. */
  function Render(n: Node, formatTime: Int64 -> string): (d: Doc)
    ensures d.Obj?
    ensures Keys(d) == ["name", "reason", "time"] + (if |n.children| == 0 then [] else ["children"])
    ensures d.fields[0].1 == Text(GetName(n))
    ensures d.fields[1].1 == Text(GetReason(n))
    ensures d.fields[2].1 == Text(formatTime(GetTime(n)))
    decreases n, 1
  {
    var head := [("name", Text(ToString(n))), ("reason", Text(n.reason)), ("time", Text(formatTime(GetTime(n))))];
    if |n.children| == 0 then Obj(head)
    else Obj(head + [("children", Arr(RenderAll(n.children, formatTime)))])
  }

  function RenderAll(cs: seq<Node>, formatTime: Int64 -> string): (r: seq<Doc>)
    ensures |r| == |cs| && forall i :: 0 <= i < |cs| ==> r[i] == Render(cs[i], formatTime)
    decreases cs, 0
  {
    if cs == [] then [] else RenderAll(cs[..|cs| - 1], formatTime) + [Render(cs[|cs| - 1], formatTime)]
  }

  /** The children array holds one rendered entry per child, in order. */
  lemma RenderChildren(n: Node, formatTime: Int64 -> string)
    requires |n.children| > 0
    ensures |Render(n, formatTime).fields| == 4
    ensures Render(n, formatTime).fields[3].1 == Arr(RenderAll(n.children, formatTime))
    ensures |RenderAll(n.children, formatTime)| == |n.children|
    ensures forall i :: 0 <= i < |n.children| ==>
      RenderAll(n.children, formatTime)[i] == Render(n.children[i], formatTime)
  {
  }

  /** Rendering depends only on what getTime() abstracts: a live node and its
      detached snapshot render identically. */
  lemma {:induction false} RenderDetach(n: Node, formatTime: Int64 -> string)
    ensures Render(Detach(n), formatTime) == Render(n, formatTime)
    decreases n
  {
    forall i | 0 <= i < |n.children|
      ensures Render(Detach(n).children[i], formatTime) == Render(n.children[i], formatTime)
    {
      RenderDetach(n.children[i], formatTime);
    }
    assert RenderAll(Detach(n).children, formatTime) == RenderAll(n.children, formatTime);
  }
}
