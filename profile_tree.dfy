/**
 * The profiling tree node (InternalProfileCollector) as a value.
 *
 * The Java class holds either a wrapped ProfileCollector (live mode, built by
 * the three-argument constructor) or a stored time (detached mode, built by
 * deserialisation). The two modes are the two variants of Mode, so "exactly
 * one of collector/time is set" holds by construction.
 */
module ProfileTree {
  import opened CollectorNaming

  /** Java's long. */
  type Int64 = x: int | -0x8000_0000_0000_0000 <= x <= 0x7FFF_FFFF_FFFF_FFFF
  /** A time accumulated by the live wrapper: a non-negative long of nanoseconds. */
  type Nanos = x: int | 0 <= x <= 0x7FFF_FFFF_FFFF_FFFF

  datatype Mode =
    | Live(wrapperTime: Nanos)  // collector != null; its current accumulated total
    | Detached(time: Int64)     // collector == null; the time read from the stream

  datatype Node = Node(
    name: string,       // collectorName
    reason: string,
    mode: Mode,
    globalTime: Int64,
    children: seq<Node>
  )

  /** The three-argument constructor. The reason is stored before the name is
      derived, so derivation sees the given reason; globalTime is never
      assigned and keeps Java's default 0. The wrapper's timing is driven by
      the search, outside this model, so its total is a parameter. */
  function NewLive(c: Target, reason: string, children: seq<Node>, elapsed: Nanos): (n: Node)
    ensures n.mode == Live(elapsed) && n.globalTime == 0
    ensures n.name == DeriveCollectorName(c, reason) && n.reason == reason && n.children == children
  {
    Node(DeriveCollectorName(c, reason), reason, Live(elapsed), 0, children)
  }

  /** getTime: the live wrapper's total, or the stored time of a detached node. */
  function GetTime(n: Node): (t: Int64)
    ensures n.mode.Live? ==> t == n.mode.wrapperTime
    ensures n.mode.Detached? ==> t == n.mode.time
  {
    match n.mode
    case Live(t) => t
    case Detached(t) => t
  }

  /** getName: the name derived at construction or read from the stream. */
  function GetName(n: Node): (s: string)
    ensures s == n.name
  {
    n.name
  }

  /** toString returns getName(). */
  function ToString(n: Node): (s: string)
    ensures s == GetName(n)
  {
    GetName(n)
  }

  function GetReason(n: Node): (s: string)
    ensures s == n.reason
  {
    n.reason
  }

  /** The read-only view of the children: the same nodes, in order. */
  function GetProfiledChildren(n: Node): (cs: seq<Node>)
    ensures cs == n.children
  {
    n.children
  }

  /** Every node of the tree is in detached mode. */
  predicate AllDetached(n: Node)
    decreases n
  {
    n.mode.Detached? && forall i :: 0 <= i < |n.children| ==> AllDetached(n.children[i])
  }

  /** The two trees report the same name, reason, time and globalTime, and
      have the same number of children, pairwise alike in order, at every
      position. */
  predicate SameProfile(a: Node, b: Node)
    decreases a
  {
    GetName(a) == GetName(b) && GetReason(a) == GetReason(b) && GetTime(a) == GetTime(b)
    && a.globalTime == b.globalTime && |GetProfiledChildren(a)| == |GetProfiledChildren(b)|
    && forall i :: 0 <= i < |a.children| ==> SameProfile(a.children[i], b.children[i])
  }

  /** The snapshot a node becomes once sent over the wire: every wrapper is
      dropped and its time kept. */
  function Detach(n: Node): Node
    decreases n, 1
  {
    Node(n.name, n.reason, Detached(GetTime(n)), n.globalTime, DetachAll(n.children))
  }

  function DetachAll(cs: seq<Node>): (r: seq<Node>)
    ensures |r| == |cs| && forall i :: 0 <= i < |cs| ==> r[i] == Detach(cs[i])
    decreases cs, 0
  {
    if cs == [] then [] else DetachAll(cs[..|cs| - 1]) + [Detach(cs[|cs| - 1])]
  }

  /** The snapshot is detached everywhere and agrees with the original. */
  lemma {:induction false} DetachAgrees(n: Node)
    ensures AllDetached(Detach(n)) && SameProfile(n, Detach(n))
    decreases n
  {
    forall i | 0 <= i < |n.children|
      ensures AllDetached(Detach(n).children[i]) && SameProfile(n.children[i], Detach(n).children[i])
    {
      DetachAgrees(n.children[i]);
    }
  }

  /** ... and it is the only detached tree that does. */
  lemma {:induction false} DetachUnique(n: Node, d: Node)
    requires AllDetached(d) && SameProfile(n, d)
    ensures d == Detach(n)
    decreases n
  {
    forall i | 0 <= i < |n.children|
      ensures d.children[i] == Detach(n.children[i])
    {
      DetachUnique(n.children[i], d.children[i]);
    }
    assert d.children == DetachAll(n.children);
  }

  /** A detached tree is its own snapshot. */
  lemma {:induction false} DetachDetached(d: Node)
    requires AllDetached(d)
    ensures Detach(d) == d
    decreases d
  {
    forall i | 0 <= i < |d.children|
      ensures Detach(d.children[i]) == d.children[i]
    {
      DetachDetached(d.children[i]);
    }
    assert DetachAll(d.children) == d.children;
  }
}
