/**
 * The wire form of a profiling tree (writeTo / readFrom /
 * readProfileCollectorFromStream).
 *
 * The byte stream is abstracted to a sequence of typed tokens: a string, a
 * fixed-width long, or a variable-length int. A node is written pre-order as
 * name, reason, time, globalTime, child count, then each child in order; no
 * length prefix frames a subtree, so the reader must consume exactly the
 * announced number of children.
 */
module ProfileStream {
  import opened Wrappers
  import opened CollectorNaming
  import opened ProfileTree

  datatype Token =
    | Str(s: string)   // writeString / readString
    | Long(v: Int64)   // writeLong / readLong
    | VInt(n: int)     // writeVInt / readVInt

  /** The five tokens a node writes before its children. The time is read
      from the live wrapper when there is one, from the stored time otherwise. */
  function Header(n: Node): seq<Token> {
    [Str(n.name), Str(n.reason), Long(GetTime(n)), Long(n.globalTime), VInt(|n.children|)]
  }

  /** The tokens writeTo appends for a node. */
  function Encode(n: Node): seq<Token>
    decreases n, 1
  {
    Header(n) + EncodeAll(n.children)
  }

  /** The children's encodings, one after the other, in list order. */
  function EncodeAll(cs: seq<Node>): seq<Token>
    decreases cs, 0
  {
    if cs == [] then [] else EncodeAll(cs[..|cs| - 1]) + Encode(cs[|cs| - 1])
  }

  /** readProfileCollectorFromStream: a fresh detached node read from s at
      position pos, with the position just after it. Fails on a missing or
      mistyped field and on a negative child count (the ArrayList of that
      capacity cannot be made); a failing child fails the whole tree. */
  function DecodeNode(s: seq<Token>, pos: nat): (r: Option<(Node, nat)>)
    requires pos <= |s|
    ensures r.Some? ==> pos < r.value.1 <= |s|
    ensures r.Some? ==> pos + 5 <= |s| && s[pos + 4] == VInt(|r.value.0.children|)
    ensures r.Some? ==> r.value.0.mode.Detached?
    decreases |s| - pos, 0
  {
    if pos + 5 > |s| || !s[pos].Str? || !s[pos + 1].Str? || !s[pos + 2].Long? || !s[pos + 3].Long?
      || !s[pos + 4].VInt? || s[pos + 4].n < 0
    then None
    else
      match DecodeChildren(s, pos + 5, s[pos + 4].n)
      case None => None
      case Some((cs, end)) =>
        Some((Node(s[pos].s, s[pos + 1].s, Detached(s[pos + 2].v), s[pos + 3].v, cs), end))
  }

  /** The counted loop of readFrom: k children read one after the other. */
  function DecodeChildren(s: seq<Token>, pos: nat, k: nat): (r: Option<(seq<Node>, nat)>)
    requires pos <= |s|
    ensures r.Some? ==> |r.value.0| == k && pos <= r.value.1 <= |s|
    decreases |s| - pos, 1, k
  {
    if k == 0 then Some(([], pos))
    else
      match DecodeChildren(s, pos, k - 1)
      case None => None
      case Some((cs, mid)) =>
        match DecodeNode(s, mid)
        case None => None
        case Some((c, end)) => Some((cs + [c], end))
  }

  /** Once the counted loop has failed it stays failed. */
  lemma {:induction false} ChildrenFailurePersists(s: seq<Token>, pos: nat, i: nat, k: nat)
    requires pos <= |s| && i <= k && DecodeChildren(s, pos, i).None?
    ensures DecodeChildren(s, pos, k).None?
    decreases k
  {
    if i < k {
      ChildrenFailurePersists(s, pos, i, k - 1);
    }
  }

  // ---------------------------------------------------------------------
  // The imperative writer and reader
  // ---------------------------------------------------------------------

  /** writeTo: appends the node's fields, then each child, to the stream. */
  method WriteTo(n: Node, out: seq<Token>) returns (written: seq<Token>)
    ensures written == out + Encode(n)
    decreases n
  {
    written := out + [Str(n.name), Str(n.reason)];
    match n.mode {
      case Live(t) => written := written + [Long(t)];
      case Detached(t) => written := written + [Long(t)];
    }
    written := written + [Long(n.globalTime), VInt(|n.children|)];
    for i := 0 to |n.children|
      invariant written == out + Header(n) + EncodeAll(n.children[..i])
    {
      assert n.children[..i + 1][..i] == n.children[..i];
      written := WriteTo(n.children[i], written);
    }
    assert n.children[..|n.children|] == n.children;
  }

  /** readProfileCollectorFromStream followed by readFrom: reads one node
      starting at position pos; on success, next is the position just after it. */
  method ReadProfileCollectorFromStream(s: seq<Token>, pos: nat) returns (r: Option<Node>, next: nat)
    requires pos <= |s|
    ensures DecodeNode(s, pos) == if r.Some? then Some((r.value, next)) else None
    decreases |s| - pos
  {
    if pos + 5 > |s| || !s[pos].Str? || !s[pos + 1].Str? || !s[pos + 2].Long? || !s[pos + 3].Long?
      || !s[pos + 4].VInt? || s[pos + 4].n < 0
    {
      return None, pos;
    }
    var name := s[pos].s;
    var reason := s[pos + 1].s;
    var time := s[pos + 2].v;
    var globalTime := s[pos + 3].v;
    var size := s[pos + 4].n;
    var children: seq<Node> := [];
    next := pos + 5;
    for i := 0 to size
      invariant pos + 5 <= next <= |s|
      invariant DecodeChildren(s, pos + 5, i) == Some((children, next))
    {
      var child, after := ReadProfileCollectorFromStream(s, next);
      if child.None? {
        ChildrenFailurePersists(s, pos + 5, i + 1, size);
        return None, pos;
      }
      children := children + [child.value];
      next := after;
    }
    r := Some(Node(name, reason, Detached(time), globalTime, children));
  }

  // ---------------------------------------------------------------------
  // Properties of the encoding
  // ---------------------------------------------------------------------

  /** Round trip with exact consumption: wherever a node's encoding sits in
      a stream, reading there yields its detached snapshot and stops right
      after the encoding, leaving what follows unread. */
  lemma {:induction false} DecodeEncode(n: Node, s: seq<Token>, pos: nat)
    requires pos + |Encode(n)| <= |s| && s[pos..pos + |Encode(n)|] == Encode(n)
    ensures DecodeNode(s, pos) == Some((Detach(n), pos + |Encode(n)|))
    decreases n, 1
  {
    var e := Encode(n);
    var end := pos + |e|;
    assert e == Header(n) + EncodeAll(n.children);
    assert s[pos..pos + 5] == Header(n) by {
      assert s[pos..pos + 5] == s[pos..end][..5];
    }
    assert s[pos + 5..end] == EncodeAll(n.children) by {
      assert s[pos + 5..end] == s[pos..end][5..];
    }
    HeaderAt(n, s, pos);
    DecodeEncodeAll(n.children, s, pos + 5);
  }

  /** The five header reads succeed on a node's header. */
  lemma HeaderAt(n: Node, s: seq<Token>, pos: nat)
    requires pos + 5 <= |s| && s[pos..pos + 5] == Header(n)
    ensures s[pos] == Str(n.name) && s[pos + 1] == Str(n.reason) && s[pos + 2] == Long(GetTime(n))
    ensures s[pos + 3] == Long(n.globalTime) && s[pos + 4] == VInt(|n.children|)
  {
  }

  lemma {:induction false} DecodeEncodeAll(cs: seq<Node>, s: seq<Token>, pos: nat)
    requires pos + |EncodeAll(cs)| <= |s| && s[pos..pos + |EncodeAll(cs)|] == EncodeAll(cs)
    ensures DecodeChildren(s, pos, |cs|) == Some((DetachAll(cs), pos + |EncodeAll(cs)|))
    decreases cs, 0
  {
    if cs != [] {
      var init, last := cs[..|cs| - 1], cs[|cs| - 1];
      var mid := pos + |EncodeAll(init)|;
      var end := pos + |EncodeAll(cs)|;
      assert EncodeAll(cs) == EncodeAll(init) + Encode(last);
      assert s[pos..mid] == s[pos..end][..|EncodeAll(init)|];
      assert s[mid..end] == s[pos..end][|EncodeAll(init)|..];
      DecodeEncodeAll(init, s, pos);
      DecodeEncode(last, s, mid);
    }
  }

  /** Reading from the front of a stream that starts with an encoding. */
  lemma DecodeEncodeFront(n: Node, rest: seq<Token>)
    ensures DecodeNode(Encode(n) + rest, 0) == Some((Detach(n), |Encode(n)|))
  {
    var s := Encode(n) + rest;
    assert s[0..|Encode(n)|] == Encode(n);
    DecodeEncode(n, s, 0);
  }

  /** Soundness: whatever is read is detached, and the tokens consumed are
      exactly its encoding. */
  lemma {:induction false} DecodeSound(s: seq<Token>, pos: nat, d: Node, end: nat)
    requires pos <= |s| && DecodeNode(s, pos) == Some((d, end))
    ensures AllDetached(d) && s[pos..end] == Encode(d)
    decreases |s| - pos, 0
  {
    assert DecodeChildren(s, pos + 5, s[pos + 4].n) == Some((d.children, end));
    DecodeChildrenSound(s, pos + 5, s[pos + 4].n, d.children, end);
    assert Header(d) == s[pos..pos + 5];
    assert s[pos..end] == s[pos..pos + 5] + s[pos + 5..end];
  }

  lemma {:induction false} DecodeChildrenSound(s: seq<Token>, pos: nat, k: nat, cs: seq<Node>, end: nat)
    requires pos <= |s| && DecodeChildren(s, pos, k) == Some((cs, end))
    ensures forall i :: 0 <= i < |cs| ==> AllDetached(cs[i])
    ensures s[pos..end] == EncodeAll(cs)
    decreases |s| - pos, 1, k
  {
    if k > 0 {
      var (init, mid) := DecodeChildren(s, pos, k - 1).value;
      DecodeChildrenSound(s, pos, k - 1, init, mid);
      var (c, end') := DecodeNode(s, mid).value;
      DecodeSound(s, mid, c, end');
      assert cs == init + [c] && end' == end;
      assert cs[..|cs| - 1] == init;
      assert s[pos..end] == s[pos..mid] + s[mid..end];
    }
  }

  /** The reader accepts exactly the encodings of detached trees. */
  lemma DecodeExactly(s: seq<Token>, pos: nat, d: Node, end: nat)
    requires pos <= |s|
    ensures DecodeNode(s, pos) == Some((d, end))
        <==> pos <= end <= |s| && AllDetached(d) && s[pos..end] == Encode(d)
  {
    if DecodeNode(s, pos) == Some((d, end)) {
      DecodeSound(s, pos, d, end);
    }
    if pos <= end <= |s| && AllDetached(d) && s[pos..end] == Encode(d) {
      DecodeEncode(d, s, pos);
      DetachDetached(d);
    }
  }

  /** Writing ignores the live wrapper beyond its time: a node and its
      snapshot are written identically. */
  lemma EncodeDetach(n: Node)
    ensures Encode(Detach(n)) == Encode(n)
  {
    DecodeEncodeFront(n, []);
    assert Encode(n) + [] == Encode(n);
    DecodeSound(Encode(n), 0, Detach(n), |Encode(n)|);
  }

  /** A truncated encoding is rejected as a whole: no partial tree is read. */
  lemma TruncatedEncodingFails(n: Node, k: nat)
    requires k < |Encode(n)|
    ensures DecodeNode(Encode(n)[..k], 0).None?
  {
    var e := Encode(n);
    var p := e[..k];
    if DecodeNode(p, 0).Some? {
      var (d, end) := DecodeNode(p, 0).value;
      DecodeSound(p, 0, d, end);
      assert e[0..end] == p[0..end];
      assert e[0..|e|] == e;
      DecodeEncode(d, e, 0);
      DecodeEncode(n, e, 0);
      assert false;
    }
  }

  /** A live node's globalTime is never assigned, so it is written as 0; its
      time is the wrapper's total at the moment of writing. */
  lemma LiveNodeHeader(c: Target, reason: string, children: seq<Node>, elapsed: Nanos)
    ensures Encode(NewLive(c, reason, children, elapsed))[..5]
      == [Str(DeriveCollectorName(c, reason)), Str(reason), Long(elapsed), Long(0), VInt(|children|)]
  {
  }

  // ---------------------------------------------------------------------
  // The encoding is a pre-order walk writing five tokens per node
  // ---------------------------------------------------------------------

  /** The nodes of the tree in pre-order: a node, then each child's subtree in order. */
  function Preorder(n: Node): seq<Node>
    decreases n, 1
  {
    [n] + PreorderAll(n.children)
  }

  function PreorderAll(cs: seq<Node>): seq<Node>
    decreases cs, 0
  {
    if cs == [] then [] else PreorderAll(cs[..|cs| - 1]) + Preorder(cs[|cs| - 1])
  }

  /** The headers of a list of nodes, one after the other. */
  function Headers(ns: seq<Node>): seq<Token> {
    if ns == [] then [] else Header(ns[0]) + Headers(ns[1..])
  }

  lemma {:induction false} HeadersAppend(a: seq<Node>, b: seq<Node>)
    ensures Headers(a + b) == Headers(a) + Headers(b)
  {
    if a == [] {
      assert a + b == b;
    } else {
      assert (a + b)[1..] == a[1..] + b;
      HeadersAppend(a[1..], b);
    }
  }

  /** Encode writes each node's header in pre-order and nothing else. */
  lemma {:induction false} EncodeIsPreorder(n: Node)
    ensures Encode(n) == Headers(Preorder(n))
    ensures |Encode(n)| == 5 * |Preorder(n)| && Preorder(n)[0] == n
    decreases n, 1
  {
    EncodeAllIsPreorder(n.children);
    HeadersAppend([n], PreorderAll(n.children));
    assert Headers([n]) == Header(n);
    HeadersLength(Preorder(n));
  }

  lemma {:induction false} EncodeAllIsPreorder(cs: seq<Node>)
    ensures EncodeAll(cs) == Headers(PreorderAll(cs))
    decreases cs, 0
  {
    if cs != [] {
      EncodeAllIsPreorder(cs[..|cs| - 1]);
      EncodeIsPreorder(cs[|cs| - 1]);
      HeadersAppend(PreorderAll(cs[..|cs| - 1]), Preorder(cs[|cs| - 1]));
    }
  }

  lemma {:induction false} HeadersLength(ns: seq<Node>)
    ensures |Headers(ns)| == 5 * |ns|
  {
    if ns != [] {
      HeadersLength(ns[1..]);
    }
  }
}
