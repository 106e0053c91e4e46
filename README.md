# Profiling tree node of the search profiler

This project models `InternalProfileCollector`, the node of the tree of timed
Lucene collectors that a shard builds while it runs a profiled search. A node
is either *live* (it wraps a timing `ProfileCollector` and reports that
wrapper's accumulated time) or *detached* (it was read from the wire and holds
the transmitted time). Both kinds carry a name, a reason tag, a cross-shard
`globalTime` and an ordered list of children.

The model has four parts:

- `CollectorNaming` (`naming.dfy`): how the constructor derives the node's
  name from the wrapped collector's class name, the name of its enclosing
  class, its `toString()` and the reason tag.
- `ProfileTree` (`profile_tree.dfy`): the node as a datatype whose `Mode` is
  `Live(wrapperTime)` or `Detached(time)`, so exactly one of "wrapped
  collector" and "stored time" exists by construction; the live constructor;
  `getTime` and the other accessors; `Detach`, the snapshot a node becomes
  once written and read back, and the relation `SameProfile` ("same name,
  reason, time, globalTime and children at every position").
- `ProfileStream` (`profile_stream.dfy`): `writeTo` and
  `readFrom`/`readProfileCollectorFromStream` over a stream of typed tokens
  (`Str`, `Long`, `VInt`). The pure `Encode`/`DecodeNode` pair specifies them.
  `WriteTo` is an appending method with a loop over the children.
  `ReadProfileCollectorFromStream` is a cursor method with the counted
  children loop of `readFrom`. Both are proved equal to the pure functions.
  The lemmas prove the round trip with exact consumption, the soundness of the
  reader, rejection of truncated input and the pre-order layout.
- `ProfileRendering` (`profile_rendering.dfy`): `toXContent` as a small
  document value; `ProfileScenario` (`profile_scenario.dfy`) puts the parts
  together.

The stream is a sequence of tokens rather than bytes. A missing token, a
token of the wrong kind, or a negative child count makes the read fail for
the whole tree. In the Java code a negative count fails when
`new ArrayList<>(size)` throws. Java's `long` is the subset type `Int64`. A
live wrapper's total is a `Nanos` value, a non-negative `long`.

## Model

| member | source | states |
|---|---|---|
| `CollectorNaming.BaseName` | core/src/main/java/org/elasticsearch/search/profile/InternalProfileCollector.java:109-117 | the base of the name is the simple class name, or the enclosing class's simple name exactly when the simple name is empty |
| `CollectorNaming.DeriveCollectorName` | core/src/main/java/org/elasticsearch/search/profile/InternalProfileCollector.java:109-124 | the derived name starts with the base name; it is longer than the base exactly when the reason is one of the two aggregation tags, and then the rest is `": [" + toString() + "]"` |
| `CollectorNaming.SingleFallback` | core/src/main/java/org/elasticsearch/search/profile/InternalProfileCollector.java:115-117 | the fallback is taken once: with both class names empty the name is empty, or only the aggregation suffix |
| `ProfileTree.NewLive` | core/src/main/java/org/elasticsearch/search/profile/InternalProfileCollector.java:88-93 | the live constructor keeps the reason and the children, names the node from the given reason, wraps a timer, and leaves globalTime at 0 |
| `ProfileTree.GetTime` | core/src/main/java/org/elasticsearch/search/profile/InternalProfileCollector.java:147-155 | getTime is the wrapper's total on a live node and the stored time on a detached one; a live node has no stored time, which is what the Java assertion checks |
| `ProfileTree.GetName` | core/src/main/java/org/elasticsearch/search/profile/InternalProfileCollector.java:161-164 | getName is the node's name, the one derived at construction or read from the stream |
| `ProfileTree.ToString` | core/src/main/java/org/elasticsearch/search/profile/InternalProfileCollector.java:166-169 | toString is getName() |
| `ProfileTree.GetReason` | core/src/main/java/org/elasticsearch/search/profile/InternalProfileCollector.java:139-142 | getReason is the node's reason tag |
| `ProfileTree.GetProfiledChildren` | core/src/main/java/org/elasticsearch/search/profile/InternalProfileCollector.java:157-160 | the children view holds the node's children, the same ones in the same order |
| `ProfileTree.DetachAll` | core/src/main/java/org/elasticsearch/search/profile/InternalProfileCollector.java:196-200 | the detached child list has one snapshot per child, in the same order |
| `ProfileTree.DetachAgrees` | core/src/main/java/org/elasticsearch/search/profile/InternalProfileCollector.java:190-207 | a node's snapshot is detached at every position and has the same name, reason, getTime, globalTime and children count and order as the node |
| `ProfileTree.DetachUnique` | core/src/main/java/org/elasticsearch/search/profile/InternalProfileCollector.java:190-207 | any detached tree that agrees with a node at every position is that node's snapshot |
| `ProfileTree.DetachDetached` | core/src/main/java/org/elasticsearch/search/profile/InternalProfileCollector.java:96-98 | a tree that holds no wrapper anywhere is unchanged by taking its snapshot |
| `ProfileStream.DecodeNode` | core/src/main/java/org/elasticsearch/search/profile/InternalProfileCollector.java:190-207 | a successful read consumes at least one token and stays within the stream, returns a detached node (collector == null), and found a VInt equal to the number of children it read |
| `ProfileStream.DecodeChildren` | core/src/main/java/org/elasticsearch/search/profile/InternalProfileCollector.java:195-200 | the counted loop reads exactly the announced number of children and never moves the cursor backwards |
| `ProfileStream.ChildrenFailurePersists` | core/src/main/java/org/elasticsearch/search/profile/InternalProfileCollector.java:197-200 | once one child fails to read, reading the full count of children fails |
| `ProfileStream.WriteTo` | core/src/main/java/org/elasticsearch/search/profile/InternalProfileCollector.java:210-224 | writeTo appends exactly the node's encoding to what was already written |
| `ProfileStream.ReadProfileCollectorFromStream` | core/src/main/java/org/elasticsearch/search/profile/InternalProfileCollector.java:190-207 | the reading method fails exactly when the decoder does, and otherwise returns the decoded node and the position after it |
| `ProfileStream.HeaderAt` | core/src/main/java/org/elasticsearch/search/profile/InternalProfileCollector.java:210-220 | the five leading tokens are name, reason, getTime, globalTime and the child count, in that order |
| `ProfileStream.DecodeEncode` | core/src/main/java/org/elasticsearch/search/profile/InternalProfileCollector.java:190-224 | wherever a node's encoding sits in a stream, reading there gives the node's detached snapshot and stops right after the encoding |
| `ProfileStream.DecodeEncodeAll` | core/src/main/java/org/elasticsearch/search/profile/InternalProfileCollector.java:195-223 | reading the announced number of children from their concatenated encodings gives their snapshots in order and consumes exactly those encodings |
| `ProfileStream.DecodeEncodeFront` | core/src/main/java/org/elasticsearch/search/profile/InternalProfileCollector.java:190-224 | decoding an encoding followed by any tokens returns the snapshot and leaves the following tokens unread |
| `ProfileStream.DecodeSound` | core/src/main/java/org/elasticsearch/search/profile/InternalProfileCollector.java:190-207 | whatever is read is detached everywhere, and the tokens consumed are exactly its encoding |
| `ProfileStream.DecodeChildrenSound` | core/src/main/java/org/elasticsearch/search/profile/InternalProfileCollector.java:195-200 | the children read are detached, and the tokens consumed are exactly their concatenated encodings |
| `ProfileStream.DecodeExactly` | core/src/main/java/org/elasticsearch/search/profile/InternalProfileCollector.java:190-224 | a read at a position succeeds with a given tree and end position if and only if that tree is detached and the tokens in between are its encoding |
| `ProfileStream.EncodeDetach` | core/src/main/java/org/elasticsearch/search/profile/InternalProfileCollector.java:213-218 | a live node and its snapshot are written identically: only the wrapper's time goes on the wire |
| `ProfileStream.TruncatedEncodingFails` | core/src/main/java/org/elasticsearch/search/profile/InternalProfileCollector.java:190-200 | every strict prefix of an encoding fails to read, so no partial tree is ever returned |
| `ProfileStream.LiveNodeHeader` | core/src/main/java/org/elasticsearch/search/profile/InternalProfileCollector.java:211-219 | a freshly built live node writes its derived name, its reason, the wrapper's time and a globalTime of 0 |
| `ProfileStream.EncodeIsPreorder` | core/src/main/java/org/elasticsearch/search/profile/InternalProfileCollector.java:210-224 | the encoding is the five-token header of every node in pre-order, root first, so it holds five tokens per node |
| `ProfileStream.EncodeAllIsPreorder` | core/src/main/java/org/elasticsearch/search/profile/InternalProfileCollector.java:220-223 | the children's encodings are the headers of their subtrees' nodes in pre-order |
| `ProfileRendering.RenderAll` | core/src/main/java/org/elasticsearch/search/profile/InternalProfileCollector.java:178-184 | the rendered children are one entry per child, in order |
| `ProfileRendering.Render` | core/src/main/java/org/elasticsearch/search/profile/InternalProfileCollector.java:172-187 | the rendered object has name (getName(), through toString()), reason and formatted time, in that order, and a children field if and only if the node has children |
| `ProfileRendering.RenderChildren` | core/src/main/java/org/elasticsearch/search/profile/InternalProfileCollector.java:178-184 | for a node with children, the fourth field is an array with one rendered entry per child, in order |
| `ProfileRendering.RenderDetach` | core/src/main/java/org/elasticsearch/search/profile/InternalProfileCollector.java:172-187 | a live node and its detached snapshot render identically, since rendering sees time only through getTime |
| `ProfileScenario.TransferPreservesProfile` | core/src/main/java/org/elasticsearch/search/profile/InternalProfileCollector.java:190-224 | the tree read back from a written tree is detached, agrees with the original at every position and renders identically |
| `ProfileScenario.FilterOverSumAggregation` | core/src/main/java/org/elasticsearch/search/profile/InternalProfileCollector.java:88-124 | a filter collector over an anonymous class nested in SumAggregator reads back as "FilterCollector" with the child "SumAggregator: [total_sum]", both times kept, and the child rendered inside the parent's children array |

## Left out

- `ProfileCollector`, the timing wrapper, is not part of this model. Its wall-clock timing is a parameter: the live node carries the wrapper's total at the moment it is read.
- `getLeafCollector` and `needsScores` (lines 127-134) only forward into Lucene and are not modelled.
- Java reflection (`getSimpleName`, `getEnclosingClass`) and the wrapped collector's `toString()` are replaced by three strings passed to name derivation. A class with an empty simple name and no enclosing class would throw a NullPointerException in Java; the model has no such case.
- `CollectorResult` is not part of this model. The two aggregation reason tags are constants here, with the values `"aggregation"` and `"aggregation_global"`; no proof depends on those values except the worked example.
- The byte layout of `StreamInput`/`StreamOutput` is not modelled: no string encoding and no VInt bit packing. Tokens carry their kind, so a field of the wrong kind is a read failure here, whereas raw bytes would just be misread.
- `ProfileStream.DecodeNode`: the VInt child count is an unbounded integer. Java limits it to 32 bits, and a list never holds more than `Integer.MAX_VALUE` children.
- `ProfileStream.ReadProfileCollectorFromStream` merges the no-argument constructor with `readFrom` and builds the node value in one step. The half-initialised object between the two calls is not modelled. Neither is calling `readFrom` on a live object, which would leave the collector set alongside a stored time.
- `ProfileTree.NewLive` and `ProfileTree.GetProfiledChildren` hold the children as a value. Java stores the caller's list by reference and hands out a read-only view of that same list. Nothing in this class changes the list after construction, so no behaviour of the class is lost. Aliasing with the caller's list is not modelled: a caller that changed its list later would change the Java node's children.
- Null fields (a detached object whose `readFrom` was never called, a null name or reason) are not modelled; the datatype has no nulls.
- The `%.10gms` formatting of the time (line 176) is floating point with a fixed locale. It is a function parameter of `Render`, applied to `getTime()`.
- `XContentBuilder` is replaced by the `Doc` value that the builder calls would produce.
- Cross-shard summing of `globalTime` happens outside this class and is not modelled. This file never assigns `globalTime` except in `readFrom`.
