/**
 * How a live profiling node derives its human-readable name from the wrapped
 * collector (InternalProfileCollector.deriveCollectorName).
 *
 * Java reflection is not available here: the wrapped collector is described by
 * the three strings the derivation looks at.
 */
module CollectorNaming {

  /** The reason tags that ask for the aggregation suffix (defined in CollectorResult). */
  const ReasonAggregation: string := "aggregation"
  const ReasonAggregationGlobal: string := "aggregation_global"

  /** What name derivation can observe of a wrapped Lucene collector. */
  datatype Target = Target(
    simpleName: string,          // c.getClass().getSimpleName()
    enclosingSimpleName: string, // c.getClass().getEnclosingClass().getSimpleName()
    display: string              // c.toString()
  )

  predicate IsAggregationReason(reason: string) {
    reason == ReasonAggregation || reason == ReasonAggregationGlobal
  }

  /** The class name the derived name starts with: the simple name, or the
      enclosing class's simple name when the class is anonymous. */
  function BaseName(c: Target): (s: string)
    ensures c.simpleName != "" ==> s == c.simpleName
    ensures c.simpleName == "" ==> s == c.enclosingSimpleName
  {
    if c.simpleName == "" then c.enclosingSimpleName else c.simpleName
  }

  /** The derived name: the base name, followed by ": [<toString>]" exactly
      when the reason is one of the two aggregation tags. */
  function DeriveCollectorName(c: Target, reason: string): (name: string)
    ensures |BaseName(c)| <= |name| && name[..|BaseName(c)|] == BaseName(c)
    ensures IsAggregationReason(reason) <==> |name| > |BaseName(c)|
    ensures IsAggregationReason(reason) ==> name[|BaseName(c)|..] == ": [" + c.display + "]"
  {
    var s := BaseName(c);
    if IsAggregationReason(reason) then s + ": [" + c.display + "]" else s
  }

  /** Only one fallback step is taken: an anonymous class nested in another
      anonymous class yields an empty base name. */
  lemma SingleFallback(c: Target, reason: string)
    requires c.simpleName == "" && c.enclosingSimpleName == ""
    ensures !IsAggregationReason(reason) ==> DeriveCollectorName(c, reason) == ""
    ensures IsAggregationReason(reason) ==> DeriveCollectorName(c, reason) == ": [" + c.display + "]"
  {
  }
}
