/**
 Business keys of graph edges: how a firing edge is printed as an `edge_id` and how Credibility
 parses the id back into the keys of the edge that must be credited.
 */
module EdgeIds {
  import opened Wrappers

  datatype Condition =
    TransportAffected | SafeHavenOnly | RiskPremiumElevated | UpstreamUp | UpstreamDown

  function ConditionName(c: Condition): string {
    match c
    case TransportAffected => "TRANSPORT_AFFECTED"
    case SafeHavenOnly => "SAFE_HAVEN_ONLY"
    case RiskPremiumElevated => "RISK_PREMIUM_ELEVATED"
    case UpstreamUp => "UPSTREAM_UP"
    case UpstreamDown => "UPSTREAM_DOWN"
  }

  /** The condition with the given name, if there is one. */
  function ConditionOf(name: string): Option<Condition> {
    if name == "TRANSPORT_AFFECTED" then Some(TransportAffected)
    else if name == "SAFE_HAVEN_ONLY" then Some(SafeHavenOnly)
    else if name == "RISK_PREMIUM_ELEVATED" then Some(RiskPremiumElevated)
    else if name == "UPSTREAM_UP" then Some(UpstreamUp)
    else if name == "UPSTREAM_DOWN" then Some(UpstreamDown)
    else None
  }

  predicate IsUpstream(c: Condition) {
    c == UpstreamUp || c == UpstreamDown
  }

  /** The names the reference data knows: event types, assets and industry groups. */
  datatype Registry = Registry(factors: set<string>, assets: set<string>, groups: set<string>)

  /** No separator can be read inside the name. */
  ghost predicate PlainName(s: string) {
    && s != ""
    && '|' !in s
    && ArrowFree(s)
  }

  ghost predicate ArrowFree(s: string) {
    forall i :: 0 <= i && i + 1 < |s| ==> !(s[i] == '-' && s[i + 1] == '>')
  }

  ghost predicate PlainRegistry(reg: Registry) {
    && (forall n :: n in reg.factors + reg.assets + reg.groups ==> PlainName(n))
    && reg.assets !! reg.groups
  }

  /** The parts of a firing edge that identify it. A propagated edge has no factor, but a source. */
  datatype FiringEdge = FiringEdge(
    factor: Option<string>, asset: string, condition: Option<Condition>,
    inheritedFrom: Option<string>, source: Option<string>)

  datatype CorrelationEdge = CorrelationEdge(source: string, condition: Condition, target: string)

  // An empty group name counts as absent.
  function TargetName(e: FiringEdge): string {
    if e.inheritedFrom.Some? && e.inheritedFrom.value != "" then e.inheritedFrom.value else e.asset
  }

  function Prefix(e: FiringEdge): string {
    if e.factor.None? && e.source.Some? then e.source.value
    else if e.factor.Some? then e.factor.value
    else "CORRELATION"
  }

  function Print(prefix: string, condition: Option<Condition>, target: string): string {
    if condition.None? then prefix + "->" + target
    else prefix + "|" + ConditionName(condition.value) + "->" + target
  }

  function EdgeId(e: FiringEdge): string {
    Print(Prefix(e), e.condition, TargetName(e))
  }

  function CorrelationEdgeId(e: CorrelationEdge): string {
    e.source + "|" + ConditionName(e.condition) + "->" + e.target
  }

  /** `s.partition(sep)`: the text before the first occurrence, whether there is one, the rest. */
  function Partition(s: string, sep: string): (r: (string, bool, string))
    requires sep != ""
    ensures r.1 ==> s == r.0 + sep + r.2
    ensures !r.1 ==> r.0 == s && r.2 == ""
  {
    if sep <= s then ("", true, s[|sep|..])
    else if s == "" then ("", false, "")
    else
      var rest := Partition(s[1..], sep);
      assert s == [s[0]] + s[1..];
      assert [s[0]] + (rest.0 + sep + rest.2) == [s[0]] + rest.0 + sep + rest.2;
      ([s[0]] + rest.0, rest.1, rest.2)
  }

  datatype Target = Asset(name: string) | Group(name: string)

  datatype ParseError = Malformed | UnknownFactorOrCondition | UnknownTarget | UnknownCorrelatedAsset

  datatype EdgeKey = EdgeKey(factor: string, condition: Option<Condition>, target: Target)

  function ParseEdgeId(reg: Registry, id: string): (r: Result<EdgeKey, ParseError>) {
    var (left, sep, target) := Partition(id, "->");
    if !sep || left == "" || target == "" then Failure(Malformed)
    else
      var (factor, condSep, conditionName) := Partition(left, "|");
      var condition := ConditionOf(conditionName);
      if factor !in reg.factors || (condSep && condition.None?) then Failure(UnknownFactorOrCondition)
      else
        var c := if condSep then condition else None;
        if target in reg.assets then Success(EdgeKey(factor, c, Asset(target)))
        else if target in reg.groups then Success(EdgeKey(factor, c, Group(target)))
        else Failure(UnknownTarget)
  }

  /** `Success(None)` when the id is not a correlation edge id at all. */
  function ParseCorrelationEdgeId(reg: Registry, id: string)
    : (r: Result<Option<CorrelationEdge>, ParseError>)
  {
    var (left, sep, target) := Partition(id, "->");
    if !sep then Success(None)
    else
      var (source, condSep, conditionName) := Partition(left, "|");
      if !condSep || (conditionName != "UPSTREAM_UP" && conditionName != "UPSTREAM_DOWN") then
        Success(None)
      else if source !in reg.assets || target !in reg.assets then Failure(UnknownCorrelatedAsset)
      else
        Success(Some(CorrelationEdge(
          source, if conditionName == "UPSTREAM_UP" then UpstreamUp else UpstreamDown, target)))
  }

  // ---- Partitioning printed text ----

  lemma {:induction false} PartitionAtArrow(a: string, b: string)
    requires ArrowFree(a)
    ensures Partition(a + "->" + b, "->") == (a, true, b)
  {
    var s := a + "->" + b;
    if a == "" {
      assert s == "->" + b;
      assert s[|"->"|..] == b;
    } else {
      assert s[0] == a[0];
      assert s[1] == if |a| > 1 then a[1] else '-';
      assert !("->" <= s);
      assert s[1..] == a[1..] + "->" + b;
      forall i | 0 <= i && i + 1 < |a[1..]|
        ensures !(a[1..][i] == '-' && a[1..][i + 1] == '>')
      {
        assert a[1..][i] == a[i + 1] && a[1..][i + 1] == a[i + 1 + 1];
      }
      PartitionAtArrow(a[1..], b);
      assert a == [a[0]] + a[1..];
    }
  }

  lemma {:induction false} PartitionAtBar(a: string, b: string)
    requires '|' !in a
    ensures Partition(a + "|" + b, "|") == (a, true, b)
  {
    var s := a + "|" + b;
    if a == "" {
      assert s[|"|"|..] == b;
    } else {
      assert s[0] == a[0] && a[0] in a;
      assert !("|" <= s);
      assert s[1..] == a[1..] + "|" + b;
      PartitionAtBar(a[1..], b);
      assert a == [a[0]] + a[1..];
    }
  }

  lemma {:induction false} PartitionWithoutBar(a: string)
    requires '|' !in a
    ensures Partition(a, "|") == (a, false, "")
  {
    if a != "" {
      assert a[0] in a;
      assert !("|" <= a);
      PartitionWithoutBar(a[1..]);
      assert a == [a[0]] + a[1..];
    }
  }

  lemma ConditionNamesRoundTrip(c: Condition)
    ensures ConditionOf(ConditionName(c)) == Some(c)
  {
  }

  lemma ConditionNamesHaveNoArrowHead(c: Condition)
    ensures '>' !in ConditionName(c)
  {
  }

  lemma PrefixedConditionIsArrowFree(prefix: string, c: Condition)
    requires ArrowFree(prefix)
    ensures ArrowFree(prefix + "|" + ConditionName(c))
  {
    ConditionNamesHaveNoArrowHead(c);
    var name := ConditionName(c);
    var s := prefix + "|" + name;
    forall i | 0 <= i && i + 1 < |s|
      ensures !(s[i] == '-' && s[i + 1] == '>')
    {
      if i + 1 < |prefix| {
        assert s[i] == prefix[i] && s[i + 1] == prefix[i + 1];
      } else if i + 1 > |prefix| {
        assert s[i + 1] == name[i - |prefix|] != '>';
      }
    }
  }

  /** Splitting a printed id gives back exactly the text on the two sides of the arrow. */
  lemma PrintedIdSplits(prefix: string, condition: Option<Condition>, target: string)
    requires PlainName(prefix)
    ensures var left := if condition.None? then prefix else prefix + "|" + ConditionName(condition.value);
            && Partition(Print(prefix, condition, target), "->") == (left, true, target)
            && Partition(left, "|") ==
               if condition.None? then (prefix, false, "")
               else (prefix, true, ConditionName(condition.value))
  {
    match condition
    case None =>
      PartitionAtArrow(prefix, target);
      PartitionWithoutBar(prefix);
    case Some(c) =>
      PrefixedConditionIsArrowFree(prefix, c);
      PartitionAtArrow(prefix + "|" + ConditionName(c), target);
      PartitionAtBar(prefix, ConditionName(c));
  }

  // ---- Round trips ----

  ghost predicate CausalEdge(reg: Registry, e: FiringEdge) {
    && e.factor.Some? && e.factor.value in reg.factors
    && e.asset in reg.assets
    && (e.inheritedFrom.Some? ==> e.inheritedFrom.value in reg.groups)
  }

  ghost predicate PropagatedEdge(reg: Registry, e: FiringEdge) {
    && e.factor.None? && e.inheritedFrom.None?
    && e.source.Some? && e.source.value in reg.assets
    && e.condition.Some? && IsUpstream(e.condition.value)
    && e.asset in reg.assets
  }

  function KeyOf(e: FiringEdge): EdgeKey
    requires e.factor.Some?
  {
    EdgeKey(e.factor.value, e.condition,
            if e.inheritedFrom.Some? then Group(e.inheritedFrom.value) else Asset(e.asset))
  }

  /** Direct, conditioned and group-inherited edges parse back to their own factor, condition and target. */
  lemma CausalEdgeRoundTrip(reg: Registry, e: FiringEdge)
    requires PlainRegistry(reg) && CausalEdge(reg, e)
    ensures ParseEdgeId(reg, EdgeId(e)) == Success(KeyOf(e))
  {
    assert e.factor.value in reg.factors + reg.assets + reg.groups;
    if e.inheritedFrom.Some? {
      assert e.inheritedFrom.value in reg.factors + reg.assets + reg.groups;
    }
    assert PlainName(e.asset) by { assert e.asset in reg.factors + reg.assets + reg.groups; }
    PrintedIdSplits(Prefix(e), e.condition, TargetName(e));
    if e.condition.Some? {
      ConditionNamesRoundTrip(e.condition.value);
    }
  }

  /** A propagated edge prints the id of its correlation edge, and that id parses back to it. */
  lemma PropagatedEdgeRoundTrip(reg: Registry, e: FiringEdge)
    requires PlainRegistry(reg) && PropagatedEdge(reg, e)
    ensures var c := CorrelationEdge(e.source.value, e.condition.value, e.asset);
            && EdgeId(e) == CorrelationEdgeId(c)
            && ParseCorrelationEdgeId(reg, EdgeId(e)) == Success(Some(c))
  {
    assert e.source.value in reg.factors + reg.assets + reg.groups;
    PrintedIdSplits(Prefix(e), e.condition, TargetName(e));
  }

  /** A causal edge is taken for a correlation edge exactly when its condition is an upstream one and its factor
      is also the name of an asset; it is rejected with any other factor, and passed over with any other condition. */
  lemma CausalEdgeIsNoCorrelation(reg: Registry, e: FiringEdge)
    requires PlainRegistry(reg) && CausalEdge(reg, e)
    ensures ParseCorrelationEdgeId(reg, EdgeId(e)) ==
            if e.condition.None? || !IsUpstream(e.condition.value) then Success(None)
            else if e.factor.value in reg.assets && TargetName(e) in reg.assets
            then Success(Some(CorrelationEdge(e.factor.value, e.condition.value, TargetName(e))))
            else Failure(UnknownCorrelatedAsset)
  {
    assert e.factor.value in reg.factors + reg.assets + reg.groups;
    PrintedIdSplits(Prefix(e), e.condition, TargetName(e));
    if e.condition.Some? {
      ConditionNamesRoundTrip(e.condition.value);
    }
  }

  /** A propagated edge is credited as a causal edge exactly when its source is also the name of a factor. */
  lemma PropagatedEdgeIsNoCause(reg: Registry, e: FiringEdge)
    requires PlainRegistry(reg) && PropagatedEdge(reg, e)
    ensures ParseEdgeId(reg, EdgeId(e)) ==
            if e.source.value in reg.factors then Success(EdgeKey(e.source.value, e.condition, Asset(e.asset)))
            else Failure(UnknownFactorOrCondition)
  {
    ConditionNamesRoundTrip(e.condition.value);
    assert e.source.value in reg.factors + reg.assets + reg.groups;
    assert PlainName(e.asset) by { assert e.asset in reg.factors + reg.assets + reg.groups; }
    PrintedIdSplits(Prefix(e), e.condition, TargetName(e));
  }

  /** Two edges of one kind share an id only when they are the same edge of the graph. A causal and a propagated
      edge share one only over a name that is both a factor and an asset. */
  lemma EdgeIdsNeverCollide(reg: Registry, e: FiringEdge, f: FiringEdge)
    requires PlainRegistry(reg)
    requires CausalEdge(reg, e) || PropagatedEdge(reg, e)
    requires CausalEdge(reg, f) || PropagatedEdge(reg, f)
    requires EdgeId(e) == EdgeId(f)
    ensures CausalEdge(reg, e) && CausalEdge(reg, f) ==> KeyOf(e) == KeyOf(f)
    ensures PropagatedEdge(reg, e) && PropagatedEdge(reg, f) ==>
              e.source == f.source && e.condition == f.condition && e.asset == f.asset
    ensures CausalEdge(reg, e) && PropagatedEdge(reg, f) ==>
              e.factor == f.source && e.condition == f.condition && TargetName(e) == f.asset
    ensures reg.factors !! reg.assets ==> (CausalEdge(reg, e) <==> CausalEdge(reg, f))
  {
    PrintedKey(reg, e);
    PrintedKey(reg, f);
  }

  /** What the parsers make of an edge of either kind. */
  lemma PrintedKey(reg: Registry, e: FiringEdge)
    requires PlainRegistry(reg)
    ensures CausalEdge(reg, e) ==> ParseEdgeId(reg, EdgeId(e)) == Success(KeyOf(e))
    ensures PropagatedEdge(reg, e) ==>
              && ParseCorrelationEdgeId(reg, EdgeId(e))
                 == Success(Some(CorrelationEdge(e.source.value, e.condition.value, e.asset)))
              && ParseEdgeId(reg, EdgeId(e)) ==
                 if e.source.value in reg.factors then Success(EdgeKey(e.source.value, e.condition, Asset(e.asset)))
                 else Failure(UnknownFactorOrCondition)
  {
    if CausalEdge(reg, e) {
      CausalEdgeRoundTrip(reg, e);
    }
    if PropagatedEdge(reg, e) {
      PropagatedEdgeIsNoCause(reg, e);
      PropagatedEdgeRoundTrip(reg, e);
    }
  }

  lemma ConditionOfIsInverse(name: string)
    ensures ConditionOf(name).Some? ==> ConditionName(ConditionOf(name).value) == name
  {
  }

  /** The other direction, for any text whatever: a parsed key prints the id it came from. */
  lemma ParsedEdgeIdPrintsBack(reg: Registry, id: string)
    ensures var r := ParseEdgeId(reg, id);
            r.Success? ==>
              && id == Print(r.value.factor, r.value.condition, r.value.target.name)
              && r.value.factor in reg.factors
              && (r.value.target.Asset? <==> r.value.target.name in reg.assets)
              && (r.value.target.Group? ==> r.value.target.name in reg.groups)
    ensures var r := ParseCorrelationEdgeId(reg, id);
            r.Success? && r.value.Some? ==>
              && id == CorrelationEdgeId(r.value.value)
              && r.value.value.source in reg.assets && r.value.value.target in reg.assets
              && IsUpstream(r.value.value.condition)
  {
    var (left, _, target) := Partition(id, "->");
    var (_, _, name) := Partition(left, "|");
    ConditionOfIsInverse(name);
  }
}
