/** internal/pkg/util/k8s.go: does a pod's placement constraint admit a node
    pool, and which node pool does a GKE node name belong to.

    The node selector (`labels.Set(...).AsSelector()`) matches when every one of
    its key/value pairs is among the node's labels. The required node affinity
    is evaluated the way `MatchNodeSelectorTerms` does: terms are ORed,
    requirements inside a term are ANDed, a term without expressions is
    skipped, and a malformed term is an error only when no other term matches. */
module Matcher {
  import opened Common
  import Strings

  datatype Operator = In | NotIn | Exists | DoesNotExist | Gt | Lt | UnknownOperator(name: string)

  /** One `NodeSelectorRequirement` (a match expression). */
  datatype Requirement = Requirement(key: string, op: Operator, values: seq<string>)

  /** One `NodeSelectorTerm`, by its match expressions. */
  datatype Term = Term(expressions: seq<Requirement>)

  /** A pod's `NodeAffinity`; `required` is its RequiredDuringScheduling selector. */
  datatype NodeAffinity = NodeAffinity(required: Option<seq<Term>>)

  /** Stands for the aggregated selector error the Kubernetes helper library
      returns for malformed terms, which `CheckPodNodePoolMatch` passes on.
      Its text is not part of this model; only its identity matters. */
  const InvalidNodeSelector: string := "InvalidNodeSelector"

  predicate IsDigit(c: char) { '0' <= c <= '9' }

  function DigitsValue(s: string): (v: nat)
    requires forall i :: 0 <= i < |s| ==> IsDigit(s[i])
    decreases |s|
  {
    if |s| == 0 then 0
    else
      assert IsDigit(s[|s| - 1]);
      DigitsValue(s[..|s| - 1]) * 10 + (s[|s| - 1] as int - '0' as int)
  }

  /** `strconv.ParseInt(s, 10, 64)` without the 64-bit range check: an
      optional sign followed by at least one decimal digit. */
  function ParseInt(s: string): (r: Option<int>)
    ensures r.Some? ==> |s| > 0
  {
    var neg := |s| > 0 && s[0] == '-';
    var digits := if |s| > 0 && (s[0] == '-' || s[0] == '+') then s[1..] else s;
    if |digits| > 0 && forall i :: 0 <= i < |digits| ==> IsDigit(digits[i]) then
      var magnitude: int := DigitsValue(digits);
      Some(if neg then -magnitude else magnitude)
    else None
  }

  /** The checks `labels.NewRequirement` applies to the operator and values. */
  predicate WellFormed(r: Requirement)
  {
    match r.op
    case In => |r.values| >= 1
    case NotIn => |r.values| >= 1
    case Exists => |r.values| == 0
    case DoesNotExist => |r.values| == 0
    case Gt => |r.values| == 1 && ParseInt(r.values[0]).Some?
    case Lt => |r.values| == 1 && ParseInt(r.values[0]).Some?
    case UnknownOperator(_) => false
  }

  /** `Requirement.Matches` on a node's labels. */
  predicate RequirementMatches(r: Requirement, labels: Labels)
  {
    match r.op
    case In => r.key in labels && labels[r.key] in r.values
    case NotIn => r.key !in labels || labels[r.key] !in r.values
    case Exists => r.key in labels
    case DoesNotExist => r.key !in labels
    case Gt =>
      r.key in labels && |r.values| == 1 && ParseInt(labels[r.key]).Some? && ParseInt(r.values[0]).Some?
      && ParseInt(labels[r.key]).value > ParseInt(r.values[0]).value
    case Lt =>
      r.key in labels && |r.values| == 1 && ParseInt(labels[r.key]).Some? && ParseInt(r.values[0]).Some?
      && ParseInt(labels[r.key]).value < ParseInt(r.values[0]).value
    case UnknownOperator(_) => false
  }

  predicate TermWellFormed(t: Term)
  {
    forall i :: 0 <= i < |t.expressions| ==> WellFormed(t.expressions[i])
  }

  predicate TermMatches(t: Term, labels: Labels)
  {
    forall i :: 0 <= i < |t.expressions| ==> RequirementMatches(t.expressions[i], labels)
  }

  /** A term that takes part in matching: it has expressions (empty ones are skipped). */
  predicate Counted(t: Term) { |t.expressions| > 0 }

  /** Some counted, well-formed term of `terms` matches `labels`. */
  predicate SomeTermAdmits(terms: seq<Term>, labels: Labels)
  {
    exists i :: 0 <= i < |terms| && Counted(terms[i]) && TermWellFormed(terms[i]) && TermMatches(terms[i], labels)
  }

  /** Some counted term of `terms` is malformed. */
  predicate SomeTermMalformed(terms: seq<Term>)
  {
    exists i :: 0 <= i < |terms| && Counted(terms[i]) && !TermWellFormed(terms[i])
  }

  /** `MatchNodeSelectorTerms`, term by term: a match returns at once, a
      malformed term is remembered and skipped. */
  function MatchNodeSelectorTerms(terms: seq<Term>, labels: Labels): (r: Result<bool>)
    ensures r == Ok(true) <==> SomeTermAdmits(terms, labels)
    ensures r.Err? <==> !SomeTermAdmits(terms, labels) && SomeTermMalformed(terms)
    ensures r == Ok(false) <==> !SomeTermAdmits(terms, labels) && !SomeTermMalformed(terms)
    ensures r.Err? ==> r.msg == InvalidNodeSelector
    decreases |terms|
  {
    if |terms| == 0 then Ok(false)
    else
      var rest := MatchNodeSelectorTerms(terms[1..], labels);
      assert forall i :: 1 <= i < |terms| ==> terms[i] == terms[1..][i - 1];
      assert SomeTermAdmits(terms[1..], labels) ==> SomeTermAdmits(terms, labels);
      assert SomeTermMalformed(terms[1..]) ==> SomeTermMalformed(terms);
      if !Counted(terms[0]) then rest
      else if !TermWellFormed(terms[0]) then
        (if rest == Ok(true) then rest else Err(InvalidNodeSelector))
      else if TermMatches(terms[0], labels) then Ok(true)
      else rest
  }

  /** `labels.Set(selector).AsSelector().Matches(labels)`. */
  predicate SelectorMatches(selector: Labels, labels: Labels)
  {
    forall k :: k in selector ==> k in labels && labels[k] == selector[k]
  }

  /** The affinity verdict: absent affinity or absent required terms admit every node. */
  predicate AffinityAdmits(affinity: Option<NodeAffinity>, labels: Labels)
  {
    affinity.None? || affinity.value.required.None? || SomeTermAdmits(affinity.value.required.value, labels)
  }

  predicate AffinityMalformed(affinity: Option<NodeAffinity>, labels: Labels)
  {
    affinity.Some? && affinity.value.required.Some?
    && !SomeTermAdmits(affinity.value.required.value, labels)
    && SomeTermMalformed(affinity.value.required.value)
  }

  /** `CheckPodNodePoolMatch`: node selector AND node affinity; a term error
      is returned as the error whatever the selector says. */
  function CheckPodNodePoolMatch(labels: Labels, affinity: Option<NodeAffinity>, selector: Labels): (r: Result<bool>)
    ensures r.Err? <==> AffinityMalformed(affinity, labels)
    ensures r == Ok(true) <==> SelectorMatches(selector, labels) && AffinityAdmits(affinity, labels)
    ensures r.Err? ==> r.msg == InvalidNodeSelector
  {
    var bySelector := SelectorMatches(selector, labels);
    if affinity.None? || affinity.value.required.None? then Ok(bySelector)
    else
      match MatchNodeSelectorTerms(affinity.value.required.value, labels)
      case Err(e) => Err(e)
      case Ok(byAffinity) => Ok(bySelector && byAffinity)
  }

  /** A pod with an empty node selector and no affinity fits every node pool. */
  lemma UnconstrainedPodMatchesEveryPool(labels: Labels)
    ensures CheckPodNodePoolMatch(labels, None, map[]) == Ok(true)
  {
  }

  // ---- ParseGCPNodePoolByNodeName ----

  predicate IsHashChar(c: char) { 'a' <= c <= 'z' || '0' <= c <= '9' }

  predicate IsHash(s: string, n: nat)
  {
    |s| == n && forall i :: 0 <= i < |s| ==> IsHashChar(s[i])
  }

  /** The text matched by `-[a-z0-9]{8}-[a-z0-9]{4}$` at the end of a name. */
  predicate IsHashSuffix(t: string)
  {
    |t| == 14 && t[0] == '-' && IsHash(t[1..9], 8) && t[9] == '-' && IsHash(t[10..], 4)
  }

  const HashSuffixLength: nat := 14

  /** The regular-expression replacement: the pattern is anchored at the end
      and has a fixed length, so at most the last 14 characters are removed. */
  function StripHashSuffix(s: string): (r: string)
    ensures |s| >= HashSuffixLength && IsHashSuffix(s[|s| - HashSuffixLength..]) ==>
              r + s[|s| - HashSuffixLength..] == s
    ensures !(|s| >= HashSuffixLength && IsHashSuffix(s[|s| - HashSuffixLength..])) ==> r == s
  {
    if |s| >= HashSuffixLength && IsHashSuffix(s[|s| - HashSuffixLength..]) then s[..|s| - HashSuffixLength]
    else s
  }

  function NodeNamePrefix(project: string): (p: string)
    ensures |p| > 0
  {
    "gke-" + project + "-"
  }

  /** `ParseGCPNodePoolByNodeName(project, nodeName)`. */
  function ParseGcpNodePoolByNodeName(project: string, nodeName: string): string
  {
    StripHashSuffix(Strings.ReplaceAll(nodeName, NodeNamePrefix(project), ""))
  }

  /** A GKE node name `gke-<project>-<pool>-<8 chars>-<4 chars>` gives back its
      pool, as long as the prefix does not occur again after its first copy. */
  lemma NodePoolNameRoundTrip(project: string, pool: string, h8: string, h4: string)
    requires IsHash(h8, 8) && IsHash(h4, 4)
    requires forall i: nat :: i < |pool + "-" + h8 + "-" + h4| ==>
               !Strings.OccursAt(pool + "-" + h8 + "-" + h4, NodeNamePrefix(project), i)
    ensures ParseGcpNodePoolByNodeName(project, NodeNamePrefix(project) + pool + "-" + h8 + "-" + h4) == pool
  {
    var prefix := NodeNamePrefix(project);
    var rest := pool + "-" + h8 + "-" + h4;
    PrefixRemovedOnce(prefix, rest);
    assert prefix + pool + "-" + h8 + "-" + h4 == prefix + rest;
    HashSuffixStripped(pool, h8, h4);
  }

  /** Removing every copy of the prefix from a name that holds only the
      leading one leaves the rest of the name. */
  lemma PrefixRemovedOnce(prefix: string, rest: string)
    requires |prefix| > 0
    requires forall i: nat :: i < |rest| ==> !Strings.OccursAt(rest, prefix, i)
    ensures Strings.ReplaceAll(prefix + rest, prefix, "") == rest
  {
    var name := prefix + rest;
    assert name[..|prefix|] == prefix;
    assert name[|prefix|..] == rest;
    Strings.ReplaceAllWithoutOccurrence(rest, prefix, "");
  }

  /** The hash suffix comes off a pool name followed by two hashes. */
  lemma HashSuffixStripped(pool: string, h8: string, h4: string)
    requires IsHash(h8, 8) && IsHash(h4, 4)
    ensures StripHashSuffix(pool + "-" + h8 + "-" + h4) == pool
  {
    var rest := pool + "-" + h8 + "-" + h4;
    var tail := rest[|rest| - HashSuffixLength..];
    assert tail == "-" + h8 + "-" + h4;
    assert tail[1..9] == h8 && tail[10..] == h4;
    assert IsHashSuffix(tail);
    assert rest[..|rest| - HashSuffixLength] == pool;
  }
}
