/** What label requirements and selectors ask for, read off their fields (internal/model/cluster.go). */
module Matching {
  import opened Model

  /** The labels meet the requirement; an operator other than these four is never met. */
  ghost predicate Meets(r: SelectorRequirement, labels: Labels) {
    var has := r.key in labels;
    || (r.operator == Exists && has)
    || (r.operator == DoesNotExist && !has)
    || (r.operator == In && has && exists i | 0 <= i < |r.values| :: r.values[i] == labels[r.key])
    || (r.operator == NotIn && forall i | 0 <= i < |r.values| && has :: r.values[i] != labels[r.key])
  }

  /** A label that is absent reads as the empty string. */
  ghost predicate Carries(labels: Labels, wanted: Labels) {
    forall k | k in wanted :: if k in labels then labels[k] == wanted[k] else wanted[k] == ""
  }

  /** No selector picks everything; one picks what carries its labels and meets all its requirements. */
  ghost predicate Picks(sel: Option<LabelSelector>, labels: Labels) {
    match sel
    case None => true
    case Some(s) =>
      && Carries(labels, s.matchLabels)
      && forall i | 0 <= i < |s.matchExpressions| :: Meets(s.matchExpressions[i], labels)
  }

  /** All requirements of one term hold; terms are alternatives. */
  ghost predicate TermHolds(term: seq<SelectorRequirement>, labels: Labels) {
    forall i | 0 <= i < |term| :: Meets(term[i], labels)
  }

  lemma {:induction false} RequirementMet(r: SelectorRequirement, labels: Labels)
    ensures r.Matches(labels) <==> Meets(r, labels)
  {
    if r.key in labels && labels[r.key] in r.values {
      var i :| 0 <= i < |r.values| && r.values[i] == labels[r.key];
    }
  }

  lemma {:induction false} TermMet(term: seq<SelectorRequirement>, labels: Labels)
    ensures (forall r | r in term :: r.Matches(labels)) <==> TermHolds(term, labels)
  {
    forall r | r in term ensures r.Matches(labels) <==> Meets(r, labels) { RequirementMet(r, labels); }
    forall i | 0 <= i < |term| ensures term[i].Matches(labels) <==> Meets(term[i], labels) {
      RequirementMet(term[i], labels);
    }
  }

  lemma {:induction false} SelectorPicks(sel: Option<LabelSelector>, labels: Labels)
    ensures SelectorMatches(sel, labels) <==> Picks(sel, labels)
  {
    if sel.Some? { TermMet(sel.value.matchExpressions, labels); }
  }
}
