/** Label selectors of selector/selector.go, which wire route groups to routes. */
module Selectors {
  type Labels = map<string, string>

  datatype Requirement = Requirement(key: string, operator: string, values: seq<string>)

  datatype Selector = Selector(matchLabels: Labels, matchExpressions: seq<Requirement>)

  // A label that is missing reads as the empty string here.
  predicate LabelMatches(labels: Labels, k: string, v: string) { (if k in labels then labels[k] else "") == v }

  // An operator that is not known never matches.
  predicate Holds(r: Requirement, labels: Labels) {
    var present := r.key in labels;
    if r.operator == "In" then present && labels[r.key] in r.values
    else if r.operator == "NotIn" then !(present && labels[r.key] in r.values)
    else if r.operator == "Exists" then present
    else r.operator == "DoesNotExist" && !present
  }

  predicate Matches(s: Selector, labels: Labels) {
    && (forall k :: k in s.matchLabels ==> LabelMatches(labels, k, s.matchLabels[k]))
    && (forall i :: 0 <= i < |s.matchExpressions| ==> Holds(s.matchExpressions[i], labels))
  }

  // What a term asks of the labels, operator by operator.
  predicate Asks(r: Requirement, labels: Labels) {
    || (r.operator == "In" && exists v :: v in r.values && r.key in labels && labels[r.key] == v)
    || (r.operator == "NotIn" && forall v :: v in r.values ==> !(r.key in labels && labels[r.key] == v))
    || (r.operator == "Exists" && r.key in labels.Keys)
    || (r.operator == "DoesNotExist" && r.key !in labels.Keys)
  }

  // The two loops: every label asked for is there, "" standing for a label that is not, and every term holds.
  method MatchesLabels(s: Selector, labels: Labels) returns (r: bool)
    ensures r == Matches(s, labels)
    ensures r <==>
      && (forall k :: k in s.matchLabels ==>
            (k in labels && labels[k] == s.matchLabels[k]) || (k !in labels && s.matchLabels[k] == ""))
      && (forall i :: 0 <= i < |s.matchExpressions| ==> Asks(s.matchExpressions[i], labels))
  {
    var todo := s.matchLabels.Keys;
    while todo != {}
      invariant todo <= s.matchLabels.Keys
      invariant forall k :: k in s.matchLabels && k !in todo ==> LabelMatches(labels, k, s.matchLabels[k])
      decreases todo
    {
      var k :| k in todo;
      var have := if k in labels then labels[k] else "";
      if have != s.matchLabels[k] {
        return false;
      }
      todo := todo - {k};
    }
    for i := 0 to |s.matchExpressions|
      invariant forall j :: 0 <= j < i ==> Holds(s.matchExpressions[j], labels) && Asks(s.matchExpressions[j], labels)
    {
      var t := s.matchExpressions[i];
      var present := t.key in labels;
      HoldsAsks(t, labels);
      if t.operator == "In" {
        if !present || labels[t.key] !in t.values {
          return false;
        }
      } else if t.operator == "NotIn" {
        if present && labels[t.key] in t.values {
          return false;
        }
      } else if t.operator == "Exists" {
        if !present {
          return false;
        }
      } else if t.operator == "DoesNotExist" {
        if present {
          return false;
        }
      } else {
        return false;
      }
    }
    return true;
  }

  lemma HoldsAsks(r: Requirement, labels: Labels)
    ensures Holds(r, labels) <==> Asks(r, labels)
  {
  }

  // A selector without terms matches everything; more terms match less; an unknown operator matches nothing.
  lemma TermsNarrow(s: Selector, more: seq<Requirement>, labels: Labels)
    ensures Matches(Selector(map[], []), labels)
    ensures Matches(Selector(s.matchLabels, s.matchExpressions + more), labels) <==>
      Matches(s, labels) && Matches(Selector(map[], more), labels)
    ensures (exists i :: 0 <= i < |more| && more[i].operator !in {"In", "NotIn", "Exists", "DoesNotExist"}) ==>
      !Matches(Selector(s.matchLabels, s.matchExpressions + more), labels)
  {
    hide Holds;
    var all, narrow := s.matchExpressions + more, Selector(map[], more);
    forall i | 0 <= i < |more| ensures all[|s.matchExpressions| + i] == more[i] {}
    forall i | 0 <= i < |s.matchExpressions| ensures all[i] == s.matchExpressions[i] {}
    forall i | 0 <= i < |more| && more[i].operator !in {"In", "NotIn", "Exists", "DoesNotExist"}
      ensures !Holds(all[|s.matchExpressions| + i], labels)
    {
      UnknownNeverHolds(more[i], labels);
    }
    if Matches(s, labels) && Matches(narrow, labels) {
      forall i | 0 <= i < |all| ensures Holds(all[i], labels) {
        if i >= |s.matchExpressions| { assert Holds(narrow.matchExpressions[i - |s.matchExpressions|], labels); }
      }
    }
  }

  lemma UnknownNeverHolds(r: Requirement, labels: Labels)
    requires r.operator !in {"In", "NotIn", "Exists", "DoesNotExist"}
    ensures !Holds(r, labels)
  {
  }

  // In and NotIn, and Exists and DoesNotExist, are each other's opposites on every set of labels.
  lemma OperatorsAreComplementary(key: string, values: seq<string>, labels: Labels)
    ensures Holds(Requirement(key, "In", values), labels) <==> !Holds(Requirement(key, "NotIn", values), labels)
    ensures Holds(Requirement(key, "Exists", values), labels) <==>
      !Holds(Requirement(key, "DoesNotExist", values), labels)
    ensures Holds(Requirement(key, "In", values), labels) ==> Holds(Requirement(key, "Exists", values), labels)
    ensures Holds(Requirement(key, "In", values), labels) <==> key in labels && labels[key] in values
  {
  }
}
