/**
  Selector fingerprints (internal/constraints/spreadindex.go). The spread cache identifies a
  selector by a rendered string, so its answers are right only if equal strings mean equal
  selectors. That is proved here for every selector the API server admits.
 */
module Fingerprints {
  import opened Model
  import opened Sorting
  import opened Sums

  function OperatorName(op: SelectorOperator): string {
    match op
    case In => "In"
    case NotIn => "NotIn"
    case Exists => "Exists"
    case DoesNotExist => "DoesNotExist"
    case Gt => "Gt"
    case Lt => "Lt"
    case UnknownOperator(name) => name
  }

  /** strings.Join */
  function Join(parts: seq<string>, sep: string): string {
    if parts == [] then "" else if |parts| == 1 then parts[0] else parts[0] + sep + Join(parts[1..], sep)
  }

  function RenderRequirement(r: SelectorRequirement): string {
    r.key + " " + OperatorName(r.operator) + " [" + Join(SortStrings(r.values), "|") + "]"
  }

  function RenderRequirements(rs: seq<SelectorRequirement>): (out: seq<string>)
    ensures |out| == |rs| && forall i | 0 <= i < |rs| :: out[i] == RenderRequirement(rs[i])
  {
    seq(|rs|, i requires 0 <= i < |rs| => RenderRequirement(rs[i]))
  }

  function RenderLabels(keys: seq<string>, m: Labels): (out: string)
    requires forall k | k in keys :: k in m
    ensures out == "" <==> keys == []
  {
    if keys == [] then "" else keys[0] + "=" + m[keys[0]] + "," + RenderLabels(keys[1..], m)
  }

  /** The elements of a set in some order. */
  ghost function AnyOrder(s: set<string>): (out: seq<string>)
    ensures multiset(out) == multiset(s) && |out| == |s|
    ensures forall x :: x in out <==> x in s
    decreases |s|
  {
    if s == {} then [] else
      var x :| x in s;
      assert multiset(s) == multiset(s - {x}) + multiset{x};
      [x] + AnyOrder(s - {x})
  }

  ghost function SortedKeys(m: Labels): (keys: seq<string>)
    ensures forall k :: k in keys <==> k in m
    ensures |keys| == |m.Keys|
  {
    SortPermutes(AnyOrder(m.Keys), StringLess);
    SortStrings(AnyOrder(m.Keys))
  }

  ghost function RenderExpressions(rs: seq<SelectorRequirement>): string {
    if rs == [] then "" else ";" + Join(SortStrings(RenderRequirements(rs)), ";")
  }

  ghost function SelectorText(s: LabelSelector): string {
    RenderLabels(SortedKeys(s.matchLabels), s.matchLabels) + RenderExpressions(s.matchExpressions)
  }

  ghost function Fingerprint(s: Option<LabelSelector>): string {
    if s.None? then "" else SelectorText(s.value)
  }

  /** selectorFingerprint */
  method SelectorFingerprint(s: Option<LabelSelector>) returns (b: string)
    ensures b == Fingerprint(s)
  {
    if s.None? { return ""; }
    var keys := SortKeys(s.value.matchLabels);
    b := WriteLabels(keys, s.value.matchLabels);
    if s.value.matchExpressions == [] { return; }
    var exprs := WriteExpressions(s.value.matchExpressions);
    b := b + ";" + Join(SortStrings(exprs), ";");
  }

  /** Collects the keys in whatever order the map yields them, then sorts. */
  method SortKeys(m: Labels) returns (keys: seq<string>)
    ensures keys == SortedKeys(m)
  {
    keys := [];
    var todo := m.Keys;
    while todo != {}
      invariant todo <= m.Keys
      invariant multiset(keys) == multiset(m.Keys - todo)
      decreases todo
    {
      var k :| k in todo;
      keys := keys + [k];
      assert m.Keys - (todo - {k}) == (m.Keys - todo) + {k};
      todo := todo - {k};
    }
    assert m.Keys - {} == m.Keys;
    SortStringsIgnoresOrder(keys, AnyOrder(m.Keys));
    keys := SortStrings(keys);
  }

  method WriteLabels(keys: seq<string>, m: Labels) returns (b: string)
    requires forall k | k in keys :: k in m
    ensures b == RenderLabels(keys, m)
  {
    b := "";
    for i := 0 to |keys|
      invariant b == RenderLabels(keys[..i], m)
    {
      b := b + keys[i] + "=" + m[keys[i]] + ",";
      assert keys[..i + 1] == keys[..i] + [keys[i]];
      RenderLabelsAppend(keys[..i], keys[i], m);
    }
    assert keys[..|keys|] == keys;
  }

  method WriteExpressions(es: seq<SelectorRequirement>) returns (exprs: seq<string>)
    ensures exprs == RenderRequirements(es)
  {
    exprs := [];
    for i := 0 to |es|
      invariant |exprs| == i && forall j | 0 <= j < i :: exprs[j] == RenderRequirement(es[j])
    {
      var e := es[i];
      exprs := exprs + [e.key + " " + OperatorName(e.operator) + " [" + Join(SortStrings(e.values), "|") + "]"];
    }
  }

  lemma {:induction false} AppendedText(head: string, rest: string, k: string, v: string)
    ensures head + (rest + k + "=" + v + ",") == head + rest + k + "=" + v + ","
  {
  }

  lemma {:induction false} RenderLabelsAppend(keys: seq<string>, k: string, m: Labels)
    requires k in m && forall x | x in keys :: x in m
    ensures RenderLabels(keys + [k], m) == RenderLabels(keys, m) + k + "=" + m[k] + ","
  {
    if keys == [] {
      assert RenderLabels([], m) == "";
      assert [k][1..] == [];
    } else {
      RenderLabelsAppend(keys[1..], k, m);
      assert (keys + [k])[1..] == keys[1..] + [k];
      AppendedText(keys[0] + "=" + m[keys[0]] + ",", RenderLabels(keys[1..], m), k, m[k]);
    }
  }

  // -------------------------------------------------------------- admission

  /** The characters Kubernetes admits in label keys and values. */
  predicate LabelChar(c: char) {
    'a' <= c <= 'z' || 'A' <= c <= 'Z' || '0' <= c <= '9' || c in "-_./"
  }

  predicate LabelText(s: string) { forall i | 0 <= i < |s| :: LabelChar(s[i]) }

  /** What the API server validates before a selector can exist. */
  predicate Admitted(s: Option<LabelSelector>) {
    s.Some? ==>
      && (forall k | k in s.value.matchLabels :: LabelText(k) && LabelText(s.value.matchLabels[k]))
      && (forall r | r in s.value.matchExpressions :: AdmittedRequirement(r))
  }

  predicate AdmittedRequirement(r: SelectorRequirement) {
    && LabelText(r.key)
    && (forall v | v in r.values :: LabelText(v))
    && !r.operator.UnknownOperator?
    && (r.operator.In? || r.operator.NotIn? ==> r.values != [])
  }

  // --------------------------------------------------------------- injectivity

  function First(s: string, c: char): nat {
    if s == "" || s[0] == c then 0 else 1 + First(s[1..], c)
  }

  lemma {:induction false} FirstAfter(a: string, c: char, rest: string)
    requires c !in a
    ensures First(a + [c] + rest, c) == |a|
  {
    if a == "" {
      assert (a + [c] + rest)[0] == c;
    } else {
      FirstAfter(a[1..], c, rest);
      assert (a + [c] + rest)[1..] == a[1..] + [c] + rest;
    }
  }

  /** A separator that occurs in neither head cuts equal texts at the same place. */
  lemma {:induction false} SplitAtSeparator(a: string, x: string, b: string, y: string, c: char)
    requires c !in a && c !in b && a + [c] + x == b + [c] + y
    ensures a == b && x == y
  {
    FirstAfter(a, c, x);
    FirstAfter(b, c, y);
    var t := a + [c] + x;
    assert a == t[..|a|] && x == t[|a| + 1..];
    assert b == (b + [c] + y)[..|b|] && y == (b + [c] + y)[|b| + 1..];
  }

  lemma {:induction false} LabelTextAvoids(s: string, c: char)
    requires LabelText(s) && !LabelChar(c)
    ensures c !in s
  {
  }

  lemma {:induction false} LabelsInjective(p: seq<string>, m: Labels, q: seq<string>, n: Labels)
    requires forall k | k in p :: k in m && LabelText(k) && LabelText(m[k])
    requires forall k | k in q :: k in n && LabelText(k) && LabelText(n[k])
    requires RenderLabels(p, m) == RenderLabels(q, n)
    ensures p == q && forall k | k in p :: m[k] == n[k]
  {
    if p != [] {
      var x := m[p[0]] + "," + RenderLabels(p[1..], m);
      var y := n[q[0]] + "," + RenderLabels(q[1..], n);
      assert RenderLabels(p, m) == p[0] + ['='] + x;
      assert RenderLabels(q, n) == q[0] + ['='] + y;
      LabelTextAvoids(p[0], '=');
      LabelTextAvoids(q[0], '=');
      SplitAtSeparator(p[0], x, q[0], y, '=');
      assert x == m[p[0]] + [','] + RenderLabels(p[1..], m);
      assert y == n[q[0]] + [','] + RenderLabels(q[1..], n);
      LabelTextAvoids(m[p[0]], ',');
      LabelTextAvoids(n[q[0]], ',');
      SplitAtSeparator(m[p[0]], RenderLabels(p[1..], m), n[q[0]], RenderLabels(q[1..], n), ',');
      LabelsInjective(p[1..], m, q[1..], n);
      assert p == [p[0]] + p[1..] && q == [q[0]] + q[1..];
    }
  }

  ghost function Terminated(parts: seq<string>, c: char): (out: string)
    ensures out == "" <==> parts == []
  {
    if parts == [] then "" else parts[0] + [c] + Terminated(parts[1..], c)
  }

  lemma {:induction false} JoinTerminated(parts: seq<string>, c: char)
    requires parts != []
    ensures Join(parts, [c]) + [c] == Terminated(parts, c)
  {
    if |parts| == 1 {
      assert Terminated(parts[1..], c) == "";
    } else {
      JoinTerminated(parts[1..], c);
      assert Join(parts, [c]) + [c] == parts[0] + [c] + (Join(parts[1..], [c]) + [c]);
    }
  }

  lemma {:induction false} TerminatedInjective(p: seq<string>, q: seq<string>, c: char)
    requires forall s | s in p :: c !in s
    requires forall s | s in q :: c !in s
    requires Terminated(p, c) == Terminated(q, c)
    ensures p == q
  {
    if p != [] {
      SplitAtSeparator(p[0], Terminated(p[1..], c), q[0], Terminated(q[1..], c), c);
      TerminatedInjective(p[1..], q[1..], c);
      assert p == [p[0]] + p[1..] && q == [q[0]] + q[1..];
    }
  }

  lemma {:induction false} JoinInjective(p: seq<string>, q: seq<string>, c: char)
    requires p != [] && q != []
    requires forall s | s in p :: c !in s
    requires forall s | s in q :: c !in s
    requires Join(p, [c]) == Join(q, [c])
    ensures p == q
  {
    JoinTerminated(p, c);
    JoinTerminated(q, c);
    TerminatedInjective(p, q, c);
  }

  lemma {:induction false} JoinAvoids(parts: seq<string>, sep: string, c: char)
    requires c !in sep && forall s | s in parts :: c !in s
    ensures c !in Join(parts, sep)
  {
    if |parts| > 1 { JoinAvoids(parts[1..], sep, c); }
  }

  lemma {:induction false} OperatorNameInjective(a: SelectorOperator, b: SelectorOperator)
    requires !a.UnknownOperator? && !b.UnknownOperator?
    ensures OperatorName(a) == OperatorName(b) ==> a == b
    ensures ' ' !in OperatorName(a) && ';' !in OperatorName(a)
  {
    assert |"In"| == 2 && |"NotIn"| == 5 && |"Exists"| == 6 && |"DoesNotExist"| == 12;
    assert "Gt"[0] == 'G' && "Lt"[0] == 'L' && "In"[0] == 'I';
  }

  lemma {:induction false} RenderedParts(key: string, op: string, j: string, key': string, op': string, j': string)
    requires ' ' !in key && ' ' !in key' && ' ' !in op && ' ' !in op'
    requires key + " " + op + " [" + j + "]" == key' + " " + op' + " [" + j' + "]"
    ensures key == key' && op == op' && j == j'
  {
    var x, y := op + " [" + j + "]", op' + " [" + j' + "]";
    assert key + " " + op + " [" + j + "]" == key + [' '] + x;
    assert key' + " " + op' + " [" + j' + "]" == key' + [' '] + y;
    SplitAtSeparator(key, x, key', y, ' ');
    var u, w := "[" + j + "]", "[" + j' + "]";
    assert x == op + [' '] + u && y == op' + [' '] + w;
    SplitAtSeparator(op, u, op', w, ' ');
    assert j == u[1..|u| - 1] && j' == w[1..|w| - 1];
  }

  /** Non-empty value lists that join alike hold the same values. */
  lemma {:induction false} ValuesInjective(a: seq<string>, b: seq<string>)
    requires a != [] && b != []
    requires forall v | v in a :: LabelText(v)
    requires forall v | v in b :: LabelText(v)
    requires Join(SortStrings(a), "|") == Join(SortStrings(b), "|")
    ensures forall v :: v in a <==> v in b
  {
    var p, q := SortStrings(a), SortStrings(b);
    SortPermutes(a, StringLess);
    SortPermutes(b, StringLess);
    forall s | s in p ensures '|' !in s { LabelTextAvoids(s, '|'); }
    forall s | s in q ensures '|' !in s { LabelTextAvoids(s, '|'); }
    JoinInjective(p, q, '|');
  }

  /** Requirements that render alike match alike. */
  lemma {:induction false} RequirementInjective(a: SelectorRequirement, b: SelectorRequirement, labels: Labels)
    requires AdmittedRequirement(a) && AdmittedRequirement(b)
    requires RenderRequirement(a) == RenderRequirement(b)
    ensures a.Matches(labels) == b.Matches(labels)
  {
    LabelTextAvoids(a.key, ' ');
    LabelTextAvoids(b.key, ' ');
    OperatorNameInjective(a.operator, b.operator);
    OperatorNameInjective(b.operator, a.operator);
    RenderedParts(a.key, OperatorName(a.operator), Join(SortStrings(a.values), "|"),
                  b.key, OperatorName(b.operator), Join(SortStrings(b.values), "|"));
    if a.operator.In? || a.operator.NotIn? {
      ValuesInjective(a.values, b.values);
    }
  }

  lemma {:induction false} RequirementAvoids(r: SelectorRequirement)
    requires AdmittedRequirement(r)
    ensures ';' !in RenderRequirement(r)
  {
    SortPermutes(r.values, StringLess);
    LabelTextAvoids(r.key, ';');
    OperatorNameInjective(r.operator, r.operator);
    forall s | s in SortStrings(r.values) ensures ';' !in s { LabelTextAvoids(s, ';'); }
    JoinAvoids(SortStrings(r.values), "|", ';');
  }

  /** Expression lists that render alike match alike. */
  lemma {:induction false} ExpressionsInjective(p: seq<SelectorRequirement>, q: seq<SelectorRequirement>,
                                                labels: Labels)
    requires forall r | r in p :: AdmittedRequirement(r)
    requires forall r | r in q :: AdmittedRequirement(r)
    requires RenderExpressions(p) == RenderExpressions(q)
    requires forall r | r in p :: r.Matches(labels)
    ensures forall r | r in q :: r.Matches(labels)
  {
    if q != [] {
      var u, v := RenderRequirements(p), RenderRequirements(q);
      SortPermutes(u, StringLess);
      SortPermutes(v, StringLess);
      assert RenderExpressions(q)[0] == ';';
      assert Join(SortStrings(u), ";") == RenderExpressions(p)[1..];
      assert Join(SortStrings(v), ";") == RenderExpressions(q)[1..];
      forall s | s in SortStrings(u) ensures ';' !in s {
        var i :| 0 <= i < |u| && u[i] == s;
        RequirementAvoids(p[i]);
      }
      forall s | s in SortStrings(v) ensures ';' !in s {
        var i :| 0 <= i < |v| && v[i] == s;
        RequirementAvoids(q[i]);
      }
      JoinInjective(SortStrings(u), SortStrings(v), ';');
      forall r | r in q ensures r.Matches(labels) {
        var i :| 0 <= i < |q| && q[i] == r;
        assert v[i] in SortStrings(u);
        var k :| 0 <= k < |u| && u[k] == v[i];
        RequirementInjective(p[k], r, labels);
      }
    }
  }

  /** The label part of a fingerprint ends at the first semicolon, or at the end. */
  lemma {:induction false} LabelPartSplits(a: string, x: string, b: string, y: string)
    requires ';' !in a && ';' !in b && a + x == b + y
    requires (x == "" || x[0] == ';') && (y == "" || y[0] == ';')
    ensures a == b && x == y
  {
    FirstAfter(a, ';', if x == "" then "" else x[1..] + ";");
    FirstAfter(b, ';', if y == "" then "" else y[1..] + ";");
    assert a + x + ";" == a + [';'] + if x == "" then "" else x[1..] + ";";
    assert b + y + ";" == b + [';'] + if y == "" then "" else y[1..] + ";";
    assert a == (a + x)[..|a|] && x == (a + x)[|a|..];
    assert b == (b + y)[..|b|] && y == (b + y)[|b|..];
  }

  lemma {:induction false} RenderLabelsAvoids(keys: seq<string>, m: Labels)
    requires forall k | k in keys :: k in m && LabelText(k) && LabelText(m[k])
    ensures ';' !in RenderLabels(keys, m)
  {
    if keys != [] {
      LabelTextAvoids(keys[0], ';');
      LabelTextAvoids(m[keys[0]], ';');
      RenderLabelsAvoids(keys[1..], m);
    }
  }

  lemma {:induction false} LabelsOfText(s: LabelSelector, t: LabelSelector)
    requires Admitted(Some(s)) && Admitted(Some(t)) && SelectorText(s) == SelectorText(t)
    ensures s.matchLabels == t.matchLabels
    ensures RenderExpressions(s.matchExpressions) == RenderExpressions(t.matchExpressions)
  {
    var p, q := SortedKeys(s.matchLabels), SortedKeys(t.matchLabels);
    RenderLabelsAvoids(p, s.matchLabels);
    RenderLabelsAvoids(q, t.matchLabels);
    LabelPartSplits(RenderLabels(p, s.matchLabels), RenderExpressions(s.matchExpressions),
                    RenderLabels(q, t.matchLabels), RenderExpressions(t.matchExpressions));
    SameLabels(s.matchLabels, t.matchLabels);
  }

  lemma {:induction false} SameLabels(m: Labels, n: Labels)
    requires forall k | k in m :: LabelText(k) && LabelText(m[k])
    requires forall k | k in n :: LabelText(k) && LabelText(n[k])
    requires RenderLabels(SortedKeys(m), m) == RenderLabels(SortedKeys(n), n)
    ensures m == n
  {
    var p, q := SortedKeys(m), SortedKeys(n);
    LabelsInjective(p, m, q, n);
    assert m.Keys == n.Keys by {
      forall k ensures k in m <==> k in n {
        assert k in p <==> k in m;
        assert k in q <==> k in n;
      }
    }
    assert forall k | k in m :: m[k] == n[k];
  }

  lemma {:induction false} TextImpliesMatch(s: LabelSelector, t: LabelSelector, labels: Labels)
    requires Admitted(Some(s)) && Admitted(Some(t)) && SelectorText(s) == SelectorText(t)
    requires SelectorMatches(Some(s), labels)
    ensures SelectorMatches(Some(t), labels)
  {
    LabelsOfText(s, t);
    ExpressionsInjective(s.matchExpressions, t.matchExpressions, labels);
  }

  ghost function Normal(s: Option<LabelSelector>): LabelSelector {
    if s.None? then LabelSelector(map[], []) else s.value
  }

  /** A nil selector fingerprints and matches like an empty one. */
  lemma {:induction false} NormalKeepsMeaning(s: Option<LabelSelector>, labels: Labels)
    ensures Fingerprint(s) == SelectorText(Normal(s))
    ensures SelectorMatches(s, labels) == SelectorMatches(Some(Normal(s)), labels)
  {
    assert |SortedKeys(map[])| == 0;
  }

  /** Equal fingerprints mean equal selectors: over admitted selectors a collision is harmless. */
  lemma {:induction false} EqualFingerprintsMatchAlike(a: Option<LabelSelector>, b: Option<LabelSelector>)
    requires Admitted(a) && Admitted(b) && Fingerprint(a) == Fingerprint(b)
    ensures forall labels :: SelectorMatches(a, labels) == SelectorMatches(b, labels)
  {
    forall labels ensures SelectorMatches(a, labels) == SelectorMatches(b, labels) {
      NormalKeepsMeaning(a, labels);
      NormalKeepsMeaning(b, labels);
      if SelectorMatches(a, labels) { TextImpliesMatch(Normal(a), Normal(b), labels); }
      if SelectorMatches(b, labels) { TextImpliesMatch(Normal(b), Normal(a), labels); }
    }
  }

  /** Outside that domain it fails: an empty In list and a list holding the empty value collide. */
  lemma {:induction false} UnadmittedSelectorsCollide()
    ensures var a := Some(LabelSelector(map[], [SelectorRequirement("k", In, [])]));
            var b := Some(LabelSelector(map[], [SelectorRequirement("k", In, [""])]));
            Fingerprint(a) == Fingerprint(b) && SelectorMatches(a, map["k" := ""]) != SelectorMatches(b, map["k" := ""])
  {
    var r, t := SelectorRequirement("k", In, []), SelectorRequirement("k", In, [""]);
    assert SortStrings([]) == [] && SortStrings([""]) == [""];
    assert RenderRequirement(r) == RenderRequirement(t);
    assert RenderRequirements([r]) == RenderRequirements([t]);
    assert !r.Matches(map["k" := ""]) && t.Matches(map["k" := ""]);
    assert r in [r] && t in [t];
  }

  // ------------------------------------------------------------------ stability

  ghost function RendersTo(text: string): SelectorRequirement -> int {
    (r: SelectorRequirement) => if RenderRequirement(r) == text then 1 else 0
  }

  lemma {:induction false} CountAppended<T>(s: seq<T>, last: T, x: T)
    ensures multiset(s + [last])[x] == multiset(s)[x] + if last == x then 1 else 0
  {
  }

  lemma {:induction false} MappedTally<A(!new), B>(p: seq<A>, out: seq<B>, f: A -> B, x: B, w: A -> int)
    requires |out| == |p| && forall i | 0 <= i < |p| :: out[i] == f(p[i])
    requires forall a :: w(a) == if f(a) == x then 1 else 0
    ensures multiset(out)[x] == Sum(p, w)
  {
    if p != [] {
      var n := |p| - 1;
      MappedTally(p[..n], out[..n], f, x, w);
      assert out == out[..n] + [out[n]];
      CountAppended(out[..n], out[n], x);
    }
  }

  lemma {:induction false} RenderedTally(p: seq<SelectorRequirement>, text: string)
    ensures multiset(RenderRequirements(p))[text] == Sum(p, RendersTo(text))
  {
    MappedTally(p, RenderRequirements(p), RenderRequirement, text, RendersTo(text));
  }

  lemma {:induction false} RenderedPermute(p: seq<SelectorRequirement>, q: seq<SelectorRequirement>)
    requires multiset(p) == multiset(q)
    ensures multiset(RenderRequirements(p)) == multiset(RenderRequirements(q))
  {
    forall text ensures multiset(RenderRequirements(p))[text] == multiset(RenderRequirements(q))[text] {
      RenderedTally(p, text);
      RenderedTally(q, text);
      SumPermutation(p, q, RendersTo(text));
    }
  }

  /** The order in which expressions are listed does not reach the fingerprint. */
  lemma {:induction false} FingerprintIgnoresExpressionOrder(a: LabelSelector, b: LabelSelector)
    requires a.matchLabels == b.matchLabels && multiset(a.matchExpressions) == multiset(b.matchExpressions)
    ensures Fingerprint(Some(a)) == Fingerprint(Some(b))
  {
    RenderedPermute(a.matchExpressions, b.matchExpressions);
    SortStringsIgnoresOrder(RenderRequirements(a.matchExpressions), RenderRequirements(b.matchExpressions));
    assert |multiset(a.matchExpressions)| == |a.matchExpressions|
        && |multiset(b.matchExpressions)| == |b.matchExpressions|;
  }

  /** Nor does the order of the values inside an expression. */
  lemma {:induction false} FingerprintIgnoresValueOrder(a: LabelSelector, b: LabelSelector)
    requires a.matchLabels == b.matchLabels && |a.matchExpressions| == |b.matchExpressions|
    requires forall i | 0 <= i < |a.matchExpressions| ::
      && a.matchExpressions[i].key == b.matchExpressions[i].key
      && a.matchExpressions[i].operator == b.matchExpressions[i].operator
      && multiset(a.matchExpressions[i].values) == multiset(b.matchExpressions[i].values)
    ensures Fingerprint(Some(a)) == Fingerprint(Some(b))
  {
    forall i | 0 <= i < |a.matchExpressions|
      ensures RenderRequirement(a.matchExpressions[i]) == RenderRequirement(b.matchExpressions[i])
    {
      SortStringsIgnoresOrder(a.matchExpressions[i].values, b.matchExpressions[i].values);
    }
    assert RenderRequirements(a.matchExpressions) == RenderRequirements(b.matchExpressions);
  }
}
