/** From scanner answers to the auto-approval verdict: the parallel fan-in, the rules and
    the table of findings. Scores are reals. */
module Verdict {
  import opened Wrappers

  datatype Finding = Finding(id: string, source: string, severity: string, cvss: real, epss: real, title: string)

  // ---------------------------------------------------------------- MultiScanner.Scan

  function Key(v: Finding): string {
    v.source + ":" + v.id
  }

  function Keys(vs: seq<Finding>): set<string> {
    set v | v in vs :: Key(v)
  }

  function Flatten(batches: seq<seq<Finding>>): seq<Finding> {
    if batches == [] then [] else batches[0] + Flatten(batches[1..])
  }

  /** The first vulnerability of every key not yet seen. */
  function Dedup(vs: seq<Finding>, seen: set<string>): seq<Finding> {
    if vs == [] then []
    else if Key(vs[0]) in seen then Dedup(vs[1..], seen)
    else [vs[0]] + Dedup(vs[1..], seen + {Key(vs[0])})
  }

  lemma DedupStep(all: seq<Finding>, v: Finding, rest: seq<Finding>, seen: set<string>)
    ensures all + Dedup([v] + rest, seen) ==
      if Key(v) in seen then all + Dedup(rest, seen) else (all + [v]) + Dedup(rest, seen + {Key(v)})
  {
    assert ([v] + rest)[1..] == rest;
    assert (all + [v]) + Dedup(rest, seen + {Key(v)}) == all + ([v] + Dedup(rest, seen + {Key(v)}));
  }

  /** The inner loop: one scanner's answer, `tail` being what is still to arrive. */
  method AddAnswer(vulns: seq<Finding>, seen0: set<string>, all0: seq<Finding>, ghost tail: seq<Finding>)
    returns (seen: set<string>, all: seq<Finding>)
    ensures all + Dedup(tail, seen) == all0 + Dedup(vulns + tail, seen0)
  {
    seen, all := seen0, all0;
    assert vulns[0..] + tail == vulns + tail;
    var j := 0;
    while j < |vulns|
      invariant 0 <= j <= |vulns|
      invariant all + Dedup(vulns[j..] + tail, seen) == all0 + Dedup(vulns + tail, seen0)
    {
      var v := vulns[j];
      DedupStep(all, v, vulns[j + 1..] + tail, seen);
      assert vulns[j..] + tail == [v] + (vulns[j + 1..] + tail);
      if Key(v) !in seen {
        seen := seen + {Key(v)};
        all := all + [v];
      }
      j := j + 1;
    }
    assert vulns[j..] + tail == tail;
  }

  /** The fan-in loop over the scanners' answers in the order they arrive. */
  method Scan(arrivals: seq<seq<Finding>>) returns (all: seq<Finding>)
    ensures all == Dedup(Flatten(arrivals), {})
  {
    var seen: set<string> := {};
    all := [];
    var i := 0;
    while i < |arrivals|
      invariant 0 <= i <= |arrivals|
      invariant Dedup(Flatten(arrivals), {}) == all + Dedup(Flatten(arrivals[i..]), seen)
    {
      var vulns := arrivals[i];
      assert arrivals[i..][0] == vulns && arrivals[i..][1..] == arrivals[i + 1..];
      seen, all := AddAnswer(vulns, seen, all, Flatten(arrivals[i + 1..]));
      i := i + 1;
    }
    assert arrivals[i..] == [];
  }

  predicate DistinctPairs(vs: seq<Finding>) {
    forall i, j :: 0 <= i < j < |vs| ==> vs[i].id != vs[j].id || vs[i].source != vs[j].source
  }

  /** The fan-in invents nothing and keeps nothing already seen. */
  lemma {:induction false} DedupSelects(vs: seq<Finding>, seen: set<string>)
    ensures forall v :: v in Dedup(vs, seen) ==> v in vs && Key(v) !in seen
  {
    if vs != [] {
      DedupSelects(vs[1..], if Key(vs[0]) in seen then seen else seen + {Key(vs[0])});
    }
  }

  /** Of every key reported by some scanner, the first report survives. */
  lemma {:induction false} DedupCovers(vs: seq<Finding>, seen: set<string>, v: Finding) returns (i: nat)
    requires v in vs && v.source + ":" + v.id !in seen
    ensures i < |vs| && vs[i] in Dedup(vs, seen) && vs[i].source + ":" + vs[i].id == v.source + ":" + v.id
    ensures forall j :: 0 <= j < i ==> vs[j].source + ":" + vs[j].id != v.source + ":" + v.id
  {
    if Key(v) == Key(vs[0]) {
      i := 0;
      assert Dedup(vs, seen)[0] == vs[0];
    } else {
      i := DedupCovers(vs[1..], if Key(vs[0]) in seen then seen else seen + {Key(vs[0])}, v);
      i := i + 1;
    }
  }

  /** No vulnerability of one source is kept twice. */
  lemma {:induction false} DedupDistinct(vs: seq<Finding>, seen: set<string>)
    ensures DistinctPairs(Dedup(vs, seen))
  {
    if vs != [] {
      var seen' := if Key(vs[0]) in seen then seen else seen + {Key(vs[0])};
      DedupDistinct(vs[1..], seen');
      DedupSelects(vs[1..], seen');
      var rest := Dedup(vs[1..], seen');
      assert forall j :: 0 <= j < |rest| ==> rest[j] in rest;
    }
  }

  // ---------------------------------------------------------------- arrival order

  /** No source contains a colon, and no two answers share a source. */
  predicate SeparateSources(batches: seq<seq<Finding>>) {
    && (forall i, v :: 0 <= i < |batches| && v in batches[i] ==> ':' !in v.source)
    && (forall i, j, v, w :: 0 <= i < j < |batches| && v in batches[i] && w in batches[j] ==> v.source != w.source)
  }

  function DedupEach(batches: seq<seq<Finding>>): seq<Finding> {
    if batches == [] then [] else Dedup(batches[0], {}) + DedupEach(batches[1..])
  }

  lemma KeyDetermines(v: Finding, w: Finding)
    requires ':' !in v.source && ':' !in w.source && Key(v) == Key(w)
    ensures v.source == w.source && v.id == w.id
  {
    var k := Key(v);
    assert k[|v.source|] == ':' && k[|w.source|] == ':';
    assert forall i :: 0 <= i < |v.source| ==> k[i] == v.source[i] && v.source[i] in v.source;
    assert forall i :: 0 <= i < |w.source| ==> k[i] == w.source[i] && w.source[i] in w.source;
    assert v.source == k[..|v.source|] && w.source == k[..|w.source|];
    assert v.id == k[|v.source| + 1..] && w.id == k[|w.source| + 1..];
  }

  lemma {:induction false} DedupConcat(x: seq<Finding>, y: seq<Finding>, seen: set<string>)
    ensures Dedup(x + y, seen) == Dedup(x, seen) + Dedup(y, seen + Keys(x))
  {
    if x == [] {
      assert x + y == y && seen + Keys(x) == seen;
    } else {
      assert (x + y)[1..] == x[1..] + y;
      var seen' := if Key(x[0]) in seen then seen else seen + {Key(x[0])};
      DedupConcat(x[1..], y, seen');
      assert seen' + Keys(x[1..]) == seen + Keys(x) by {
        assert forall v :: v in x <==> v == x[0] || v in x[1..];
      }
    }
  }

  lemma {:induction false} DedupFresh(y: seq<Finding>, seen: set<string>, more: set<string>)
    requires Keys(y) !! more
    ensures Dedup(y, seen + more) == Dedup(y, seen)
  {
    if y != [] {
      assert Key(y[0]) in Keys(y);
      assert Keys(y[1..]) <= Keys(y);
      DedupFresh(y[1..], seen, more);
      DedupFresh(y[1..], seen + {Key(y[0])}, more);
      assert seen + more + {Key(y[0])} == seen + {Key(y[0])} + more;
    }
  }

  /** Answers of separate sources do not interfere: each is deduplicated on its own. */
  lemma {:induction false} DedupSplits(batches: seq<seq<Finding>>)
    requires SeparateSources(batches)
    ensures Dedup(Flatten(batches), {}) == DedupEach(batches)
  {
    if batches != [] {
      var x, rest := batches[0], batches[1..];
      assert SeparateSources(rest) by {
        assert forall i :: 0 <= i < |rest| ==> rest[i] == batches[i + 1];
      }
      DedupSplits(rest);
      var y := Flatten(rest);
      DedupConcat(x, y, {});
      forall v, w | v in x && w in y ensures Key(v) != Key(w) {
        var j := BatchOf(rest, w);
        assert rest[j] == batches[j + 1];
        if Key(v) == Key(w) {
          KeyDetermines(v, w);
        }
      }
      assert Keys(y) !! Keys(x);
      DedupFresh(y, {}, Keys(x));
    }
  }

  lemma {:induction false} BatchOf(batches: seq<seq<Finding>>, w: Finding) returns (j: nat)
    requires w in Flatten(batches)
    ensures j < |batches| && w in batches[j]
  {
    if w in batches[0] {
      j := 0;
    } else {
      j := BatchOf(batches[1..], w);
      j := j + 1;
    }
  }

  lemma Swap<T>(a: multiset<T>, b: multiset<T>, c: multiset<T>)
    ensures a + (b + c) == b + (a + c)
  {
  }

  lemma RemovedTail(b: seq<seq<Finding>>, j: nat)
    requires 0 < j < |b|
    ensures var r := b[..j] + b[j + 1..]; r != [] && r[0] == b[0] && r[1..] == b[1..][..j - 1] + b[1..][j..]
  {
  }

  lemma DedupEachCons(b: seq<seq<Finding>>)
    requires b != []
    ensures multiset(DedupEach(b)) == multiset(Dedup(b[0], {})) + multiset(DedupEach(b[1..]))
  {
  }

  lemma {:induction false} DedupEachRemove(b: seq<seq<Finding>>, j: nat)
    requires j < |b|
    ensures multiset(DedupEach(b)) == multiset(Dedup(b[j], {})) + multiset(DedupEach(b[..j] + b[j + 1..]))
  {
    var r := b[..j] + b[j + 1..];
    if j == 0 {
      assert r == b[1..];
      DedupEachCons(b);
    } else {
      var rest := b[1..];
      DedupEachRemove(rest, j - 1);
      RemovedTail(b, j);
      DedupEachCons(b);
      DedupEachCons(r);
      Swap(multiset(Dedup(b[0], {})), multiset(Dedup(b[j], {})), multiset(DedupEach(r[1..])));
    }
  }

  lemma RemoveOne<T>(s: seq<T>, j: nat)
    requires j < |s|
    ensures multiset(s[..j] + s[j + 1..]) == multiset(s) - multiset{s[j]}
  {
    assert s == s[..j] + [s[j]] + s[j + 1..];
  }

  lemma {:induction false} DedupEachPermutes(a: seq<seq<Finding>>, b: seq<seq<Finding>>)
    requires multiset(a) == multiset(b)
    ensures multiset(DedupEach(a)) == multiset(DedupEach(b))
  {
    if a == [] {
      assert |multiset(b)| == 0;
    } else {
      assert a[0] in multiset(b);
      var j :| 0 <= j < |b| && b[j] == a[0];
      RemoveOne(a, 0);
      RemoveOne(b, j);
      assert a[..0] + a[1..] == a[1..];
      DedupEachPermutes(a[1..], b[..j] + b[j + 1..]);
      DedupEachRemove(b, j);
      DedupEachCons(a);
    }
  }

  /** Two arrival orders of the same answers give permutations of the same result. */
  lemma ScanOrderPermutes(a: seq<seq<Finding>>, b: seq<seq<Finding>>)
    requires SeparateSources(a) && SeparateSources(b) && multiset(a) == multiset(b)
    ensures multiset(Dedup(Flatten(a), {})) == multiset(Dedup(Flatten(b), {}))
  {
    DedupSplits(a);
    DedupSplits(b);
    DedupEachPermutes(a, b);
  }

  // ---------------------------------------------------------------- EPSS enrichment

  /** `Enrich` fills in the scores fetched for some vulnerability ids. */
  function Enriched(vs: seq<Finding>, scores: map<string, real>): (r: seq<Finding>)
    ensures |r| == |vs|
    ensures forall i :: 0 <= i < |vs| ==> r[i] == (if vs[i].id in scores then vs[i].(epss := scores[vs[i].id]) else vs[i])
  {
    seq(|vs|, i requires 0 <= i < |vs| => if vs[i].id in scores then vs[i].(epss := scores[vs[i].id]) else vs[i])
  }

  // ---------------------------------------------------------------- rules

  datatype RuleType = CvssMax | EpssMax | CvssSum | CvssEpssSum | Unknown

  datatype Rule = Rule(repoType: string, ruleType: RuleType, threshold: real, enabled: bool)

  datatype Message =
    | CvssAbove(cvss: real, threshold: real, id: string)
    | EpssAbove(epss: real, threshold: real, id: string)
    | CvssSumAbove(sum: real, threshold: real)
    | CvssEpssSumAbove(sum: real, threshold: real)

  /** The number a sum rule adds up, per finding. */
  function Score(product: bool, f: Finding): real {
    if product then f.cvss * f.epss else f.cvss
  }

  /** Go's read of an absent map entry. */
  function At(m: map<string, real>, id: string): real {
    if id in m then m[id] else 0.0
  }

  function Raised(best: map<string, real>, product: bool, f: Finding): map<string, real> {
    if Score(product, f) > At(best, f.id) then best[f.id := Score(product, f)] else best
  }

  /** The `best` map after the findings. */
  function Best(product: bool, fs: seq<Finding>): map<string, real> {
    if fs == [] then map[] else Raised(Best(product, fs[..|fs| - 1]), product, fs[|fs| - 1])
  }

  /** `best` holds the largest positive score of every id that has one, and nothing else. */
  ghost predicate IsBest(product: bool, fs: seq<Finding>, best: map<string, real>) {
    && (forall f :: f in fs ==> Score(product, f) <= At(best, f.id))
    && (forall id :: id in best ==> best[id] > 0.0 && exists f :: f in fs && f.id == id && Score(product, f) == best[id])
  }

  lemma {:induction false} BestIsBest(product: bool, fs: seq<Finding>)
    ensures IsBest(product, fs, Best(product, fs))
  {
    if fs != [] {
      var front, last := fs[..|fs| - 1], fs[|fs| - 1];
      BestIsBest(product, front);
      assert fs == front + [last];
      var best := Best(product, fs);
      forall id | id in best ensures best[id] > 0.0 && exists f :: f in fs && f.id == id && Score(product, f) == best[id] {
        if best[id] == Score(product, last) && id == last.id {
          assert last in fs;
          assert 0.0 < best[id];
        } else {
          var f :| f in front && f.id == id && Score(product, f) == Best(product, front)[id];
          assert f in fs;
        }
      }
    }
  }

  /** The plain sum rule adds, for every id, the largest positive CVSS score reported for it. */
  lemma CvssEntry(fs: seq<Finding>, id: string)
    ensures var best := Best(false, fs);
            && (id in best <==> exists f :: f in fs && f.id == id && f.cvss > 0.0)
            && (id in best ==> (forall f :: f in fs && f.id == id ==> f.cvss <= best[id]) && exists f :: f in fs && f.id == id && f.cvss == best[id])
  {
    BestIsBest(false, fs);
  }

  /** The other sum rule adds the largest positive product of CVSS and EPSS score. */
  lemma ProductEntry(fs: seq<Finding>, id: string)
    ensures var best := Best(true, fs);
            && (id in best <==> exists f :: f in fs && f.id == id && f.cvss * f.epss > 0.0)
            && (id in best ==> (forall f :: f in fs && f.id == id ==> f.cvss * f.epss <= best[id]) && exists f :: f in fs && f.id == id && f.cvss * f.epss == best[id])
  {
    BestIsBest(true, fs);
  }

  ghost function Sum(m: map<string, real>): real {
    if m == map[] then 0.0
    else
      var k :| k in m;
      m[k] + Sum(m - {k})
  }

  /** The sum may take its terms in any order. */
  lemma {:induction false} SumPick(m: map<string, real>, k: string)
    requires k in m
    ensures Sum(m) == m[k] + Sum(m - {k})
    decreases |m|
  {
    var l :| l in m && Sum(m) == m[l] + Sum(m - {l});
    if l != k {
      SumPick(m - {l}, k);
      SumPick(m - {k}, l);
      assert m - {l} - {k} == m - {k} - {l};
    }
  }

  /** A smaller map, or smaller entries, of non-negative numbers sums to no more. */
  lemma {:induction false} SumMonotone(m: map<string, real>, n: map<string, real>)
    requires forall k :: k in m ==> k in n && m[k] <= n[k]
    requires forall k :: k in n ==> 0.0 <= n[k]
    ensures Sum(m) <= Sum(n)
    decreases |n|
  {
    if n == map[] {
      assert m == map[];
    } else {
      var k :| k in n;
      SumPick(n, k);
      SumMonotone(m - {k}, n - {k});
      if k in m {
        SumPick(m, k);
      } else {
        assert m - {k} == m;
      }
    }
  }

  /** A rule fires: some finding exceeds its threshold, or the sum of the best scores does. */
  ghost predicate Fires(rule: Rule, fs: seq<Finding>) {
    match rule.ruleType
    case CvssMax => exists f :: f in fs && f.cvss > rule.threshold
    case EpssMax => exists f :: f in fs && f.epss > rule.threshold
    case CvssSum => Sum(Best(false, fs)) > rule.threshold
    case CvssEpssSum => Sum(Best(true, fs)) > rule.threshold
    case Unknown => false
  }

  /** The loop over the map, in whatever order it yields its keys. */
  method AddUp(best: map<string, real>) returns (sum: real)
    ensures sum == Sum(best)
  {
    sum := 0.0;
    var left := best;
    while left != map[]
      invariant sum + Sum(left) == Sum(best)
      decreases |left|
    {
      var k :| k in left;
      SumPick(left, k);
      sum := sum + left[k];
      left := left - {k};
    }
  }

  /** The two sum rules: fill `best`, then add it up. */
  method SumOfBest(product: bool, findings: seq<Finding>) returns (sum: real)
    ensures sum == Sum(Best(product, findings))
  {
    var best: map<string, real> := map[];
    var i := 0;
    assert findings[..0] == [];
    while i < |findings|
      invariant 0 <= i <= |findings| && best == Best(product, findings[..i])
    {
      var f := findings[i];
      assert findings[..i + 1][..i] == findings[..i];
      if Score(product, f) > At(best, f.id) {
        best := best[f.id := Score(product, f)];
      }
      i := i + 1;
    }
    assert findings[..i] == findings;
    sum := AddUp(best);
  }

  /** The message names the threshold and the first finding, or the sum, that exceeds it. */
  ghost predicate Names(msg: Message, rule: Rule, findings: seq<Finding>) {
    && msg.threshold == rule.threshold
    && match rule.ruleType
       case CvssMax =>
         && msg.CvssAbove?
         && (exists i: nat :: i < |findings| && findings[i].id == msg.id && findings[i].cvss == msg.cvss > rule.threshold
                              && forall j :: 0 <= j < i ==> findings[j].cvss <= rule.threshold)
       case EpssMax =>
         && msg.EpssAbove?
         && (exists i: nat :: i < |findings| && findings[i].id == msg.id && findings[i].epss == msg.epss > rule.threshold
                              && forall j :: 0 <= j < i ==> findings[j].epss <= rule.threshold)
       case CvssSum => msg.CvssSumAbove? && msg.sum == Sum(Best(false, findings)) > rule.threshold
       case CvssEpssSum => msg.CvssEpssSumAbove? && msg.sum == Sum(Best(true, findings)) > rule.threshold
       case Unknown => false
  }

  method CheckRule(rule: Rule, findings: seq<Finding>) returns (msg: Option<Message>)
    ensures msg.Some? <==> Fires(rule, findings)
    ensures msg.Some? ==> Names(msg.value, rule, findings)
  {
    match rule.ruleType {
      case CvssMax =>
        for i := 0 to |findings|
          invariant forall j :: 0 <= j < i ==> findings[j].cvss <= rule.threshold
        {
          if findings[i].cvss > rule.threshold {
            return Some(CvssAbove(findings[i].cvss, rule.threshold, findings[i].id));
          }
        }
      case EpssMax =>
        for i := 0 to |findings|
          invariant forall j :: 0 <= j < i ==> findings[j].epss <= rule.threshold
        {
          if findings[i].epss > rule.threshold {
            return Some(EpssAbove(findings[i].epss, rule.threshold, findings[i].id));
          }
        }
      case CvssSum =>
        var sum := SumOfBest(false, findings);
        if sum > rule.threshold {
          return Some(CvssSumAbove(sum, rule.threshold));
        }
      case CvssEpssSum =>
        var sum := SumOfBest(true, findings);
        if sum > rule.threshold {
          return Some(CvssEpssSumAbove(sum, rule.threshold));
        }
      case Unknown =>
    }
    return None;
  }

  predicate Applies(rule: Rule, repoType: string) {
    rule.enabled && (rule.repoType == repoType || rule.repoType == "*")
  }

  /** The verdict that approves automatically: rules apply, and none fires. */
  ghost predicate Passes(rules: seq<Rule>, repoType: string, fs: seq<Finding>) {
    && (exists r :: r in rules && Applies(r, repoType))
    && (forall r :: r in rules && Applies(r, repoType) ==> !Fires(r, fs))
  }

  /** The rules that apply and fire, in order. */
  ghost function Firing(rules: seq<Rule>, repoType: string, fs: seq<Finding>): seq<Rule> {
    if rules == [] then []
    else
      var last := rules[|rules| - 1];
      Firing(rules[..|rules| - 1], repoType, fs) + if Applies(last, repoType) && Fires(last, fs) then [last] else []
  }

  lemma {:induction false} FiringInOrder(a: seq<Rule>, b: seq<Rule>, repoType: string, fs: seq<Finding>)
    ensures Firing(a + b, repoType, fs) == Firing(a, repoType, fs) + Firing(b, repoType, fs)
  {
    if b == [] {
      assert a + b == a;
    } else {
      assert (a + b)[..|a + b| - 1] == a + b[..|b| - 1];
      FiringInOrder(a, b[..|b| - 1], repoType, fs);
    }
  }

  ghost predicate AllNamed(msgs: seq<Message>, rules: seq<Rule>, fs: seq<Finding>) {
    |msgs| == |rules| && forall i :: 0 <= i < |msgs| ==> Names(msgs[i], rules[i], fs)
  }

  method Evaluate(rules: seq<Rule>, repoType: string, findings: seq<Finding>)
    returns (hasRules: bool, triggered: seq<Message>)
    ensures hasRules && triggered == [] <==> Passes(rules, repoType, findings)
    ensures hasRules <==> exists r :: r in rules && Applies(r, repoType)
    ensures |triggered| == |Firing(rules, repoType, findings)|
    ensures forall i :: 0 <= i < |triggered| ==> Names(triggered[i], Firing(rules, repoType, findings)[i], findings)
  {
    hasRules, triggered := false, [];
    assert rules[..0] == [];
    for i := 0 to |rules|
      invariant AllNamed(triggered, Firing(rules[..i], repoType, findings), findings)
      invariant hasRules <==> exists j :: 0 <= j < i && Applies(rules[j], repoType)
      invariant triggered == [] <==> forall j :: 0 <= j < i && Applies(rules[j], repoType) ==> !Fires(rules[j], findings)
    {
      if Applies(rules[i], repoType) {
        hasRules := true;
        var msg := CheckRule(rules[i], findings);
        if msg.Some? {
          triggered := triggered + [msg.value];
        }
      }
      assert rules[..i + 1][..i] == rules[..i];
    }
    assert rules[..|rules|] == rules;
  }

  /** All findings are about one vulnerability, whose largest score is `top`. */
  ghost predicate OneId(product: bool, fs: seq<Finding>, id: string, top: real) {
    && (forall f :: f in fs ==> f.id == id && (if product then f.cvss * f.epss else f.cvss) <= top)
    && (exists f :: f in fs && (if product then f.cvss * f.epss else f.cvss) == top)
  }

  lemma SumOfOneId(product: bool, fs: seq<Finding>, id: string, top: real)
    requires OneId(product, fs, id, top)
    ensures Sum(Best(product, fs)) == if top > 0.0 then top else 0.0
  {
    var best := Best(product, fs);
    BestIsBest(product, fs);
    if product {
      ProductEntry(fs, id);
    } else {
      CvssEntry(fs, id);
    }
    if top > 0.0 {
      assert best == map[id := top];
      SumPick(best, id);
      assert best - {id} == map[];
    } else {
      assert best == map[];
    }
  }

  /** For the findings of one id, a sum rule fires exactly if their largest score, or 0, exceeds
      the threshold; the score is the CVSS score, or its product with the EPSS score. */
  lemma FiresOnOneId(rule: Rule, fs: seq<Finding>, id: string, top: real)
    requires rule.ruleType == CvssSum || rule.ruleType == CvssEpssSum
    requires OneId(rule.ruleType == CvssEpssSum, fs, id, top)
    ensures Fires(rule, fs) <==> top > rule.threshold || 0.0 > rule.threshold
  {
    SumOfOneId(rule.ruleType == CvssEpssSum, fs, id, top);
  }

  lemma UnionWithout(m: map<string, real>, n: map<string, real>, k: string)
    requires k in m && k !in n
    ensures (m + n) - {k} == (m - {k}) + n && (m + n)[k] == m[k]
  {
  }

  lemma {:induction false} SumOfUnion(m: map<string, real>, n: map<string, real>)
    requires m.Keys !! n.Keys
    ensures Sum(m + n) == Sum(m) + Sum(n)
    decreases |m|
  {
    if m == map[] {
      assert m + n == n;
    } else {
      var k :| k in m;
      UnionWithout(m, n, k);
      SumOfUnion(m - {k}, n);
      SumPick(m, k);
      SumPick(m + n, k);
    }
  }

  lemma BestIds(product: bool, fs: seq<Finding>)
    ensures forall id :: id in Best(product, fs) ==> exists f :: f in fs && f.id == id
  {
    BestIsBest(product, fs);
  }

  lemma RaisedUnion(m: map<string, real>, n: map<string, real>, product: bool, f: Finding)
    requires f.id !in m
    ensures Raised(m + n, product, f) == m + Raised(n, product, f)
  {
  }

  lemma {:induction false} BestOfUnion(product: bool, a: seq<Finding>, b: seq<Finding>)
    requires forall f :: f in b ==> f.id !in Best(product, a)
    ensures Best(product, a + b) == Best(product, a) + Best(product, b)
  {
    if b == [] {
      assert a + b == a;
    } else {
      var front, last := b[..|b| - 1], b[|b| - 1];
      assert (a + b)[..|a + b| - 1] == a + front && (a + b)[|a + b| - 1] == last;
      assert last in b && forall f :: f in front ==> f in b;
      BestOfUnion(product, a, front);
      RaisedUnion(Best(product, a), Best(product, front), product, last);
    }
  }

  /** Findings about different vulnerabilities add up, whatever the order of all of them. */
  lemma SumOfSeparateIds(product: bool, a: seq<Finding>, b: seq<Finding>)
    requires forall f, g :: f in a && g in b ==> f.id != g.id
    ensures Sum(Best(product, a + b)) == Sum(Best(product, a)) + Sum(Best(product, b))
  {
    BestIds(product, a);
    BestIds(product, b);
    BestOfUnion(product, a, b);
    SumOfUnion(Best(product, a), Best(product, b));
  }

  /** What fires on a single finding: thresholds must be exceeded, and unknown types never fire. */
  lemma FiresOnOne(rule: Rule, f: Finding)
    ensures Fires(rule, [f]) <==>
      match rule.ruleType
      case CvssMax => f.cvss > rule.threshold
      case EpssMax => f.epss > rule.threshold
      case CvssSum => f.cvss > rule.threshold || 0.0 > rule.threshold
      case CvssEpssSum => f.cvss * f.epss > rule.threshold || 0.0 > rule.threshold
      case Unknown => false
  {
    assert f in [f];
    if rule.ruleType == CvssSum {
      FiresOnOneId(rule, [f], f.id, f.cvss);
    } else if rule.ruleType == CvssEpssSum {
      FiresOnOneId(rule, [f], f.id, f.cvss * f.epss);
    }
  }

  /** A rule about single scores fires on a list exactly if it fires on one of its findings. */
  lemma FiresOnSome(rule: Rule, fs: seq<Finding>)
    requires rule.ruleType == CvssMax || rule.ruleType == EpssMax
    ensures Fires(rule, fs) <==> exists f :: f in fs && Fires(rule, [f])
  {
    forall f | f in fs ensures Fires(rule, [f]) <==> if rule.ruleType == CvssMax then f.cvss > rule.threshold else f.epss > rule.threshold {
      FiresOnOne(rule, f);
    }
  }

  /** One more rule, wherever it stands in the list: disabled, or for another repository type,
      it changes nothing; otherwise it must not fire, and makes rules apply. */
  lemma RuleAdded(a: seq<Rule>, r: Rule, b: seq<Rule>, repoType: string, fs: seq<Finding>)
    ensures Passes(a + [r] + b, repoType, fs) <==>
      if r.enabled && (r.repoType == repoType || r.repoType == "*")
      then !Fires(r, fs) && forall s :: s in a + b && Applies(s, repoType) ==> !Fires(s, fs)
      else Passes(a + b, repoType, fs)
  {
    assert r in a + [r] + b;
    assert forall s :: s in a + [r] + b <==> s == r || s in a + b;
  }

  ghost predicate Within(fs: seq<Finding>, gs: seq<Finding>) {
    forall f :: f in fs ==> f in gs
  }

  lemma BestMonotone(product: bool, fs: seq<Finding>, gs: seq<Finding>)
    requires Within(fs, gs)
    ensures Sum(Best(product, fs)) <= Sum(Best(product, gs))
  {
    BestIsBest(product, fs);
    BestIsBest(product, gs);
    var b, c := Best(product, fs), Best(product, gs);
    forall id | id in b ensures id in c && b[id] <= c[id] {
      var f :| f in fs && f.id == id && Score(product, f) == b[id];
      assert f in gs;
    }
    SumMonotone(b, c);
  }

  /** More findings can only make a rule fire. */
  lemma FiresMonotone(rule: Rule, fs: seq<Finding>, gs: seq<Finding>)
    requires Within(fs, gs) && Fires(rule, fs)
    ensures Fires(rule, gs)
  {
    match rule.ruleType
    case CvssSum => BestMonotone(false, fs, gs);
    case CvssEpssSum => BestMonotone(true, fs, gs);
    case CvssMax =>
      var f :| f in fs && f.cvss > rule.threshold;
      assert f in gs;
    case EpssMax =>
      var f :| f in fs && f.epss > rule.threshold;
      assert f in gs;
    case Unknown =>
  }

  /** What passes still passes with fewer findings. */
  lemma PassesMonotone(rules: seq<Rule>, repoType: string, fs: seq<Finding>, gs: seq<Finding>)
    requires Within(fs, gs) && Passes(rules, repoType, gs)
    ensures Passes(rules, repoType, fs)
  {
    forall r | r in rules && Applies(r, repoType) ensures !Fires(r, fs) {
      if Fires(r, fs) {
        FiresMonotone(r, fs, gs);
      }
    }
  }

  /** The verdict does not depend on the order in which the scanners answered. */
  lemma VerdictIgnoresOrder(a: seq<seq<Finding>>, b: seq<seq<Finding>>, scores: map<string, real>, rules: seq<Rule>, repoType: string)
    requires SeparateSources(a) && SeparateSources(b) && multiset(a) == multiset(b)
    ensures Passes(rules, repoType, Enriched(Dedup(Flatten(a), {}), scores)) <==>
            Passes(rules, repoType, Enriched(Dedup(Flatten(b), {}), scores))
  {
    ScanOrderPermutes(a, b);
    var x, y := Dedup(Flatten(a), {}), Dedup(Flatten(b), {});
    assert forall v :: v in x <==> v in multiset(x);
    assert forall v :: v in y <==> v in multiset(y);
    EnrichedWithin(x, y, scores);
    EnrichedWithin(y, x, scores);
    if Passes(rules, repoType, Enriched(x, scores)) {
      PassesMonotone(rules, repoType, Enriched(y, scores), Enriched(x, scores));
    }
    if Passes(rules, repoType, Enriched(y, scores)) {
      PassesMonotone(rules, repoType, Enriched(x, scores), Enriched(y, scores));
    }
  }

  lemma EnrichedWithin(x: seq<Finding>, y: seq<Finding>, scores: map<string, real>)
    requires Within(x, y)
    ensures Within(Enriched(x, scores), Enriched(y, scores))
  {
    forall e | e in Enriched(x, scores) ensures e in Enriched(y, scores) {
      var i :| 0 <= i < |x| && Enriched(x, scores)[i] == e;
      assert x[i] in y;
      var j :| 0 <= j < |y| && y[j] == x[i];
      assert Enriched(y, scores)[j] == e;
    }
  }

  // ---------------------------------------------------------------- stored findings

  /** `security_findings`, under its composite primary key. */
  type Stored = map<(string, string, string), Finding>

  function Upserts(store: Stored, request: string, fs: seq<Finding>): Stored {
    if fs == [] then store
    else
      var f := fs[|fs| - 1];
      Upserts(store, request, fs[..|fs| - 1])[(request, f.id, f.source) := f]
  }

  /** The saving loop, one upsert per finding. */
  method SaveFindings(store: Stored, request: string, findings: seq<Finding>) returns (r: Stored)
    ensures r == Upserts(store, request, findings)
  {
    r := store;
    assert findings[..0] == [];
    for i := 0 to |findings|
      invariant r == Upserts(store, request, findings[..i])
    {
      assert findings[..i + 1][..i] == findings[..i];
      r := r[(request, findings[i].id, findings[i].source) := findings[i]];
    }
    assert findings[..|findings|] == findings;
  }

  /** `rows` is what `GetAllFindings` groups under `request`, in some order. */
  ghost predicate Lists(store: Stored, request: string, rows: seq<Finding>) {
    forall f :: f in rows <==> exists k :: k in store && k.0 == request && store[k] == f
  }

  /** Saving findings with distinct keys stores each of them, and touches no other entry. */
  lemma UpsertsKeep(store: Stored, request: string, fs: seq<Finding>)
    requires DistinctPairs(fs)
    ensures var r := Upserts(store, request, fs);
            && (forall f :: f in fs ==> (request, f.id, f.source) in r && r[(request, f.id, f.source)] == f)
            && (forall k :: k in r ==> (k in store && r[k] == store[k]) || (k.0 == request && r[k] in fs))
            && (forall k :: k in store ==> k in r)
  {
    forall i | 0 <= i < |fs|
      ensures (request, fs[i].id, fs[i].source) in Upserts(store, request, fs)
      ensures Upserts(store, request, fs)[(request, fs[i].id, fs[i].source)] == fs[i]
    {
      UpsertsStore(store, request, fs, i);
    }
    UpsertsOnly(store, request, fs);
  }

  lemma {:induction false} UpsertsStore(store: Stored, request: string, fs: seq<Finding>, i: nat)
    requires DistinctPairs(fs) && i < |fs|
    ensures var r, k := Upserts(store, request, fs), (request, fs[i].id, fs[i].source); k in r && r[k] == fs[i]
    decreases |fs|
  {
    var n := |fs| - 1;
    if i < n {
      UpsertsStore(store, request, fs[..n], i);
    }
  }

  lemma {:induction false} UpsertsOnly(store: Stored, request: string, fs: seq<Finding>)
    ensures var r := Upserts(store, request, fs);
            && (forall k :: k in r ==> (k in store && r[k] == store[k]) || (k.0 == request && r[k] in fs))
            && (forall k :: k in store ==> k in r)
  {
    if fs != [] {
      var n := |fs| - 1;
      UpsertsOnly(store, request, fs[..n]);
      assert fs[n] in fs && forall f :: f in fs[..n] ==> f in fs;
    }
  }

  /** The stored findings never pass where the latest scan does not; after a first scan
      the two verdicts are the same. */
  lemma RescanIsNoMorePermissive(store: Stored, request: string, latest: seq<Finding>, rows: seq<Finding>,
                                 rules: seq<Rule>, repoType: string)
    requires DistinctPairs(latest) && Lists(Upserts(store, request, latest), request, rows)
    ensures Passes(rules, repoType, rows) ==> Passes(rules, repoType, latest)
    ensures (forall k :: k in store ==> k.0 != request) ==> (Passes(rules, repoType, rows) <==> Passes(rules, repoType, latest))
  {
    UpsertsKeep(store, request, latest);
    var r := Upserts(store, request, latest);
    forall f | f in latest ensures f in rows {
      assert (request, f.id, f.source) in r;
    }
    if Passes(rules, repoType, rows) {
      PassesMonotone(rules, repoType, latest, rows);
    }
    if (forall k :: k in store ==> k.0 != request) && Passes(rules, repoType, latest) {
      assert Within(rows, latest);
      PassesMonotone(rules, repoType, rows, latest);
    }
  }

  /** The verdict on a request's stored findings, which any listing of them gives. */
  ghost predicate PassesStored(rules: seq<Rule>, store: Stored, request: string, repoType: string) {
    exists rows :: Lists(store, request, rows) && Passes(rules, repoType, rows)
  }

  lemma ListingsAgree(rules: seq<Rule>, store: Stored, request: string, repoType: string, rows: seq<Finding>)
    requires Lists(store, request, rows)
    ensures Passes(rules, repoType, rows) <==> PassesStored(rules, store, request, repoType)
  {
    if other :| Lists(store, request, other) && Passes(rules, repoType, other) {
      PassesMonotone(rules, repoType, rows, other);
    }
  }

  /** A row without findings passes exactly when rules apply and none of them is a sum rule
      with a negative threshold. */
  lemma NoFindingsPass(rules: seq<Rule>, repoType: string)
    ensures Passes(rules, repoType, []) <==>
            && (exists r :: r in rules && Applies(r, repoType))
            && (forall r :: r in rules && Applies(r, repoType) && (r.ruleType == CvssSum || r.ruleType == CvssEpssSum) ==> 0.0 <= r.threshold)
  {
    assert Best(false, []) == map[] && Best(true, []) == map[];
    assert Sum(map[]) == 0.0;
    assert forall r: Rule :: Fires(r, []) <==> (r.ruleType == CvssSum || r.ruleType == CvssEpssSum) && 0.0 > r.threshold;
  }
}
