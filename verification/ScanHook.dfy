/** The scan hook as one piece: statuses, findings, verdict and notification in the order it
    writes them. `ScanWait` interleaves these writes with waiting requests. */
module ScanHook {
  import opened Wrappers
  import Q = Quarantine
  import opened QuarantineDb
  import ScanWait
  import opened Verdict

  /** The request as the hook was handed it when the row was inserted. */
  datatype Request = Request(id: string, key: string, repoType: string, requireHuman: bool)

  /** What the scanners found, in arrival order, with the EPSS scores filled in. */
  function Latest(answers: seq<seq<Finding>>, scores: map<string, real>): seq<Finding> {
    Enriched(Dedup(Flatten(answers), {}), scores)
  }

  /** Whether the hook is going to ask for approval. */
  ghost predicate WillApprove(req: Request, answers: Result<seq<seq<Finding>>, string>, scores: map<string, real>, rules: seq<Rule>) {
    answers.Ok? && !req.requireHuman && Passes(rules, req.repoType, Latest(answers.value, scores))
  }

  /** The row the hook was started for still has its id, whatever its status. Its flag may
      differ from the one the hook was handed, if the row was revived. */
  ghost predicate Stands(t: Q.Table, req: Request) {
    Q.UniqueIds(t) && req.key in t.rows && t.rows[req.key].id == req.id
  }

  /** The row is approved after a decision taken when the table was `t`. */
  ghost predicate Approves(t: Q.Table, req: Request, asks: bool)
    requires Stands(t, req)
  {
    Q.StatusIs(t, req.key, Q.Approved) || (asks && !t.rows[req.key].requireHuman)
  }

  method Enrich(vulns: seq<Finding>, scores: map<string, real>) returns (enriched: seq<Finding>)
    ensures enriched == Enriched(vulns, scores)
  {
    enriched := [];
    for i := 0 to |vulns|
      invariant enriched == Enriched(vulns, scores)[..i]
    {
      var v := vulns[i];
      enriched := enriched + [if v.id in scores then v.(epss := scores[v.id]) else v];
    }
  }

  /** What the decision does to the store: nothing if a person is required or no rule applies;
      one automatic approval if all rules pass; else one comment, worded from one message for
      every rule that applies and fires, in order. */
  ghost predicate Decides(ops: seq<Q.Op>, after: seq<Q.Op>, req: Request, findings: seq<Finding>, rules: seq<Rule>, describe: seq<Message> -> string) {
    if req.requireHuman || !exists r :: r in rules && Applies(r, req.repoType) then after == ops
    else if Passes(rules, req.repoType, findings) then after == ops + [Q.Approve(req.id, "auto", "all security rules passed")]
    else
      exists msgs :: AllNamed(msgs, Firing(rules, req.repoType, findings), findings) && after == ops + [Q.SetComment(req.id, describe(msgs))]
  }

  /** The last part: rules, approval or comment. `describe` words the triggered rules. */
  method Decide(q: QuarantineStore, req: Request, findings: seq<Finding>, rules: seq<Rule>, describe: seq<Message> -> string)
    requires q.Valid()
    modifies q`rows, q`audit, q`tables, q`ops
    ensures q.Valid() && old(q.tables) <= q.tables && Decides(old(q.ops), q.ops, req, findings, rules, describe)
    ensures old(Stands(q.Now(), req)) ==>
              (q.IsApproved(req.key) <==> Approves(old(q.Now()), req, !req.requireHuman && Passes(rules, req.repoType, findings)))
  {
    if !req.requireHuman {
      var hasRules, triggered := Evaluate(rules, req.repoType, findings);
      if hasRules {
        if triggered == [] {
          var _ := q.Approve(req.id, "auto", "all security rules passed");
        } else {
          q.SetComment(req.id, describe(triggered));
        }
      }
    }
    if Stands(old(q.Now()), req) {
      Decided(old(q.Now()), q.Now(), old(q.ops), q.ops, req, findings, rules, describe);
    }
  }

  /** The middle part: scan, enrich, save the findings, and only then write "done". */
  method ScanAndSave(q: QuarantineStore, id: string, answers: seq<seq<Finding>>, scores: map<string, real>) returns (findings: seq<Finding>)
    modifies q`findings, q`scans, q`writes
    ensures q.writes == old(q.writes) + [FindingsWrite(id, findings, |q.ops|), StatusWrite(id, ScanWait.Done, |q.ops|)]
    ensures findings == Latest(answers, scores)
    ensures q.findings == Upserts(old(q.findings), id, findings) && q.scans == old(q.scans)[id := ScanWait.Done]
  {
    var vulns := Scan(answers);
    findings := Enrich(vulns, scores);
    q.SaveFindings(id, findings);
    q.SetScanStatus(id, ScanWait.Done);
  }

  /** What a scan writes, in order. */
  function ScanWrites(id: string, answers: Result<seq<seq<Finding>>, string>, scores: map<string, real>, after: nat): seq<Write> {
    [StatusWrite(id, ScanWait.Scanning, after)] +
    if answers.Ok? then [FindingsWrite(id, Latest(answers.value, scores), after), StatusWrite(id, ScanWait.Done, after)]
    else [StatusWrite(id, ScanWait.Error, after)]
  }

  /** The statuses "scanning" and then "done" or "error", and the findings if there are any. */
  method ScanFor(q: QuarantineStore, id: string, answers: Result<seq<seq<Finding>>, string>, scores: map<string, real>)
    returns (outcome: Option<seq<Finding>>)
    modifies q`findings, q`scans, q`writes
    ensures q.writes == old(q.writes) + ScanWrites(id, answers, scores, |q.ops|)
    ensures outcome == if answers.Ok? then Some(Latest(answers.value, scores)) else None
    ensures q.scans == old(q.scans)[id := if answers.Ok? then ScanWait.Done else ScanWait.Error]
    ensures q.findings == if answers.Ok? then Upserts(old(q.findings), id, Latest(answers.value, scores)) else old(q.findings)
  {
    q.SetScanStatus(id, ScanWait.Scanning);
    if answers.Err? {
      q.SetScanStatus(id, ScanWait.Error);
      return None;
    }
    var findings := ScanAndSave(q, id, answers.value, scores);
    return Some(findings);
  }

  /** The decision, after what other actors have done to the store meanwhile. */
  method DecideAmid(q: QuarantineStore, req: Request, outcome: Option<seq<Finding>>, rules: seq<Rule>,
                    describe: seq<Message> -> string, others: seq<Q.Op>) returns (ghost decided: Q.Table)
    requires q.Valid()
    modifies q`rows, q`audit, q`tables, q`ops
    ensures q.Valid() && old(q.tables) <= q.tables
    ensures old(q.ops) + others <= q.ops
    ensures |old(q.ops)| + |others| < |q.tables| && decided == q.tables[|old(q.ops)| + |others|]
    ensures if outcome.None? then q.ops == old(q.ops) + others
            else Decides(old(q.ops) + others, q.ops, req, outcome.value, rules, describe)
    ensures Stands(decided, req) ==>
      (q.IsApproved(req.key) <==> Approves(decided, req, outcome.Some? && !req.requireHuman && Passes(rules, req.repoType, outcome.value)))
  {
    q.Others(others);
    decided := q.Now();
    if outcome.Some? {
      Decide(q, req, outcome.value, rules, describe);
    }
  }

  /** The hook up to its notification. */
  method ScanAndDecide(q: QuarantineStore, req: Request, answers: Result<seq<seq<Finding>>, string>, scores: map<string, real>,
                       rules: seq<Rule>, describe: seq<Message> -> string, others: seq<Q.Op>) returns (ghost decided: Q.Table)
    requires q.Valid()
    modifies q`rows, q`audit, q`tables, q`ops, q`findings, q`scans, q`writes
    ensures q.Valid() && old(q.tables) <= q.tables && old(q.ops) + others <= q.ops
    ensures |old(q.ops)| + |others| < |q.tables| && decided == q.tables[|old(q.ops)| + |others|]
    ensures q.scans == old(q.scans)[req.id := if answers.Ok? then ScanWait.Done else ScanWait.Error]
    ensures q.writes == old(q.writes) + ScanWrites(req.id, answers, scores, |old(q.ops)|)
    ensures q.findings == if answers.Ok? then Upserts(old(q.findings), req.id, Latest(answers.value, scores)) else old(q.findings)
    ensures if answers.Err? then q.ops == old(q.ops) + others
            else Decides(old(q.ops) + others, q.ops, req, Latest(answers.value, scores), rules, describe)
    ensures Stands(decided, req) ==> (q.IsApproved(req.key) <==> Approves(decided, req, WillApprove(req, answers, scores, rules)))
  {
    var outcome := ScanFor(q, req.id, answers, scores);
    decided := DecideAmid(q, req, outcome, rules, describe, others);
  }

  /** One run of the hook; `others` is what other actors do to the store until it decides, and
      `decided` the table at that moment. A row that still has its id ends approved exactly if
      it was approved already, or the scan succeeded, neither the artifact nor the row requires
      a person, rules apply and none fires. Whatever happens, the scan ends and everybody
      waiting is signalled. */
  method Run(q: QuarantineStore, req: Request, answers: Result<seq<seq<Finding>>, string>, scores: map<string, real>,
             rules: seq<Rule>, describe: seq<Message> -> string, others: seq<Q.Op>) returns (ghost decided: Q.Table)
    requires q.Valid()
    modifies q
    ensures q.Valid() && old(q.tables) <= q.tables
    ensures old(q.ops) + others <= q.ops
    ensures |old(q.ops)| + |others| < |q.tables| && decided == q.tables[|old(q.ops)| + |others|]
    ensures q.scans == old(q.scans)[req.id := if answers.Ok? then ScanWait.Done else ScanWait.Error]
    ensures q.writes == old(q.writes) + ScanWrites(req.id, answers, scores, |old(q.ops)|) + [Notification(req.id, |q.ops|)]
    ensures q.subs == ScanWait.Taken(old(q.subs), req.id)
    ensures forall c :: c in ScanWait.Chans(old(q.subs), req.id) ==> c in q.full
    ensures q.findings == if answers.Ok? then Upserts(old(q.findings), req.id, Latest(answers.value, scores)) else old(q.findings)
    ensures if answers.Err? then q.ops == old(q.ops) + others
            else Decides(old(q.ops) + others, q.ops, req, Latest(answers.value, scores), rules, describe)
    ensures Stands(decided, req) ==> (q.IsApproved(req.key) <==> Approves(decided, req, WillApprove(req, answers, scores, rules)))
  {
    decided := ScanAndDecide(q, req, answers, scores, rules, describe, others);
    q.NotifyScanDone(req.id);
  }

  lemma Decided(t: Q.Table, t': Q.Table, ops: seq<Q.Op>, after: seq<Q.Op>, req: Request, findings: seq<Finding>, rules: seq<Rule>,
                describe: seq<Message> -> string)
    requires Stands(t, req) && Decides(ops, after, req, findings, rules, describe)
    requires after == ops ==> t' == t
    requires |after| == |ops| + 1 ==> t' == Q.Step(t, after[|ops|])
    ensures Q.StatusIs(t', req.key, Q.Approved) <==> Approves(t, req, !req.requireHuman && Passes(rules, req.repoType, findings))
  {
    assert Q.Find(t, req.id) == Some(req.key);
    if !req.requireHuman && Passes(rules, req.repoType, findings) {
      var op := Q.Approve(req.id, "auto", "all security rules passed");
      if !t.rows[req.key].requireHuman {
        assert Q.ApprovesBase(t, op, req.key);
        Q.ApprovalRow(t, op, req.key, req.key);
      }
    }
  }

  /** After a first scan, a rescan under any rules gives the verdict the hook would give on
      that scan; after a later scan it is never more permissive. */
  lemma RescanFollowsHook(store: Stored, req: Request, answers: seq<seq<Finding>>, scores: map<string, real>, rules: seq<Rule>)
    ensures var saved := Upserts(store, req.id, Latest(answers, scores));
            && (PassesStored(rules, saved, req.id, req.repoType) ==> Passes(rules, req.repoType, Latest(answers, scores)))
            && ((forall k :: k in store ==> k.0 != req.id) ==>
                  (PassesStored(rules, saved, req.id, req.repoType) <==> Passes(rules, req.repoType, Latest(answers, scores))))
  {
    var latest := Latest(answers, scores);
    var saved := Upserts(store, req.id, latest);
    DedupDistinct(Flatten(answers), {});
    if rows :| Lists(saved, req.id, rows) && Passes(rules, req.repoType, rows) {
      RescanIsNoMorePermissive(store, req.id, latest, rows, rules, req.repoType);
    }
    if forall k :: k in store ==> k.0 != req.id {
      FirstScanLists(store, req.id, latest);
    }
  }

  lemma FirstScanLists(store: Stored, id: string, latest: seq<Finding>)
    requires DistinctPairs(latest) && forall k :: k in store ==> k.0 != id
    ensures Lists(Upserts(store, id, latest), id, latest)
  {
    UpsertsKeep(store, id, latest);
    var r := Upserts(store, id, latest);
    forall f | f in latest ensures exists k :: k in r && k.0 == id && r[k] == f {
      assert (id, f.id, f.source) in r;
    }
  }

  lemma {:induction false} NothingReported(answers: seq<seq<Finding>>)
    requires forall i :: 0 <= i < |answers| ==> answers[i] == []
    ensures Flatten(answers) == []
  {
    if answers != [] {
      assert forall i :: 0 <= i < |answers[1..]| ==> answers[1..][i] == answers[i + 1];
      NothingReported(answers[1..]);
    }
  }

  /** A failing scanner answers like one without findings. If all fail, the hook asks for
      approval exactly if no person is required, rules apply and none of them is a sum rule
      with a negative threshold. */
  lemma FailedScannersApprove(req: Request, answers: seq<seq<Finding>>, scores: map<string, real>, rules: seq<Rule>)
    requires forall i :: 0 <= i < |answers| ==> answers[i] == []
    ensures WillApprove(req, Ok(answers), scores, rules) <==>
      && !req.requireHuman
      && (exists r :: r in rules && Applies(r, req.repoType))
      && (forall r :: r in rules && Applies(r, req.repoType) && (r.ruleType == CvssSum || r.ruleType == CvssEpssSum) ==> 0.0 <= r.threshold)
  {
    NothingReported(answers);
    assert Latest(answers, scores) == [];
    NoFindingsPass(rules, req.repoType);
  }
}
