/** The quarantine store as an object: its tables, its findings and its subscriber lists,
    updated in place. The ghost history ties every state to the run that led to it. */
module QuarantineDb {
  import opened Wrappers
  import opened SqlLike
  import opened Quarantine
  import ScanWait
  import Verdict

  /** The part of a row `List` hands to the rescan. */
  datatype Listed = Listed(id: string, repoType: string, key: string)

  /** What a scan hook does to the store besides its operations, each with the number of
      operations that came before. */
  datatype Write =
    | StatusWrite(id: string, status: ScanWait.ScanStatus, after: nat)
    | FindingsWrite(id: string, findings: seq<Verdict.Finding>, after: nat)
    | Notification(id: string, after: nat)

  class QuarantineStore {
    var rows: map<string, Row>
    var audit: seq<AuditEntry>
    var scans: map<string, ScanWait.ScanStatus>
    var findings: Verdict.Stored
    var subs: ScanWait.Subs
    var full: set<ScanWait.Chan>
    var nextChan: ScanWait.Chan
    ghost var tables: seq<Table>
    ghost var ops: seq<Op>
    ghost var writes: seq<Write>

    ghost predicate Valid()
      reads this`rows, this`audit, this`tables, this`ops
    {
      IsRun(tables, ops) && tables[|ops|] == Table(rows, audit)
    }

    function Now(): Table
      reads this`rows, this`audit
    {
      Table(rows, audit)
    }

    constructor ()
      ensures Valid() && ops == [] && rows == map[] && audit == []
      ensures scans == map[] && findings == map[] && subs == map[] && full == {}
    {
      rows, audit, scans, findings, subs, full, nextChan := map[], [], map[], map[], map[], {}, 0;
      tables, ops, writes := [EMPTY], [], [];
    }

    ghost method Record(op: Op)
      requires IsRun(tables, ops) && Table(rows, audit) == Step(tables[|ops|], op)
      modifies this`tables, this`ops
      ensures Valid() && ops == old(ops) + [op] && tables == old(tables) + [Now()]
    {
      tables, ops := tables + [Table(rows, audit)], ops + [op];
    }

    /** `starts` tells that the scan hook is started for the new row. */
    method Enqueue(a: Artifact, newId: string) returns (r: Result<string, string>, starts: bool)
      requires Valid()
      modifies this`rows, this`tables, this`ops
      ensures Valid() && ops == old(ops) + [Op.Enqueue(a, newId)] && tables == old(tables) + [Now()]
      ensures Now() == Step(old(Now()), Op.Enqueue(a, newId))
      ensures r.Ok? ==> a.cacheKey in rows && rows[a.cacheKey].id == r.value && rows[a.cacheKey].status != Rejected
      ensures r.Err? <==> IdInUse(old(Now()), newId) && !StatusIs(old(Now()), a.cacheKey, Pending) && !StatusIs(old(Now()), a.cacheKey, Approved)
      ensures r.Err? ==> rows == old(rows)
      ensures starts <==> ScanWait.StartsHook(old(Now()), Op.Enqueue(a, newId))
    {
      starts := false;
      if a.cacheKey in rows && rows[a.cacheKey].status != Rejected {
        r := Ok(rows[a.cacheKey].id);
      } else {
        var status := Pending;
        if HasApprovedParent(Now(), a.cacheKey) {
          status := Approved;
        }
        if IdInUse(Now(), newId) {
          r := Err("quarantine enqueue");
        } else {
          rows := rows[a.cacheKey := Upserted(Now(), a, newId, status)];
          starts := status == Pending;
          r := Ok(newId);
        }
      }
      Record(Op.Enqueue(a, newId));
    }

    /** `WHERE id = ?` finds the one row that has the id. */
    method Lookup(id: string) returns (key: Option<string>)
      requires Valid()
      ensures key == Find(Now(), id)
    {
      RunKeepsUniqueIds(tables, ops, |ops|);
      if k :| k in rows && rows[k].id == id {
        key := Some(k);
      } else {
        key := None;
      }
    }

    method Transition(key: string, status: Status, reviewer: string, comment: string, action: string)
      requires key in rows
      modifies this`rows, this`audit
      ensures Now() == Quarantine.Transition(old(Now()), key, status, reviewer, comment, action)
    {
      audit := audit + [AuditEntry(rows[key].id, action, reviewer, comment)];
      rows := rows[key := Reviewed(rows[key], status, reviewer, comment)];
    }

    method UpdateLinked(base: string, status: Status, reviewer: string, comment: string)
      modifies this`rows
      ensures rows == Linked(old(rows), base, status, reviewer, comment)
    {
      var keys := rows.Keys;
      ghost var was, goal := rows, Linked(rows, base, status, reviewer, comment);
      while keys != {}
        invariant keys <= rows.Keys && HalfWay(was, rows, goal, keys)
        decreases |keys|
      {
        var k :| k in keys;
        LinkedAt(was, base, status, reviewer, comment, k);
        keys := keys - {k};
        if Kin(k, base) && rows[k].status == Pending {
          rows := rows[k := Reviewed(rows[k], status, reviewer, comment)];
        }
      }
    }

    method Approve(id: string, reviewer: string, comment: string) returns (r: Result<(), string>)
      requires Valid()
      modifies this`rows, this`audit, this`tables, this`ops
      ensures Valid() && ops == old(ops) + [Op.Approve(id, reviewer, comment)] && tables == old(tables) + [Now()]
      ensures Now() == Step(old(Now()), Op.Approve(id, reviewer, comment))
      ensures r.Ok? <==> exists base :: ApprovesBase(old(Now()), Op.Approve(id, reviewer, comment), base)
      ensures r.Err? ==> rows == old(rows) && audit == old(audit)
    {
      var op := Op.Approve(id, reviewer, comment);
      var key := Lookup(id);
      if key.None? {
        r := Err("not found: " + id);
      } else if rows[key.value].requireHuman && reviewer == "auto" {
        r := Err("auto-approval blocked: human review required (" + rows[key.value].signatureError + ")");
      } else {
        assert ApprovesBase(Now(), op, key.value);
        Transition(key.value, Approved, reviewer, comment, "approved");
        UpdateLinked(key.value, Approved, reviewer, "auto-approved with " + key.value);
        r := Ok(());
      }
      Record(op);
    }

    method Reject(id: string, reviewer: string, comment: string) returns (r: Result<(), string>)
      requires Valid()
      modifies this`rows, this`audit, this`tables, this`ops
      ensures Valid() && ops == old(ops) + [Op.Reject(id, reviewer, comment)] && tables == old(tables) + [Now()]
      ensures Now() == Step(old(Now()), Op.Reject(id, reviewer, comment))
      ensures r.Ok? <==> IdInUse(old(Now()), id)
      ensures r.Err? ==> rows == old(rows) && audit == old(audit)
    {
      var key := Lookup(id);
      if key.None? {
        r := Err("not found: " + id);
      } else {
        Transition(key.value, Rejected, reviewer, comment, "rejected");
        UpdateLinked(key.value, Rejected, reviewer, "auto-rejected with " + key.value);
        r := Ok(());
      }
      Record(Op.Reject(id, reviewer, comment));
    }

    method Revoke(id: string, reviewer: string, comment: string) returns (r: Result<(), string>)
      requires Valid()
      modifies this`rows, this`audit, this`tables, this`ops
      ensures Valid() && ops == old(ops) + [Op.Revoke(id, reviewer, comment)] && tables == old(tables) + [Now()]
      ensures Now() == Step(old(Now()), Op.Revoke(id, reviewer, comment))
      ensures r.Ok? <==> IdInUse(old(Now()), id)
      ensures r.Err? ==> rows == old(rows) && audit == old(audit)
    {
      var key := Lookup(id);
      if key.None? {
        r := Err("not found: " + id);
      } else {
        Transition(key.value, Pending, reviewer, comment, "revoked");
        r := Ok(());
      }
      Record(Op.Revoke(id, reviewer, comment));
    }

    method SetComment(id: string, comment: string)
      requires Valid()
      modifies this`rows, this`tables, this`ops
      ensures Valid() && ops == old(ops) + [Op.SetComment(id, comment)] && tables == old(tables) + [Now()]
      ensures Now() == Step(old(Now()), Op.SetComment(id, comment))
    {
      var key := Lookup(id);
      if key.Some? {
        rows := rows[key.value := rows[key.value].(comment := comment)];
      }
      Record(Op.SetComment(id, comment));
    }

    /** Any one store operation, as another actor may perform it. */
    method Perform(op: Op)
      requires Valid()
      modifies this`rows, this`audit, this`tables, this`ops
      ensures Valid() && ops == old(ops) + [op] && tables == old(tables) + [Now()]
      ensures Now() == Step(old(Now()), op)
    {
      match op {
        case Enqueue(a, newId) => var _, _ := Enqueue(a, newId);
        case Approve(id, reviewer, comment) => var _ := Approve(id, reviewer, comment);
        case Reject(id, reviewer, comment) => var _ := Reject(id, reviewer, comment);
        case Revoke(id, reviewer, comment) => var _ := Revoke(id, reviewer, comment);
        case SetComment(id, comment) => SetComment(id, comment);
      }
    }

    predicate IsApproved(key: string)
      reads this`rows
    {
      key in rows && rows[key].status == Approved
    }

    predicate IsPending(key: string)
      reads this`rows
    {
      key in rows && rows[key].status == Pending
    }

    // -------------------------------------------------------------- pub/sub

    method SubscribeByID(id: string) returns (ch: ScanWait.Chan)
      modifies this`subs, this`nextChan
      ensures ch == old(nextChan) && nextChan == ch + 1 && subs == ScanWait.Subscribed(old(subs), id, ch)
      ensures subs == old(subs)[id := (if id in old(subs) then old(subs)[id] else []) + [ch]]
    {
      ch := nextChan;
      nextChan := nextChan + 1;
      subs := subs[id := ScanWait.Chans(subs, id) + [ch]];
    }

    /** The cancel function: shifts the first occurrence of the channel out of the list. */
    method Cancel(id: string, ch: ScanWait.Chan)
      modifies this`subs
      ensures subs == ScanWait.Cancelled(old(subs), id, ch)
    {
      var chans := ScanWait.Chans(subs, id);
      var i := 0;
      while i < |chans|
        invariant 0 <= i <= |chans| && ch !in chans[..i]
      {
        if chans[i] == ch {
          WithoutAt(chans, i);
          subs := subs[id := chans[..i] + chans[i + 1..]];
          return;
        }
        i := i + 1;
      }
      assert chans[..i] == chans;
    }

    /** Takes the list under the lock, then signals each channel without blocking. */
    method NotifyScanDone(id: string)
      modifies this`subs, this`full, this`writes
      ensures writes == old(writes) + [Notification(id, |ops|)]
      ensures subs == ScanWait.Taken(old(subs), id) == old(subs) - {id}
      ensures full == old(full) + (set c | c in ScanWait.Chans(old(subs), id))
    {
      var chans := ScanWait.Chans(subs, id);
      subs := ScanWait.Taken(subs, id);
      for i := 0 to |chans|
        invariant full == old(full) + (set c | c in chans[..i]) && subs == ScanWait.Taken(old(subs), id) && writes == old(writes)
      {
        full := full + {chans[i]};
        assert chans[..i + 1] == chans[..i] + [chans[i]];
      }
      assert chans[..|chans|] == chans;
      writes := writes + [Notification(id, |ops|)];
    }

    predicate IsScanDone(id: string)
      reads this`scans
    {
      id in scans && scans[id] != ScanWait.Scanning
    }

    method SetScanStatus(id: string, status: ScanWait.ScanStatus)
      modifies this`scans, this`writes
      ensures scans == old(scans)[id := status] && writes == old(writes) + [StatusWrite(id, status, |ops|)]
    {
      scans := scans[id := status];
      writes := writes + [StatusWrite(id, status, |ops|)];
    }

    method SaveFindings(id: string, fs: seq<Verdict.Finding>)
      modifies this`findings, this`writes
      ensures findings == Verdict.Upserts(old(findings), id, fs) && writes == old(writes) + [FindingsWrite(id, fs, |ops|)]
    {
      findings := Verdict.SaveFindings(findings, id, fs);
      writes := writes + [FindingsWrite(id, fs, |ops|)];
    }

    // -------------------------------------------------------------- rescan

    /** The pending rows, in some order. */
    method ListPending() returns (pending: seq<Listed>)
      ensures forall l :: l in pending <==> l.key in rows && rows[l.key].status == Pending && l == Listed(rows[l.key].id, rows[l.key].repoType, l.key)
    {
      pending := [];
      var keys := rows.Keys;
      while keys != {}
        invariant keys <= rows.Keys
        invariant forall l :: l in pending <==> (l.key in rows && l.key !in keys && rows[l.key].status == Pending && l == Listed(rows[l.key].id, rows[l.key].repoType, l.key))
        decreases |keys|
      {
        var k :| k in keys;
        keys := keys - {k};
        if rows[k].status == Pending {
          pending := pending + [Listed(rows[k].id, rows[k].repoType, k)];
        }
      }
    }

    /** The findings stored for one request, in some order. */
    method FindingsOf(request: string) returns (fs: seq<Verdict.Finding>)
      ensures Verdict.Lists(findings, request, fs)
    {
      fs := [];
      var keys := findings.Keys;
      while keys != {}
        invariant keys <= findings.Keys
        invariant forall f :: f in fs <==> exists k :: k in findings && k !in keys && k.0 == request && findings[k] == f
        decreases |keys|
      {
        var k :| k in keys;
        ghost var before, was := fs, keys;
        keys := keys - {k};
        if k.0 == request {
          fs := fs + [findings[k]];
        }
        forall f: Verdict.Finding ensures f in fs <==> exists l :: l in findings && l !in keys && l.0 == request && findings[l] == f {
          if f in fs && f !in before {
            assert k in findings && k !in keys && k.0 == request && findings[k] == f;
          } else if f in before {
            var l :| l in findings && l !in was && l.0 == request && findings[l] == f;
            assert l !in keys;
          }
        }
      }
    }

    /** The turn of one listed row: an approval exactly if its stored findings pass. */
    method RescanRow(pkg: Listed, rules: seq<Verdict.Rule>) returns (called: bool)
      requires Valid()
      modifies this`rows, this`audit, this`tables, this`ops
      ensures Valid() && old(tables) <= tables
      ensures called <==> Verdict.PassesStored(rules, findings, pkg.id, pkg.repoType)
      ensures Now() == if called then Step(old(Now()), Op.Approve(pkg.id, "auto", "auto-approved after rule update")) else old(Now())
      ensures ops == if called then old(ops) + [Op.Approve(pkg.id, "auto", "auto-approved after rule update")] else old(ops)
    {
      var fs := FindingsOf(pkg.id);
      Verdict.ListingsAgree(rules, findings, pkg.id, pkg.repoType, fs);
      var hasRules, triggered := Verdict.Evaluate(rules, pkg.repoType, fs);
      called := hasRules && triggered == [];
      if called {
        var _ := Approve(pkg.id, "auto", "auto-approved after rule update");
      }
    }

    /** The loop body of the rescan: one row that was pending when the rescan listed it. */
    method RescanOne(pkg: Listed, rules: seq<Verdict.Rule>, ghost t0: Table, ghost passing: set<string>) returns (ghost passing': set<string>)
      requires Valid() && Progress(t0, Now(), passing)
      requires StatusIs(t0, pkg.key, Pending) && pkg == Listed(t0.rows[pkg.key].id, t0.rows[pkg.key].repoType, pkg.key)
      modifies this`rows, this`audit, this`tables, this`ops
      ensures Valid() && old(tables) <= tables
      ensures passing' == if PassesRescan(t0, findings, rules, pkg.key) then passing + {pkg.key} else passing
      ensures Progress(t0, Now(), passing')
    {
      RunKeepsUniqueIds(tables, ops, |ops|);
      ProgressStep(t0, Now(), passing, pkg.key, pkg.id, "auto-approved after rule update");
      var called := RescanRow(pkg, rules);
      passing' := if called && !t0.rows[pkg.key].requireHuman then passing + {pkg.key} else passing;
    }

    method Others(steps: seq<Op>)
      requires Valid()
      modifies this`rows, this`audit, this`tables, this`ops
      ensures Valid() && old(tables) <= tables && ops == old(ops) + steps
    {
      for i := 0 to |steps|
        invariant Valid() && old(tables) <= tables && ops == old(ops) + steps[..i]
      {
        Perform(steps[i]);
      }
    }

    /** One turn among the acts of others, the `calls` of the rescan so far being known. */
    method RescanTurn(pkg: Listed, rules: seq<Verdict.Rule>, steps: seq<Op>, ghost t0: Table, ghost from: nat,
                      ghost calls: set<nat>, ghost others: iset<Op>) returns (ghost calls': set<nat>)
      requires Valid() && from <= |ops| && Accounted(ops, from, calls, t0, findings, rules, others) && forall op :: op in steps ==> op in others
      requires StatusIs(t0, pkg.key, Pending) && pkg == Listed(t0.rows[pkg.key].id, t0.rows[pkg.key].repoType, pkg.key)
      modifies this`rows, this`audit, this`tables, this`ops
      ensures Valid() && old(tables) <= tables && old(ops) <= ops && calls <= calls'
      ensures Accounted(ops, from, calls', t0, findings, rules, others)
      ensures ListedPassing(t0, findings, rules, pkg.key, pkg.id) ==> Called(ops, calls', pkg.id)
    {
      Others(steps);
      StillAccounted(old(ops), steps, from, calls, t0, findings, rules, others);
      ghost var before := ops;
      var called := RescanRow(pkg, rules);
      calls' := calls;
      if called {
        calls' := calls + {|before|};
        OneCall(before, pkg, from, calls, t0, findings, rules, others);
      }
    }

    /** The rescan while others act: `env` says what they do before each row. It calls exactly
        for the rows that were pending at its start and whose findings pass, whatever has
        become of them since. */
    method RescanAmid(rules: seq<Verdict.Rule>, env: nat -> seq<Op>) returns (ghost calls: set<nat>)
      requires Valid()
      modifies this`rows, this`audit, this`tables, this`ops
      ensures Valid() && old(tables) <= tables && old(ops) <= ops
      ensures Accounted(ops, |old(ops)|, calls, old(Now()), findings, rules, iset i: nat, op | op in env(i) :: op)
      ensures forall k, id :: ListedPassing(old(Now()), findings, rules, k, id) ==> Called(ops, calls, id)
    {
      var pending := ListPending();
      ghost var t0, from := Now(), |ops|;
      ghost var others: iset<Op> := iset i: nat, op | op in env(i) :: op;
      calls := {};
      var i := 0;
      while i < |pending|
        invariant 0 <= i <= |pending| && Valid() && old(tables) <= tables && old(ops) <= ops
        invariant Accounted(ops, from, calls, t0, findings, rules, others)
        invariant forall l :: 0 <= l < i && ListedPassing(t0, findings, rules, pending[l].key, pending[l].id) ==> Called(ops, calls, pending[l].id)
      {
        assert pending[i] in pending;
        ghost var was, had := ops, calls;
        calls := RescanTurn(pending[i], rules, env(i), t0, from, calls, others);
        forall l | 0 <= l < i && Called(was, had, pending[l].id) ensures Called(ops, calls, pending[l].id) {
          CalledLater(was, ops, had, calls, pending[l].id);
        }
        i := i + 1;
      }
      forall k, id | ListedPassing(t0, findings, rules, k, id) ensures Called(ops, calls, id) {
        assert Listed(id, t0.rows[k].repoType, k) in pending;
      }
    }

    /** Re-evaluates every pending row against the rules; approves those that pass. */
    method RescanPending(rules: seq<Verdict.Rule>)
      requires Valid()
      modifies this`rows, this`audit, this`tables, this`ops
      ensures Valid() && old(tables) <= tables
      ensures rows.Keys == old(rows).Keys
      ensures forall k :: k in rows ==>
                (IsApproved(k) <==> old(IsApproved(k)) || ApprovedByRescan(old(Now()), findings, rules, k))
      ensures forall k :: k in rows && !IsApproved(k) ==> rows[k] == old(rows)[k]
    {
      var pending := ListPending();
      ghost var t0 := Now();
      ghost var passing: set<string> := {};
      var i := 0;
      while i < |pending|
        invariant 0 <= i <= |pending| && Valid() && old(tables) <= tables
        invariant forall b :: b in passing ==> PassesRescan(t0, findings, rules, b)
        invariant forall j :: 0 <= j < i && PassesRescan(t0, findings, rules, pending[j].key) ==> pending[j].key in passing
        invariant Progress(t0, Now(), passing)
      {
        assert pending[i] in pending;
        passing := RescanOne(pending[i], rules, t0, passing);
        i := i + 1;
      }
      RescanDone(t0, Now(), findings, rules, pending, passing);
    }
  }

  /** A call the rescan may make: an automatic approval of a row that was pending when the
      rescan listed it, and whose stored findings pass. */
  ghost predicate RescanCall(op: Op, t: Table, findings: Verdict.Stored, rules: seq<Verdict.Rule>) {
    && op.Approve? && op.reviewer == "auto"
    && exists k :: ListedPassing(t, findings, rules, k, op.id)
  }

  ghost predicate ListedPassing(t: Table, findings: Verdict.Stored, rules: seq<Verdict.Rule>, key: string, id: string) {
    StatusIs(t, key, Pending) && t.rows[key].id == id && Verdict.PassesStored(rules, findings, id, t.rows[key].repoType)
  }

  /** The calls are rescan calls, and every other operation from `from` on is another actor's. */
  ghost predicate Accounted(ops: seq<Op>, from: nat, calls: set<nat>, t: Table, findings: Verdict.Stored,
                            rules: seq<Verdict.Rule>, others: iset<Op>)
  {
    && (forall n :: n in calls ==> from <= n < |ops| && RescanCall(ops[n], t, findings, rules))
    && (forall n: nat :: from <= n < |ops| ==> n in calls || ops[n] in others)
  }

  ghost predicate Called(ops: seq<Op>, calls: set<nat>, id: string) {
    exists n: nat :: n in calls && n < |ops| && ops[n].Approve? && ops[n].id == id
  }

  lemma CalledLater(ops: seq<Op>, more: seq<Op>, calls: set<nat>, moreCalls: set<nat>, id: string)
    requires Called(ops, calls, id) && ops <= more && calls <= moreCalls
    ensures Called(more, moreCalls, id)
  {
    var n: nat :| n in calls && n < |ops| && ops[n].Approve? && ops[n].id == id;
    assert more[n] == ops[n];
  }

  lemma StillAccounted(ops: seq<Op>, steps: seq<Op>, from: nat, calls: set<nat>, t: Table, findings: Verdict.Stored,
                       rules: seq<Verdict.Rule>, others: iset<Op>)
    requires Accounted(ops, from, calls, t, findings, rules, others) && forall op :: op in steps ==> op in others
    ensures Accounted(ops + steps, from, calls, t, findings, rules, others)
  {
    forall n: nat | from <= n < |ops + steps| ensures n in calls || (ops + steps)[n] in others {
      if |ops| <= n {
        assert (ops + steps)[n] == steps[n - |ops|];
      }
    }
  }

  lemma OneCall(ops: seq<Op>, pkg: Listed, from: nat, calls: set<nat>, t: Table, findings: Verdict.Stored,
                rules: seq<Verdict.Rule>, others: iset<Op>)
    requires from <= |ops| && Accounted(ops, from, calls, t, findings, rules, others)
    requires ListedPassing(t, findings, rules, pkg.key, pkg.id)
    ensures var op := Op.Approve(pkg.id, "auto", "auto-approved after rule update");
            && Accounted(ops + [op], from, calls + {|ops|}, t, findings, rules, others)
            && Called(ops + [op], calls + {|ops|}, pkg.id)
  {
    var op := Op.Approve(pkg.id, "auto", "auto-approved after rule update");
    assert RescanCall(op, t, findings, rules);
    assert |ops| in calls + {|ops|} && (ops + [op])[|ops|] == op;
  }

  /** The rows still to be looked at are as they were, the others as they are to be. */
  ghost predicate HalfWay(was: map<string, Row>, rows: map<string, Row>, goal: map<string, Row>, keys: set<string>) {
    && rows.Keys == was.Keys == goal.Keys
    && forall k :: k in rows ==> rows[k] == if k in keys then was[k] else goal[k]
  }

  lemma LinkedAt(rows: map<string, Row>, base: string, status: Status, reviewer: string, comment: string, key: string)
    requires key in rows
    ensures Linked(rows, base, status, reviewer, comment)[key] ==
      if Kin(key, base) && rows[key].status == Pending then Reviewed(rows[key], status, reviewer, comment) else rows[key]
  {
  }

  lemma {:induction false} WithoutAt(chans: seq<ScanWait.Chan>, i: nat)
    requires i < |chans| && chans[i] !in chans[..i]
    ensures ScanWait.Without(chans, chans[i]) == chans[..i] + chans[i + 1..]
  {
    if i > 0 {
      assert chans[0] == chans[..i][0];
      assert chans[1..][..i - 1] == chans[..i][1..];
      WithoutAt(chans[1..], i - 1);
    }
  }

  /** A pending, unflagged row whose stored findings pass the rules. */
  ghost predicate PassesRescan(t: Table, findings: Verdict.Stored, rules: seq<Verdict.Rule>, base: string) {
    && StatusIs(t, base, Pending) && !t.rows[base].requireHuman
    && Verdict.PassesStored(rules, findings, t.rows[base].id, t.rows[base].repoType)
  }

  /** A pending row that passes, or lies beneath one that does. */
  ghost predicate ApprovedByRescan(t: Table, findings: Verdict.Stored, rules: seq<Verdict.Rule>, key: string) {
    StatusIs(t, key, Pending) && exists base :: PassesRescan(t, findings, rules, base) && (key == base || Kin(key, base))
  }

  /** Approved already, or pending and at or beneath a key in `passing`. */
  ghost predicate Reached(t0: Table, passing: set<string>, key: string) {
    || StatusIs(t0, key, Approved)
    || (StatusIs(t0, key, Pending) && exists b :: b in passing && (key == b || Kin(key, b)))
  }

  ghost predicate RowAfter(t0: Table, t: Table, passing: set<string>, key: string)
    requires key in t0.rows && key in t.rows
  {
    && t.rows[key].id == t0.rows[key].id && t.rows[key].requireHuman == t0.rows[key].requireHuman
    && if Reached(t0, passing, key) then t.rows[key].status == Approved else t.rows[key] == t0.rows[key]
  }

  /** The table after the rescan has approved the rows in `passing`, one after the other. */
  ghost predicate Progress(t0: Table, t: Table, passing: set<string>) {
    && t.rows.Keys == t0.rows.Keys
    && forall k :: k in t0.rows ==> RowAfter(t0, t, passing, k)
  }

  /** The next approval adds its own key, unless the row is flagged for human review. */
  lemma ProgressStep(t0: Table, t: Table, passing: set<string>, base: string, id: string, comment: string)
    requires Progress(t0, t, passing) && UniqueIds(t) && StatusIs(t0, base, Pending) && t0.rows[base].id == id
    ensures var t' := Step(t, Op.Approve(id, "auto", comment));
            Progress(t0, t', if t0.rows[base].requireHuman then passing else passing + {base})
  {
    assert RowAfter(t0, t, passing, base);
    assert Find(t, id) == Some(base);
    if !t0.rows[base].requireHuman {
      var op := Op.Approve(id, "auto", comment);
      assert ApprovesBase(t, op, base);
      ApprovalRow(t, op, base, base);
      forall k | k in t0.rows ensures RowAfter(t0, Step(t, op), passing + {base}, k) {
        RowStep(t0, t, passing, base, op, k);
      }
    }
  }

  lemma RowStep(t0: Table, t: Table, passing: set<string>, base: string, op: Op, key: string)
    requires key in t0.rows && key in t.rows && RowAfter(t0, t, passing, key)
    requires ApprovesBase(t, op, base) && StatusIs(t0, base, Pending)
    ensures key in Step(t, op).rows && RowAfter(t0, Step(t, op), passing + {base}, key)
  {
    ApprovalRow(t, op, base, key);
    ReachedMore(t0, passing, base, key);
  }

  lemma ReachedMore(t0: Table, passing: set<string>, base: string, key: string)
    ensures Reached(t0, passing + {base}, key) <==>
            Reached(t0, passing, key) || (StatusIs(t0, key, Pending) && (key == base || Kin(key, base)))
  {
    if StatusIs(t0, key, Pending) && (key == base || Kin(key, base)) {
      assert base in passing + {base};
    } else if b :| b in passing && (key == b || Kin(key, b)) {
      assert b in passing + {base};
    }
  }

  /** Once every pending row has been dealt with, the approved rows are the expected ones. */
  lemma RescanDone(t0: Table, t: Table, findings: Verdict.Stored, rules: seq<Verdict.Rule>, pending: seq<Listed>, passing: set<string>)
    requires Progress(t0, t, passing)
    requires forall k :: StatusIs(t0, k, Pending) ==> Listed(t0.rows[k].id, t0.rows[k].repoType, k) in pending
    requires forall b :: b in passing ==> PassesRescan(t0, findings, rules, b)
    requires forall j :: 0 <= j < |pending| && PassesRescan(t0, findings, rules, pending[j].key) ==> pending[j].key in passing
    ensures forall k :: k in t.rows ==>
              (StatusIs(t, k, Approved) <==> StatusIs(t0, k, Approved) || ApprovedByRescan(t0, findings, rules, k))
    ensures forall k :: k in t.rows && !StatusIs(t, k, Approved) ==> t.rows[k] == t0.rows[k]
  {
    forall k | k in t.rows
      ensures StatusIs(t, k, Approved) <==> StatusIs(t0, k, Approved) || ApprovedByRescan(t0, findings, rules, k)
      ensures !StatusIs(t, k, Approved) ==> t.rows[k] == t0.rows[k]
    {
      assert RowAfter(t0, t, passing, k);
      if base :| PassesRescan(t0, findings, rules, base) && (k == base || Kin(k, base)) {
        var l := Listed(t0.rows[base].id, t0.rows[base].repoType, base);
        assert l in pending;
        assert base in passing;
      }
    }
  }
}
