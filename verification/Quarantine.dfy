/** The quarantine table as values: what each operation makes of the whole table,
    and what therefore holds in every run of operations. */
module Quarantine {
  import opened Wrappers
  import opened SqlLike

  datatype Status = Pending | Approved | Rejected

  datatype Artifact = Artifact(cacheKey: string, repoType: string, name: string, version: string,
                               url: string, contentType: string, data: seq<byte>,
                               requireHumanReview: string)

  /** One row of `requests`; its cache key is the map key it is stored under. */
  datatype Row = Row(id: string, repoType: string, name: string, version: string, url: string,
                     contentType: string, size: nat, status: Status, reviewedBy: string,
                     comment: string, requireHuman: bool, signatureError: string)

  datatype AuditEntry = AuditEntry(requestId: string, action: string, actor: string, comment: string)

  datatype Table = Table(rows: map<string, Row>, audit: seq<AuditEntry>)

  const EMPTY := Table(map[], [])

  datatype Op =
    | Enqueue(artifact: Artifact, newId: string)
    | Approve(id: string, reviewer: string, comment: string)
    | Reject(id: string, reviewer: string, comment: string)
    | Revoke(id: string, reviewer: string, comment: string)
    | SetComment(id: string, comment: string)

  predicate StatusIs(t: Table, key: string, status: Status) {
    key in t.rows && t.rows[key].status == status
  }

  predicate HasApprovedParent(t: Table, key: string) {
    exists p :: p in t.rows && StatusIs(t, p, Approved) && Kin(key, p)
  }

  predicate IdInUse(t: Table, id: string) {
    exists k :: k in t.rows && t.rows[k].id == id
  }

  /** `id` is the primary key. */
  ghost predicate UniqueIds(t: Table) {
    forall k, l :: k in t.rows && l in t.rows && t.rows[k].id == t.rows[l].id ==> k == l
  }

  ghost function Find(t: Table, id: string): (r: Option<string>)
    ensures r.Some? ==> r.value in t.rows && t.rows[r.value].id == id
    ensures r.None? ==> !IdInUse(t, id)
  {
    if k :| k in t.rows && t.rows[k].id == id then Some(k) else None
  }

  // ---------------------------------------------------------------- one operation

  function FreshRow(a: Artifact, id: string, status: Status): Row {
    Row(id, a.repoType, a.name, a.version, a.url, a.contentType, |a.data|, status, "", "",
        a.requireHumanReview != "", a.requireHumanReview)
  }

  /** The row an insertion leaves: a conflicting row keeps all but its id and status. */
  function Upserted(t: Table, a: Artifact, id: string, status: Status): Row {
    if a.cacheKey in t.rows
    then t.rows[a.cacheKey].(id := id, status := status)
    else FreshRow(a, id, status)
  }

  function StatusOnEnqueue(t: Table, key: string): Status {
    if HasApprovedParent(t, key) then Approved else Pending
  }

  function Reviewed(r: Row, status: Status, reviewer: string, comment: string): Row {
    r.(status := status, reviewedBy := reviewer, comment := comment)
  }

  /** `transitionWithAction`: one row changes and one audit entry is written. */
  function Transition(t: Table, key: string, status: Status, reviewer: string, comment: string,
                      action: string): Table
    requires key in t.rows
  {
    Table(t.rows[key := Reviewed(t.rows[key], status, reviewer, comment)],
          t.audit + [AuditEntry(t.rows[key].id, action, reviewer, comment)])
  }

  /** `updateLinked`: the pending rows beneath `base` follow, without audit entries. */
  function Linked(rows: map<string, Row>, base: string, status: Status, reviewer: string,
                  comment: string): map<string, Row>
  {
    map k | k in rows ::
      if Kin(k, base) && rows[k].status == Pending then Reviewed(rows[k], status, reviewer, comment) else rows[k]
  }

  function Cascade(t: Table, key: string, status: Status, reviewer: string, comment: string): Table
    requires key in t.rows
  {
    var action := if status == Approved then "approved" else "rejected";
    var prefix := if status == Approved then "auto-approved with " else "auto-rejected with ";
    var t1 := Transition(t, key, status, reviewer, comment, action);
    t1.(rows := Linked(t1.rows, key, status, reviewer, prefix + key))
  }

  ghost function Step(t: Table, op: Op): Table {
    match op
    case Enqueue(a, newId) =>
      if a.cacheKey in t.rows && t.rows[a.cacheKey].status != Rejected then t
      else if IdInUse(t, newId) then t
      else t.(rows := t.rows[a.cacheKey := Upserted(t, a, newId, StatusOnEnqueue(t, a.cacheKey))])
    case Approve(id, reviewer, comment) =>
      var k := Find(t, id);
      if k.None? || (t.rows[k.value].requireHuman && reviewer == "auto") then t
      else Cascade(t, k.value, Approved, reviewer, comment)
    case Reject(id, reviewer, comment) =>
      var k := Find(t, id);
      if k.None? then t else Cascade(t, k.value, Rejected, reviewer, comment)
    case Revoke(id, reviewer, comment) =>
      var k := Find(t, id);
      if k.None? then t else Transition(t, k.value, Pending, reviewer, comment, "revoked")
    case SetComment(id, comment) =>
      var k := Find(t, id);
      if k.None? then t else t.(rows := t.rows[k.value := t.rows[k.value].(comment := comment)])
  }

  /** `op` approves the row at `base` on its own account: the request exists, and the
      reviewer is not "auto" unless the row may be approved automatically. */
  ghost predicate ApprovesBase(t: Table, op: Op, base: string) {
    op.Approve? && Find(t, op.id) == Some(base) && !(t.rows[base].requireHuman && op.reviewer == "auto")
  }

  /** The only two ways a key can become approved. */
  lemma BecomesApproved(t: Table, op: Op, key: string)
    requires !StatusIs(t, key, Approved) && StatusIs(Step(t, op), key, Approved)
    ensures
      || (exists base :: ApprovesBase(t, op, base) && (key == base || (Kin(key, base) && StatusIs(t, key, Pending))))
      || (op.Enqueue? && op.artifact.cacheKey == key && HasApprovedParent(t, key))
  {
    if op.Approve? {
      assert ApprovesBase(t, op, Find(t, op.id).value);
    }
  }

  /** The only two ways a key can become pending. */
  lemma BecomesPending(t: Table, op: Op, key: string)
    requires !StatusIs(t, key, Pending) && StatusIs(Step(t, op), key, Pending)
    ensures
      || (op.Enqueue? && op.artifact.cacheKey == key && !HasApprovedParent(t, key))
      || (op.Revoke? && Find(t, op.id) == Some(key))
  {
  }

  lemma StepKeepsUniqueIds(t: Table, op: Op)
    requires UniqueIds(t)
    ensures UniqueIds(Step(t, op))
  {
  }

  /** An approval or rejection that finds its row, and may approve it, writes exactly one audit
      entry, for the row it names, however many rows follow by cascade; one that does not
      changes nothing. */
  lemma DecisionIsAudited(t: Table, op: Op)
    requires op.Approve? || op.Reject?
    ensures var succeeds := exists base :: if op.Approve? then ApprovesBase(t, op, base) else Find(t, op.id) == Some(base);
            if succeeds
            then Step(t, op).audit == t.audit +
                   [AuditEntry(op.id, if op.Approve? then "approved" else "rejected", op.reviewer, op.comment)]
            else Step(t, op) == t
  {
    var k := Find(t, op.id);
    if k.Some? && (op.Approve? ==> !(t.rows[k.value].requireHuman && op.reviewer == "auto")) {
      assert if op.Approve? then ApprovesBase(t, op, k.value) else k == Some(k.value);
    }
  }

  /** Row by row, what a successful approval of `base` does. */
  lemma ApprovalRow(t: Table, op: Op, base: string, key: string)
    requires ApprovesBase(t, op, base) && key in t.rows
    ensures Step(t, op).rows.Keys == t.rows.Keys
    ensures var r, r' := t.rows[key], Step(t, op).rows[key];
            if key == base then r' == r.(status := Approved, reviewedBy := op.reviewer, comment := op.comment)
            else if Kin(key, base) && r.status == Pending
            then r' == r.(status := Approved, reviewedBy := op.reviewer, comment := "auto-approved with " + base)
            else r' == r
  {
    if Kin(base, base) {
      KinDescends(base, base);
    }
  }

  /** Row by row, what a rejection of `base` does. */
  lemma RejectionRow(t: Table, op: Op, base: string, key: string)
    requires op.Reject? && Find(t, op.id) == Some(base) && key in t.rows
    ensures Step(t, op).rows.Keys == t.rows.Keys
    ensures var r, r' := t.rows[key], Step(t, op).rows[key];
            if key == base then r' == r.(status := Rejected, reviewedBy := op.reviewer, comment := op.comment)
            else if Kin(key, base) && r.status == Pending
            then r' == r.(status := Rejected, reviewedBy := op.reviewer, comment := "auto-rejected with " + base)
            else r' == r
  {
    if Kin(base, base) {
      KinDescends(base, base);
    }
  }

  /** Row by row, what an insertion under a free id does. A row that stands is never touched;
      a rejected one is revived under a new id with everything else as first recorded. */
  lemma InsertionRow(t: Table, a: Artifact, newId: string, key: string)
    requires !IdInUse(t, newId)
    ensures var t' := Step(t, Enqueue(a, newId));
            && (key in t'.rows <==> key in t.rows || key == a.cacheKey)
            && (key in t.rows && (key != a.cacheKey || t.rows[key].status != Rejected) ==> t'.rows[key] == t.rows[key])
            && (key == a.cacheKey && StatusIs(t, key, Rejected) ==>
                  t'.rows[key] == t.rows[key].(id := newId, status := t'.rows[key].status))
            && (key == a.cacheKey && (key !in t.rows || t.rows[key].status == Rejected) ==>
                  t'.rows[key].id == newId && t'.rows[key].status == (if HasApprovedParent(t, key) then Approved else Pending))
            && (key == a.cacheKey && key !in t.rows ==>
                  var r := t'.rows[key];
                  && r.repoType == a.repoType && r.name == a.name && r.version == a.version && r.url == a.url
                  && r.contentType == a.contentType && r.size == |a.data| && r.reviewedBy == "" && r.comment == ""
                  && (r.requireHuman <==> a.requireHumanReview != "") && r.signatureError == a.requireHumanReview)
  {
  }

  /** A revocation changes the one row it names and no descendant of it. */
  lemma RevocationRow(t: Table, op: Op, base: string, key: string)
    requires op.Revoke? && Find(t, op.id) == Some(base) && key in t.rows
    ensures Step(t, op).rows.Keys == t.rows.Keys
    ensures Step(t, op).rows[key] ==
              if key == base then t.rows[key].(status := Pending, reviewedBy := op.reviewer, comment := op.comment) else t.rows[key]
    ensures Step(t, op).audit == t.audit + [AuditEntry(op.id, "revoked", op.reviewer, op.comment)]
  {
  }

  /** A comment changes nothing but the comment of the one row it names, and is not audited. */
  lemma CommentRow(t: Table, op: Op, key: string)
    requires op.SetComment? && key in t.rows && UniqueIds(t)
    ensures var t' := Step(t, op);
            && t'.audit == t.audit && t'.rows.Keys == t.rows.Keys
            && t'.rows[key] == if t.rows[key].id == op.id then t.rows[key].(comment := op.comment) else t.rows[key]
  {
    if t.rows[key].id == op.id {
      assert Find(t, op.id) == Some(key);
    }
  }

  // ---------------------------------------------------------------- the flag for human review

  predicate Flagged(a: Artifact) {
    a.requireHumanReview != ""
  }

  /** Exactly when a row flagged for human review becomes approved, or comes in approved: by a
      person's call on it; while pending, by a call on an ancestor, automatic ones included
      unless the ancestor is flagged too; or by its insertion, the first or after a rejection,
      beneath an approved parent. */
  lemma FlaggedBecomesApproved(t: Table, op: Op, key: string)
    requires key in Step(t, op).rows && Step(t, op).rows[key].requireHuman && !StatusIs(t, key, Approved)
    ensures StatusIs(Step(t, op), key, Approved) <==>
      || (op.Approve? && op.reviewer != "auto" && Find(t, op.id) == Some(key))
      || (StatusIs(t, key, Pending) && exists base :: ApprovesBase(t, op, base) && Kin(key, base))
      || (op.Enqueue? && op.artifact.cacheKey == key && !IdInUse(t, op.newId)
          && (key !in t.rows || StatusIs(t, key, Rejected)) && HasApprovedParent(t, key))
  {
    if StatusIs(Step(t, op), key, Approved) {
      BecomesApproved(t, op, key);
    } else if base :| ApprovesBase(t, op, base) && (base == key || Kin(key, base)) && key in t.rows {
      ApprovalRow(t, op, base, key);
    }
  }

  /** An automatic approval reaches a flagged row exactly by cascade from an unflagged ancestor. */
  lemma AutoReachesFlagged(t: Table, op: Op, key: string)
    requires key in t.rows && t.rows[key].requireHuman && !StatusIs(t, key, Approved) && op.Approve? && op.reviewer == "auto"
    ensures StatusIs(Step(t, op), key, Approved) <==>
      StatusIs(t, key, Pending) && exists base :: Find(t, op.id) == Some(base) && !t.rows[base].requireHuman && Kin(key, base)
  {
    FlaggedBecomesApproved(t, op, key);
    if base :| Find(t, op.id) == Some(base) && !t.rows[base].requireHuman && Kin(key, base) {
      assert ApprovesBase(t, op, base);
    }
  }

  // ---------------------------------------------------------------- runs

  ghost predicate IsRun(ts: seq<Table>, ops: seq<Op>) {
    |ts| == |ops| + 1 && ts[0] == EMPTY && forall i :: 0 <= i < |ops| ==> ts[i + 1] == Step(ts[i], ops[i])
  }

  ghost predicate SoundKeys(ops: seq<Op>) {
    forall i :: 0 <= i < |ops| && ops[i].Enqueue? ==> SoundLink(ops[i].artifact.cacheKey)
  }

  lemma {:induction false} RunKeepsUniqueIds(ts: seq<Table>, ops: seq<Op>, n: nat)
    requires IsRun(ts, ops) && n <= |ops|
    ensures UniqueIds(ts[n])
  {
    if n > 0 {
      RunKeepsUniqueIds(ts, ops, n - 1);
      StepKeepsUniqueIds(ts[n - 1], ops[n - 1]);
    }
  }

  lemma {:induction false} KeysAreSound(ts: seq<Table>, ops: seq<Op>, n: nat)
    requires IsRun(ts, ops) && SoundKeys(ops) && n <= |ops|
    ensures forall k :: k in ts[n].rows ==> SoundLink(k)
  {
    if n > 0 {
      KeysAreSound(ts, ops, n - 1);
    }
  }

  ghost predicate Holds(ts: seq<Table>, key: string, status: Status, from: nat, to: nat)
    requires to < |ts|
  {
    forall m :: from <= m <= to ==> StatusIs(ts[m], key, status)
  }

  /** Why a key is approved: a call that named it or an ancestor at `step`, or an
      insertion at `step` beneath a parent that was approved then, with its own reason. */
  datatype Reason =
    | Call(step: nat, base: string)
    | Inherited(step: nat, parent: string, reason: Reason)

  ghost predicate Explains(ts: seq<Table>, ops: seq<Op>, n: nat, key: string, why: Reason)
    requires IsRun(ts, ops) && n <= |ops|
    decreases why
  {
    && why.step < n
    && Holds(ts, key, Approved, why.step + 1, n)
    && var t, op := ts[why.step], ops[why.step];
       match why
       case Call(_, base) =>
         ApprovesBase(t, op, base) && (key == base || (Kin(key, base) && StatusIs(t, key, Pending)))
       case Inherited(i, parent, reason) =>
         && op.Enqueue? && op.artifact.cacheKey == key
         && Kin(key, parent) && StatusIs(t, parent, Approved)
         && Explains(ts, ops, i, parent, reason)
  }

  function Origin(why: Reason): (r: Reason)
    ensures r.Call?
  {
    match why
    case Call(_, _) => why
    case Inherited(_, _, reason) => Origin(reason)
  }

  /** Every approved key has a reason, whatever wildcards its keys contain. */
  lemma {:induction false} ApprovedIsExplained(ts: seq<Table>, ops: seq<Op>, n: nat, key: string) returns (why: Reason)
    requires IsRun(ts, ops) && n <= |ops| && StatusIs(ts[n], key, Approved)
    ensures Explains(ts, ops, n, key, why)
    decreases n
  {
    var t, op := ts[n - 1], ops[n - 1];
    if StatusIs(t, key, Approved) {
      why := ApprovedIsExplained(ts, ops, n - 1, key);
    } else {
      BecomesApproved(t, op, key);
      if base :| ApprovesBase(t, op, base) && (key == base || (Kin(key, base) && StatusIs(t, key, Pending))) {
        why := Call(n - 1, base);
      } else {
        var p :| p in t.rows && StatusIs(t, p, Approved) && Kin(key, p);
        var reason := ApprovedIsExplained(ts, ops, n - 1, p);
        why := Inherited(n - 1, p, reason);
      }
    }
  }

  /** Over sound keys the call at the root of a reason named the key itself or an ancestor. */
  lemma {:induction false} OriginIsAncestor(ts: seq<Table>, ops: seq<Op>, n: nat, key: string, why: Reason)
    requires IsRun(ts, ops) && SoundKeys(ops) && n <= |ops| && Explains(ts, ops, n, key, why)
    ensures var o := Origin(why);
            o.step < n && ApprovesBase(ts[o.step], ops[o.step], o.base) && (key == o.base || Kin(key, o.base))
    decreases why
  {
    match why
    case Call(_, _) =>
    case Inherited(i, parent, reason) =>
      OriginIsAncestor(ts, ops, i, parent, reason);
      if parent != Origin(reason).base {
        KeysAreSound(ts, ops, i);
        KinTransitive(key, parent, Origin(reason).base);
      }
  }

  /** `ops[i]` is an `Approve` call on `base` that succeeded and was audited. */
  ghost predicate AuditedApproval(ts: seq<Table>, ops: seq<Op>, i: nat, base: string)
    requires IsRun(ts, ops)
  {
    && i < |ops| && ApprovesBase(ts[i], ops[i], base)
    && ts[i + 1].audit == ts[i].audit + [AuditEntry(ops[i].id, "approved", ops[i].reviewer, ops[i].comment)]
  }

  /** In every run over sound keys an approved row goes back to one audited approval of
      its key or of an ancestor, by someone other than "auto" or on an unflagged row. */
  lemma ApprovedHasAuditedOrigin(ts: seq<Table>, ops: seq<Op>, n: nat, key: string)
    requires IsRun(ts, ops) && SoundKeys(ops) && n <= |ops| && StatusIs(ts[n], key, Approved)
    ensures exists i: nat, base: string ::
              i < n && AuditedApproval(ts, ops, i, base) && (key == base || Kin(key, base)) &&
              (ops[i].reviewer != "auto" || !ts[i].rows[base].requireHuman)
  {
    var why := ApprovedIsExplained(ts, ops, n, key);
    OriginIsAncestor(ts, ops, n, key, why);
    var o := Origin(why);
    assert AuditedApproval(ts, ops, o.step, o.base);
  }

  /** `ops[i]` revoked `key`, which has been pending ever since. */
  ghost predicate RevokedAt(ts: seq<Table>, ops: seq<Op>, i: nat, n: nat, key: string)
    requires IsRun(ts, ops) && n <= |ops|
  {
    i < n && ops[i].Revoke? && Find(ts[i], ops[i].id) == Some(key) && Holds(ts, key, Pending, i + 1, n)
  }

  /** The call that approves an ancestor leaves nothing pending beneath it. */
  lemma CascadeReaches(t: Table, op: Op, key: string, ancestor: string)
    requires op.Approve? && Kin(key, ancestor) && forall k :: k in t.rows ==> SoundLink(k)
    requires !StatusIs(t, ancestor, Approved) && StatusIs(Step(t, op), ancestor, Approved)
    ensures !StatusIs(Step(t, op), key, Pending)
  {
    BecomesApproved(t, op, ancestor);
    var base := Find(t, op.id).value;
    KinDescends(key, ancestor);
    if ancestor != base {
      KinTransitive(key, ancestor, base);
    }
  }

  /** In every run over sound keys, what is pending beneath an approved ancestor was
      revoked there: cascade and inheritance leave nothing else behind. */
  lemma {:induction false} PendingBeneathApprovedWasRevoked(ts: seq<Table>, ops: seq<Op>, n: nat, key: string, ancestor: string)
    returns (i: nat)
    requires IsRun(ts, ops) && SoundKeys(ops) && n <= |ops|
    requires StatusIs(ts[n], key, Pending) && StatusIs(ts[n], ancestor, Approved) && Kin(key, ancestor)
    ensures RevokedAt(ts, ops, i, n, key)
    decreases n
  {
    var t, op := ts[n - 1], ops[n - 1];
    KinDescends(key, ancestor);
    assert ts[n] == Step(t, op);
    if !StatusIs(t, key, Pending) {
      BecomesPending(t, op, key);
      i := n - 1;
    } else if StatusIs(t, ancestor, Approved) {
      i := PendingBeneathApprovedWasRevoked(ts, ops, n - 1, key, ancestor);
    } else {
      BecomesApproved(t, op, ancestor);
      if op.Approve? {
        KeysAreSound(ts, ops, n - 1);
        CascadeReaches(t, op, key, ancestor);
        assert false;
      } else {
        var p :| p in t.rows && StatusIs(t, p, Approved) && Kin(ancestor, p);
        KeysAreSound(ts, ops, n);
        KinTransitive(key, ancestor, p);
        i := PendingBeneathApprovedWasRevoked(ts, ops, n - 1, key, p);
      }
    }
  }

  // ---------------------------------------------------------------- whose flag a row carries

  /** Step `i` inserted the row of this key, for the first time or after a rejection. */
  ghost predicate Inserts(ts: seq<Table>, ops: seq<Op>, i: nat, key: string)
    requires IsRun(ts, ops)
  {
    i < |ops| && ops[i].Enqueue? && ops[i].artifact.cacheKey == key && ts[i + 1] != ts[i]
  }

  /** The row describes this artifact. */
  predicate Describes(r: Row, a: Artifact) {
    && r.repoType == a.repoType && r.name == a.name && r.version == a.version && r.url == a.url
    && r.contentType == a.contentType && r.size == |a.data|
    && (r.requireHuman <==> Flagged(a)) && r.signatureError == a.requireHumanReview
  }

  lemma StepDescribes(t: Table, op: Op, key: string)
    requires key in Step(t, op).rows
    ensures key in t.rows ==> forall a :: Describes(t.rows[key], a) ==> Describes(Step(t, op).rows[key], a)
    ensures key !in t.rows ==> op.Enqueue? && op.artifact.cacheKey == key && Describes(Step(t, op).rows[key], op.artifact)
  {
  }

  /** A row describes the artifact its key was first inserted with, however often it was
      rejected and inserted again. */
  lemma {:induction false} RowIsOfFirst(ts: seq<Table>, ops: seq<Op>, n: nat, key: string) returns (i: nat)
    requires IsRun(ts, ops) && n <= |ops| && key in ts[n].rows
    ensures i < n && Inserts(ts, ops, i, key) && key !in ts[i].rows && Describes(ts[n].rows[key], ops[i].artifact)
  {
    StepDescribes(ts[n - 1], ops[n - 1], key);
    if key in ts[n - 1].rows {
      i := RowIsOfFirst(ts, ops, n - 1, key);
    } else {
      i := n - 1;
    }
  }

  lemma StepKeepsId(t: Table, op: Op, key: string)
    requires key in t.rows && key in Step(t, op).rows
    ensures Step(t, op).rows[key].id == t.rows[key].id || (op.Enqueue? && op.artifact.cacheKey == key && Step(t, op) != t && Step(t, op).rows[key].id == op.newId)
    ensures op.Enqueue? && op.artifact.cacheKey == key && Step(t, op) != t ==> Step(t, op).rows[key].id == op.newId
  {
  }

  /** Its id is that of the latest insertion. */
  lemma {:induction false} IdIsOfLatest(ts: seq<Table>, ops: seq<Op>, n: nat, key: string) returns (j: nat)
    requires IsRun(ts, ops) && n <= |ops| && key in ts[n].rows
    ensures j < n && Inserts(ts, ops, j, key) && ts[n].rows[key].id == ops[j].newId
    ensures forall m :: j < m < n ==> !Inserts(ts, ops, m, key)
  {
    StepDescribes(ts[n - 1], ops[n - 1], key);
    if key !in ts[n - 1].rows || Inserts(ts, ops, n - 1, key) {
      j := n - 1;
    } else {
      StepKeepsId(ts[n - 1], ops[n - 1], key);
      j := IdIsOfLatest(ts, ops, n - 1, key);
    }
  }

  /** In every run, a row carries the flag of its first insertion `i`, and so that of its
      latest insertion `j` if and only if the two artifacts agree about it. */
  lemma FlagIsOfFirst(ts: seq<Table>, ops: seq<Op>, n: nat, key: string) returns (i: nat, j: nat)
    requires IsRun(ts, ops) && n <= |ops| && key in ts[n].rows
    ensures i <= j < n && Inserts(ts, ops, i, key) && key !in ts[i].rows
    ensures Inserts(ts, ops, j, key) && forall m :: j < m < n ==> !Inserts(ts, ops, m, key)
    ensures ts[n].rows[key].requireHuman <==> Flagged(ops[i].artifact)
    ensures (ts[n].rows[key].requireHuman <==> Flagged(ops[j].artifact)) <==> (Flagged(ops[i].artifact) <==> Flagged(ops[j].artifact))
  {
    i := RowIsOfFirst(ts, ops, n, key);
    j := IdIsOfLatest(ts, ops, n, key);
  }

  function PlainFlagged(key: string, reason: string): Artifact {
    Plain(key).(requireHumanReview := reason)
  }

  /** For every key: inserted unflagged, rejected, inserted again flagged, and then approved
      automatically. */
  lemma RevivedFlagIsLost(key: string, reason: string) returns (ts: seq<Table>, ops: seq<Op>)
    requires reason != ""
    ensures IsRun(ts, ops) && |ops| == 4 && ops[3] == Approve("2", "auto", "")
    ensures ops[2] == Enqueue(PlainFlagged(key, reason), "2") && Inserts(ts, ops, 2, key) && Flagged(ops[2].artifact)
    ensures StatusIs(ts[3], key, Pending) && StatusIs(ts[4], key, Approved)
  {
    ts, ops := Extend([EMPTY], [], Enqueue(Plain(key), "1"));
    EnqueueUnknown(EMPTY, key, "1");
    assert ts[1].rows.Keys == {key} && Find(ts[1], "1") == Some(key);
    RejectionRow(ts[1], Reject("1", "admin", ""), key, key);
    ts, ops := Extend(ts, ops, Reject("1", "admin", ""));
    InsertionRow(ts[2], PlainFlagged(key, reason), "2", key);
    NoOwnParent(ts[2], key);
    ts, ops := Extend(ts, ops, Enqueue(PlainFlagged(key, reason), "2"));
    assert Find(ts[3], "2") == Some(key);
    ApprovalRow(ts[3], Approve("2", "auto", ""), key, key);
    ts, ops := Extend(ts, ops, Approve("2", "auto", ""));
  }

  lemma AutoApproved(key: string) returns (ts: seq<Table>, ops: seq<Op>)
    ensures IsRun(ts, ops) && ops == [Enqueue(Plain(key), "1"), Approve("1", "auto", "")]
    ensures ts[2].rows.Keys == {key} && ts[2].rows[key].id == "1" && StatusIs(ts[2], key, Approved)
  {
    ts, ops := Extend([EMPTY], [], Enqueue(Plain(key), "1"));
    EnqueueUnknown(EMPTY, key, "1");
    assert ts[1].rows.Keys == {key} && Find(ts[1], "1") == Some(key);
    ApprovalRow(ts[1], Approve("1", "auto", ""), key, key);
    ts, ops := Extend(ts, ops, Approve("1", "auto", ""));
  }

  /** For every parent: once it is approved automatically, a flagged child comes in approved. */
  lemma FlaggedChildInherits(parent: string, rest: string, reason: string) returns (ts: seq<Table>, ops: seq<Op>, child: string)
    requires reason != ""
    ensures child == parent + "/" + rest && IsRun(ts, ops) && |ops| == 3 && ops[1] == Approve("1", "auto", "")
    ensures ops[2] == Enqueue(PlainFlagged(child, reason), "2") && child !in ts[2].rows
    ensures StatusIs(ts[3], child, Approved) && ts[3].rows[child].requireHuman
  {
    child := parent + "/" + rest;
    KinOfExtension(parent, rest);
    KinDescends(child, parent);
    ts, ops := AutoApproved(parent);
    assert HasApprovedParent(ts[2], child);
    InsertionRow(ts[2], PlainFlagged(child, reason), "2", child);
    ts, ops := Extend(ts, ops, Enqueue(PlainFlagged(child, reason), "2"));
  }

  // ---------------------------------------------------------------- when a rejection lasts

  /** Exactly when a rejected row becomes approved in one step: by a successful call that names
      it, automatic ones on an unflagged row included, or by its re-insertion beneath an
      approved parent. A cascade never does it. */
  lemma RejectedBecomesApproved(t: Table, op: Op, key: string)
    requires StatusIs(t, key, Rejected)
    ensures StatusIs(Step(t, op), key, Approved) <==>
      || ApprovesBase(t, op, key)
      || (op.Enqueue? && op.artifact.cacheKey == key && !IdInUse(t, op.newId) && HasApprovedParent(t, key))
  {
    if StatusIs(Step(t, op), key, Approved) {
      BecomesApproved(t, op, key);
    } else if ApprovesBase(t, op, key) {
      ApprovalRow(t, op, key, key);
    }
  }

  /** The operations that end a rejection: a successful approval that names the row, its
      re-insertion, and its revocation. */
  ghost predicate EndsRejection(t: Table, op: Op, key: string) {
    || ApprovesBase(t, op, key)
    || (op.Enqueue? && op.artifact.cacheKey == key && !IdInUse(t, op.newId))
    || (op.Revoke? && Find(t, op.id) == Some(key))
  }

  lemma RejectionEnds(t: Table, op: Op, key: string)
    requires StatusIs(t, key, Rejected)
    ensures StatusIs(Step(t, op), key, Rejected) <==> !EndsRejection(t, op, key)
  {
    if ApprovesBase(t, op, key) {
      ApprovalRow(t, op, key, key);
    }
  }

  /** None of the operations from `m` on, before `n`, ends the rejection. */
  ghost predicate NoneEnds(ts: seq<Table>, ops: seq<Op>, m: nat, n: nat, key: string)
    requires IsRun(ts, ops) && n <= |ops|
  {
    forall i :: m <= i < n ==> !EndsRejection(ts[i], ops[i], key)
  }

  lemma HoldsMore(ts: seq<Table>, m: nat, n: nat, key: string, status: Status)
    requires m < n < |ts|
    ensures Holds(ts, key, status, m, n) <==> Holds(ts, key, status, m, n - 1) && StatusIs(ts[n], key, status)
  {
  }

  lemma NoneMore(ts: seq<Table>, ops: seq<Op>, m: nat, n: nat, key: string)
    requires IsRun(ts, ops) && m < n <= |ops|
    ensures NoneEnds(ts, ops, m, n, key) <==> NoneEnds(ts, ops, m, n - 1, key) && !EndsRejection(ts[n - 1], ops[n - 1], key)
  {
  }

  lemma RejectionEndsAt(ts: seq<Table>, ops: seq<Op>, n: nat, key: string)
    requires IsRun(ts, ops) && n < |ops| && StatusIs(ts[n], key, Rejected)
    ensures StatusIs(ts[n + 1], key, Rejected) <==> !EndsRejection(ts[n], ops[n], key)
  {
    RejectionEnds(ts[n], ops[n], key);
  }

  /** In every run, a rejected row stays rejected exactly as long as no such operation occurs. */
  lemma {:induction false} RejectionLasts(ts: seq<Table>, ops: seq<Op>, m: nat, n: nat, key: string)
    requires IsRun(ts, ops) && m <= n <= |ops| && StatusIs(ts[m], key, Rejected)
    ensures Holds(ts, key, Rejected, m, n) <==> NoneEnds(ts, ops, m, n, key)
    decreases n
  {
    if m < n {
      RejectionLasts(ts, ops, m, n - 1, key);
      HoldsMore(ts, m, n, key, Rejected);
      NoneMore(ts, ops, m, n, key);
      if StatusIs(ts[n - 1], key, Rejected) {
        RejectionEndsAt(ts, ops, n - 1, key);
      }
    }
  }

  /** A row rejected at step `m` and approved at step `n` left its rejection at a step `i` in
      between, by one of the three; unless that approved it, it was pending next. */
  lemma {:induction false} RejectionLeft(ts: seq<Table>, ops: seq<Op>, m: nat, n: nat, key: string) returns (i: nat)
    requires IsRun(ts, ops) && m <= n <= |ops| && StatusIs(ts[m], key, Rejected) && StatusIs(ts[n], key, Approved)
    ensures m <= i < n && StatusIs(ts[i], key, Rejected) && EndsRejection(ts[i], ops[i], key)
    ensures Holds(ts, key, Rejected, m, i)
    ensures StatusIs(ts[i + 1], key, Approved) <==>
      ApprovesBase(ts[i], ops[i], key) || (ops[i].Enqueue? && HasApprovedParent(ts[i], key))
    ensures StatusIs(ts[i + 1], key, Approved) || StatusIs(ts[i + 1], key, Pending)
    decreases n - m
  {
    RejectionEnds(ts[m], ops[m], key);
    RejectedBecomesApproved(ts[m], ops[m], key);
    if StatusIs(ts[m + 1], key, Rejected) {
      i := RejectionLeft(ts, ops, m + 1, n, key);
    } else {
      i := m;
      StaysInTable(ts[m], ops[m], key);
    }
  }

  lemma StaysInTable(t: Table, op: Op, key: string)
    requires key in t.rows
    ensures key in Step(t, op).rows
  {
  }

  /** For every parent there is a run in which a rejected child ends approved although no
      approval names it and it is not inserted again: it is revoked, and the cascade follows. */
  lemma RevokedRejectionCascades(parent: string, rest: string) returns (ts: seq<Table>, ops: seq<Op>, child: string)
    ensures child == parent + "/" + rest && IsRun(ts, ops)
    ensures ops == [Enqueue(Plain(parent), "1"), Enqueue(Plain(child), "2"), Reject("2", "admin", ""), Revoke("2", "admin", ""), Approve("1", "auto", "")]
    ensures StatusIs(ts[3], child, Rejected) && StatusIs(ts[5], child, Approved)
  {
    child := parent + "/" + rest;
    KinOfExtension(parent, rest);
    KinDescends(child, parent);
    ts, ops := Extend([EMPTY], [], Enqueue(Plain(parent), "1"));
    EnqueueUnknown(EMPTY, parent, "1");
    assert ts[1].rows.Keys == {parent};
    assert StatusIs(ts[1], parent, Pending);
    ts, ops := Extend(ts, ops, Enqueue(Plain(child), "2"));
    TwoPending(ts[1], parent, child);
    var t2 := ts[2];
    ts, ops := Extend(ts, ops, Reject("2", "admin", ""));
    ts, ops := Extend(ts, ops, Revoke("2", "admin", ""));
    ts, ops := Extend(ts, ops, Approve("1", "auto", ""));
    RejectRevokeApprove(t2, parent, child);
  }

  lemma TwoPending(t: Table, parent: string, child: string)
    requires t.rows.Keys == {parent} && t.rows[parent].id == "1" && StatusIs(t, parent, Pending) && !t.rows[parent].requireHuman
    requires child != parent
    ensures var t' := Step(t, Enqueue(Plain(child), "2"));
            && t'.rows.Keys == {parent, child} && t'.rows[parent] == t.rows[parent]
            && t'.rows[child].id == "2" && StatusIs(t', child, Pending)
  {
    InsertionRow(t, Plain(child), "2", child);
    InsertionRow(t, Plain(child), "2", parent);
  }

  lemma RejectRevokeApprove(t: Table, parent: string, child: string)
    requires t.rows.Keys == {parent, child} && t.rows[parent].id == "1" && t.rows[child].id == "2"
    requires StatusIs(t, parent, Pending) && !t.rows[parent].requireHuman && StatusIs(t, child, Pending)
    requires Kin(child, parent) && !Kin(parent, child) && child != parent
    ensures var t3 := Step(t, Reject("2", "admin", ""));
            var t4 := Step(t3, Revoke("2", "admin", ""));
            StatusIs(t3, child, Rejected) && StatusIs(Step(t4, Approve("1", "auto", "")), child, Approved)
  {
    var t3 := Step(t, Reject("2", "admin", ""));
    assert Find(t, "2") == Some(child);
    RejectionRow(t, Reject("2", "admin", ""), child, child);
    RejectionRow(t, Reject("2", "admin", ""), child, parent);
    var t4 := Step(t3, Revoke("2", "admin", ""));
    assert Find(t3, "2") == Some(child);
    RevocationRow(t3, Revoke("2", "admin", ""), child, child);
    RevocationRow(t3, Revoke("2", "admin", ""), child, parent);
    assert Find(t4, "1") == Some(parent);
    ApprovalRow(t4, Approve("1", "auto", ""), parent, child);
  }

  /** An approval does not look at the status: one decided on while the row was pending undoes
      a rejection that came in between. */
  lemma LateApprovalUndoesRejection(t: Table, key: string, id: string, comment: string)
    requires Find(t, id) == Some(key) && StatusIs(t, key, Pending) && !t.rows[key].requireHuman && UniqueIds(t)
    ensures var t1 := Step(t, Reject(id, "admin", ""));
            StatusIs(t1, key, Rejected) && StatusIs(Step(t1, Approve(id, "auto", comment)), key, Approved)
  {
    var t1 := Step(t, Reject(id, "admin", ""));
    RejectionRow(t, Reject(id, "admin", ""), key, key);
    StepKeepsUniqueIds(t, Reject(id, "admin", ""));
    assert t1.rows[key].id == id;
    assert Find(t1, id) == Some(key);
    ApprovalRow(t1, Approve(id, "auto", comment), key, key);
  }

  lemma NoOwnParent(t: Table, key: string)
    requires t.rows.Keys == {key}
    ensures !HasApprovedParent(t, key)
  {
    if Kin(key, key) {
      KinDescends(key, key);
    }
  }

  /** For every parent: a flagged child enqueued beneath it while it is pending is approved by
      the automatic approval of the unflagged parent. */
  lemma FlaggedChildApproved(parent: string, rest: string, reason: string) returns (ts: seq<Table>, ops: seq<Op>, child: string)
    requires reason != ""
    ensures child == parent + "/" + rest && IsRun(ts, ops) && |ops| == 3 && ops[2] == Approve("1", "auto", "")
    ensures StatusIs(ts[2], child, Pending) && ts[2].rows[child].requireHuman && StatusIs(ts[3], child, Approved)
  {
    child := parent + "/" + rest;
    KinOfExtension(parent, rest);
    KinDescends(child, parent);
    ts, ops := Extend([EMPTY], [], Enqueue(Plain(parent), "1"));
    EnqueueUnknown(EMPTY, parent, "1");
    assert ts[1].rows.Keys == {parent} && StatusIs(ts[1], parent, Pending);
    InsertionRow(ts[1], PlainFlagged(child, reason), "2", child);
    InsertionRow(ts[1], PlainFlagged(child, reason), "2", parent);
    ts, ops := Extend(ts, ops, Enqueue(PlainFlagged(child, reason), "2"));
    assert Find(ts[2], "1") == Some(parent);
    ApprovalRow(ts[2], Approve("1", "auto", ""), parent, child);
    ts, ops := Extend(ts, ops, Approve("1", "auto", ""));
  }

  // ---------------------------------------------------------------- the condition is exact

  function Plain(key: string): Artifact {
    Artifact(key, "r", "", "", "", "", [], "")
  }

  lemma EnqueueUnknown(t: Table, key: string, id: string)
    requires key !in t.rows && !IdInUse(t, id)
    ensures Step(t, Enqueue(Plain(key), id)).rows == t.rows[key := FreshRow(Plain(key), id, StatusOnEnqueue(t, key))]
  {
  }

  /** The tables after enqueueing one key and approving it. */
  lemma OneApproved(c: string) returns (t1: Table, t2: Table)
    ensures t1 == Step(EMPTY, Enqueue(Plain(c), "1")) && t2 == Step(t1, Approve("1", "admin", ""))
    ensures StatusIs(t1, c, Pending) && Find(t1, "1") == Some(c) && ApprovesBase(t1, Approve("1", "admin", ""), c)
    ensures t2.rows.Keys == {c} && t2.rows[c].id == "1" && StatusIs(t2, c, Approved)
  {
    t1 := Step(EMPTY, Enqueue(Plain(c), "1"));
    EnqueueUnknown(EMPTY, c, "1");
    assert t1.rows.Keys == {c};
    t2 := Step(t1, Approve("1", "admin", ""));
    if Kin(c, c) {
      KinDescends(c, c);
    }
  }

  /** Enqueueing a key that has no row, under a free id: the other rows stay, the new row is
      approved exactly when it has an approved parent. */
  lemma EnqueueAdds(t: Table, key: string, id: string) returns (t': Table)
    requires key !in t.rows && forall k :: k in t.rows ==> t.rows[k].id != id
    ensures t' == Step(t, Enqueue(Plain(key), id))
    ensures t'.rows.Keys == t.rows.Keys + {key} && t'.rows[key].id == id
    ensures StatusIs(t', key, if HasApprovedParent(t, key) then Approved else Pending)
    ensures forall k :: k in t.rows ==> t'.rows[k] == t.rows[k]
  {
    t' := Step(t, Enqueue(Plain(key), id));
    EnqueueUnknown(t, key, id);
  }

  /** A child inserted approved beneath an approved parent, then revoked. */
  lemma InheritThenRevoke() returns (parent: string, child: string, t1: Table, t2: Table, t3: Table, t4: Table)
    ensures t1 == Step(EMPTY, Enqueue(Plain(parent), "1")) && StatusIs(t1, parent, Pending) && t1 != EMPTY
    ensures t2 == Step(t1, Approve("1", "admin", ""))
    ensures t3 == Step(t2, Enqueue(Plain(child), "2")) && StatusIs(t3, child, Approved) && t3 != t2
    ensures t4 == Step(t3, Revoke("2", "admin", "")) && StatusIs(t4, child, Pending)
  {
    parent, child := "p", "p" + "/" + "c";
    KinOfExtension("p", "c");
    KinDescends(child, parent);
    t1, t2 := OneApproved(parent);
    assert StatusIs(t2, parent, Approved);
    assert HasApprovedParent(t2, child);
    t3 := EnqueueAdds(t2, child, "2");
    t4 := Step(t3, Revoke("2", "admin", ""));
    assert Find(t3, "2") == Some(child);
  }

  /** One more operation at the end of a run. */
  lemma Extend(ts: seq<Table>, ops: seq<Op>, op: Op) returns (ts': seq<Table>, ops': seq<Op>)
    requires IsRun(ts, ops)
    ensures IsRun(ts', ops') && ops' == ops + [op] && ts' == ts + [Step(ts[|ops|], op)]
  {
    ts', ops' := ts + [Step(ts[|ops|], op)], ops + [op];
  }

  /** The run that enqueues one key and approves it. */
  lemma ApprovedRun(c: string) returns (ts: seq<Table>, ops: seq<Op>)
    ensures IsRun(ts, ops) && |ops| == 2 && ops[0].Enqueue? && ops[1].Approve? && Find(ts[1], ops[1].id) == Some(c)
    ensures ts[2].rows.Keys == {c} && ts[2].rows[c].id == "1" && StatusIs(ts[2], c, Approved)
  {
    var t1, t2 := OneApproved(c);
    ts, ops := Extend([EMPTY], [], Enqueue(Plain(c), "1"));
    ts, ops := Extend(ts, ops, Approve("1", "admin", ""));
    assert ts[1] == t1 && ts[2] == t2;
  }

  lemma PendingThenBeneath(t: Table, a: string, b: string, c: string) returns (t3: Table, t4: Table)
    requires t.rows.Keys == {c} && t.rows[c].id == "1" && StatusIs(t, c, Approved)
    requires Kin(a, b) && Kin(b, c) && !Kin(a, c) && a != b && a != c && b != c
    ensures t3 == Step(t, Enqueue(Plain(a), "2")) && t4 == Step(t3, Enqueue(Plain(b), "3"))
    ensures StatusIs(t4, a, Pending) && StatusIs(t4, b, Approved)
  {
    t3 := EnqueueAdds(t, a, "2");
    t4 := EnqueueBeneath(t3, b, c, "3");
  }

  lemma BeneathTwice(t: Table, a: string, b: string, c: string) returns (t3: Table, t4: Table)
    requires t.rows.Keys == {c} && t.rows[c].id == "1" && StatusIs(t, c, Approved)
    requires Kin(a, b) && Kin(b, c) && a != b && a != c && b != c
    ensures t3 == Step(t, Enqueue(Plain(b), "2")) && t4 == Step(t3, Enqueue(Plain(a), "3"))
    ensures StatusIs(t4, a, Approved)
  {
    t3 := EnqueueBeneath(t, b, c, "2");
    t4 := EnqueueBeneath(t3, a, b, "3");
  }

  /** For every unsound key there is a run without any revocation that leaves a row
      pending beneath it while it is approved. */
  lemma UnsoundKeyLeavesPending(b: string) returns (ops: seq<Op>, ts: seq<Table>, a: string)
    requires !SoundLink(b)
    ensures IsRun(ts, ops)
    ensures StatusIs(ts[|ops|], a, Pending) && StatusIs(ts[|ops|], b, Approved) && Kin(a, b)
    ensures forall i :: 0 <= i < |ops| ==> !ops[i].Revoke?
  {
    var c: string;
    a, c := KinNotTransitive(b);
    KinDescends(a, b);
    KinDescends(b, c);
    ts, ops := ApprovedRun(c);
    var t3, t4 := PendingThenBeneath(ts[2], a, b, c);
    ts, ops := Extend(ts, ops, Enqueue(Plain(a), "2"));
    assert ts[3] == t3;
    ts, ops := Extend(ts, ops, Enqueue(Plain(b), "3"));
    assert ts[4] == t4;
  }

  /** Beneath an approved parent the new row is approved. */
  lemma EnqueueBeneath(t: Table, key: string, parent: string, id: string) returns (t': Table)
    requires key !in t.rows && StatusIs(t, parent, Approved) && Kin(key, parent)
    requires forall k :: k in t.rows ==> t.rows[k].id != id
    ensures t' == Step(t, Enqueue(Plain(key), id))
    ensures t'.rows.Keys == t.rows.Keys + {key} && t'.rows[key].id == id && StatusIs(t', key, Approved)
    ensures forall k :: k in t.rows ==> t'.rows[k] == t.rows[k]
  {
    assert HasApprovedParent(t, key);
    t' := EnqueueAdds(t, key, id);
  }

  /** For every unsound key there is a run that approves a row although the only approval
      call named neither that row nor an ancestor of it. */
  lemma UnsoundKeyLosesOrigin(b: string) returns (ops: seq<Op>, ts: seq<Table>, a: string, c: string)
    requires !SoundLink(b)
    ensures IsRun(ts, ops) && StatusIs(ts[|ops|], a, Approved)
    ensures forall i :: 0 <= i < |ops| && ops[i].Approve? ==> Find(ts[i], ops[i].id) == Some(c)
    ensures a != c && !Kin(a, c)
  {
    a, c := KinNotTransitive(b);
    KinDescends(a, b);
    KinDescends(b, c);
    ts, ops := ApprovedRun(c);
    var t3, t4 := BeneathTwice(ts[2], a, b, c);
    ts, ops := Extend(ts, ops, Enqueue(Plain(b), "2"));
    assert ts[3] == t3;
    ts, ops := Extend(ts, ops, Enqueue(Plain(a), "3"));
    assert ts[4] == t4;
  }
}
