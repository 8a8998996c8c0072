/** Waiting requests and scan hooks, interleaved one atomic step at a time.
    A request subscribes, checks and blocks; a hook writes scan statuses, may approve,
    takes the subscriber list and signals it channel by channel. */
module ScanWait {
  import opened Wrappers
  import Q = Quarantine

  /** A buffered channel of capacity one, by number; `System.full` holds those with a token. */
  type Chan = nat

  type Subs = map<string, seq<Chan>>

  datatype ScanStatus = Scanning | Done | Error

  // ---------------------------------------------------------------- the subscriber lists

  function Chans(subs: Subs, id: string): seq<Chan> {
    if id in subs then subs[id] else []
  }

  function Subscribed(subs: Subs, id: string, ch: Chan): Subs {
    subs[id := Chans(subs, id) + [ch]]
  }

  function Without(chans: seq<Chan>, ch: Chan): (r: seq<Chan>)
    ensures forall c :: c in chans && c != ch ==> c in r
    ensures forall c :: c in r ==> c in chans
  {
    if chans == [] then []
    else if chans[0] == ch then chans[1..]
    else [chans[0]] + Without(chans[1..], ch)
  }

  function Cancelled(subs: Subs, id: string, ch: Chan): Subs {
    if ch in Chans(subs, id) then subs[id := Without(subs[id], ch)] else subs
  }

  function Taken(subs: Subs, id: string): Subs {
    subs - {id}
  }

  // ---------------------------------------------------------------- the system

  /** Where `waitScan` stands. */
  datatype WaiterPc =
    | Listening                  // subscribed, nothing read yet
    | Unapproved                 // read IsApproved = false
    | Blocked                    // read IsScanDone = false, in the select
    | Woken                      // left the select by token or timeout
    | Leaving(result: bool)      // result decided, deferred cancel still to run
    | Left(result: bool)

  datatype Waiter = Waiter(id: string, key: string, ch: Chan, pc: WaiterPc)

  /** Where the scan hook stands. */
  datatype HookPc =
    | Started
    | InScan                     // wrote "scanning"
    | Deciding                   // wrote "done"
    | MustNotify                 // only the deferred NotifyScanDone is left
    | Notifying(rest: seq<Chan>) // took the list, `rest` not signalled yet
    | Finished

  datatype Hook = Hook(id: string, pc: HookPc)

  /** How an id came to its row: before the process started, or by an insertion that left the
      row pending or approved. */
  datatype Birth = Existing(key: string) | Inserted(key: string, status: Q.Status)

  /** `resume` are the ids queued for resumption, `born` all ids that rows have had. */
  datatype System = System(table: Q.Table, scans: map<string, ScanStatus>, subs: Subs, full: set<Chan>,
                           next: Chan, waiters: map<nat, Waiter>, hooks: map<nat, Hook>, resume: set<string>,
                           born: map<string, Birth>)

  datatype Action =
    | Store(op: Q.Op, h: nat)    // any store operation; a pending insertion starts hook `h`
    | Resume(id: string, h: nat)
    | Subscribe(w: nat, id: string, key: string)
    | ReadApproved(w: nat)
    | ReadScanDone(w: nat)
    | Receive(w: nat)
    | TimeOut(w: nat)
    | ContextDone(w: nat)
    | ReadAgain(w: nat)
    | Cancel(w: nat)
    | WriteScanning(h: nat)
    | WriteError(h: nat)
    | WriteDone(h: nat)
    | AutoApprove(h: nat, comment: string)
    | LeavePending(h: nat)
    | Take(h: nat)
    | Send(h: nat)
    | Finish(h: nat)

  predicate WaiterAt(s: System, w: nat, pc: WaiterPc) {
    w in s.waiters && s.waiters[w].pc == pc
  }

  predicate HookAt(s: System, h: nat, pc: HookPc) {
    h in s.hooks && s.hooks[h].pc == pc
  }

  predicate ScanOver(s: System, id: string) {
    id in s.scans && s.scans[id] != Scanning
  }

  /** Ids are random and not used twice; a request waits for an id its key's row has had. */
  predicate Enabled(s: System, a: Action) {
    match a
    case Store(op, h) => h !in s.hooks && (op.Enqueue? ==> op.newId !in s.born && op.newId !in s.scans)
    case Resume(id, h) => h !in s.hooks && id in s.resume
    case Subscribe(w, id, key) => w !in s.waiters && id in s.born && s.born[id].key == key
    case ReadApproved(w) => WaiterAt(s, w, Listening)
    case ReadScanDone(w) => WaiterAt(s, w, Unapproved)
    case Receive(w) => WaiterAt(s, w, Blocked) && s.waiters[w].ch in s.full
    case TimeOut(w) => WaiterAt(s, w, Blocked)
    case ContextDone(w) => WaiterAt(s, w, Blocked)
    case ReadAgain(w) => WaiterAt(s, w, Woken)
    case Cancel(w) => w in s.waiters && s.waiters[w].pc.Leaving?
    case WriteScanning(h) => HookAt(s, h, Started)
    case WriteError(h) => HookAt(s, h, InScan)
    case WriteDone(h) => HookAt(s, h, InScan)
    case AutoApprove(h, _) => HookAt(s, h, Deciding)
    case LeavePending(h) => HookAt(s, h, Deciding)
    case Take(h) => HookAt(s, h, MustNotify)
    case Send(h) => h in s.hooks && s.hooks[h].pc.Notifying? && s.hooks[h].pc.rest != []
    case Finish(h) => HookAt(s, h, Notifying([]))
  }

  function MoveWaiter(s: System, w: nat, pc: WaiterPc): System
    requires w in s.waiters
  {
    s.(waiters := s.waiters[w := s.waiters[w].(pc := pc)])
  }

  function MoveHook(s: System, h: nat, pc: HookPc): System
    requires h in s.hooks
  {
    s.(hooks := s.hooks[h := s.hooks[h].(pc := pc)])
  }

  ghost predicate Inserts(t: Q.Table, op: Q.Op) {
    op.Enqueue? && Q.Step(t, op) != t && op.artifact.cacheKey in Q.Step(t, op).rows
  }

  ghost function Births(s: System, op: Q.Op): map<string, Birth> {
    if Inserts(s.table, op)
    then s.born[op.newId := Inserted(op.artifact.cacheKey, Q.Step(s.table, op).rows[op.artifact.cacheKey].status)]
    else s.born
  }

  /** `OnEnqueue` is started for an insertion that came out pending. */
  ghost predicate StartsHook(t: Q.Table, op: Q.Op) {
    op.Enqueue? && Q.Step(t, op) != t && Q.StatusIs(Q.Step(t, op), op.artifact.cacheKey, Q.Pending)
  }

  ghost function Next(s: System, a: Action): System
    requires Enabled(s, a)
  {
    match a
    case Store(op, h) =>
      var s1 := s.(table := Q.Step(s.table, op), born := Births(s, op));
      if StartsHook(s.table, op) then s1.(hooks := s.hooks[h := Hook(op.newId, Started)]) else s1
    case Resume(id, h) => s.(resume := s.resume - {id}, hooks := s.hooks[h := Hook(id, Started)])
    case Subscribe(w, id, key) =>
      s.(subs := Subscribed(s.subs, id, s.next), next := s.next + 1,
         waiters := s.waiters[w := Waiter(id, key, s.next, Listening)])
    case ReadApproved(w) =>
      MoveWaiter(s, w, if Q.StatusIs(s.table, s.waiters[w].key, Q.Approved) then Leaving(true) else Unapproved)
    case ReadScanDone(w) => MoveWaiter(s, w, if ScanOver(s, s.waiters[w].id) then Leaving(false) else Blocked)
    case Receive(w) => MoveWaiter(s.(full := s.full - {s.waiters[w].ch}), w, Woken)
    case TimeOut(w) => MoveWaiter(s, w, Woken)
    case ContextDone(w) => MoveWaiter(s, w, Leaving(false))
    case ReadAgain(w) => MoveWaiter(s, w, Leaving(Q.StatusIs(s.table, s.waiters[w].key, Q.Approved)))
    case Cancel(w) =>
      var wt := s.waiters[w];
      MoveWaiter(s.(subs := Cancelled(s.subs, wt.id, wt.ch)), w, Left(wt.pc.result))
    case WriteScanning(h) => MoveHook(s.(scans := s.scans[s.hooks[h].id := Scanning]), h, InScan)
    case WriteError(h) => MoveHook(s.(scans := s.scans[s.hooks[h].id := Error]), h, MustNotify)
    case WriteDone(h) => MoveHook(s.(scans := s.scans[s.hooks[h].id := Done]), h, Deciding)
    case AutoApprove(h, comment) =>
      MoveHook(s.(table := Q.Step(s.table, Q.Approve(s.hooks[h].id, "auto", comment))), h, MustNotify)
    case LeavePending(h) => MoveHook(s, h, MustNotify)
    case Take(h) =>
      MoveHook(s.(subs := Taken(s.subs, s.hooks[h].id)), h, Notifying(Chans(s.subs, s.hooks[h].id)))
    case Send(h) =>
      var rest := s.hooks[h].pc.rest;
      MoveHook(s.(full := s.full + {rest[0]}), h, Notifying(rest[1..]))
    case Finish(h) => MoveHook(s, h, Finished)
  }

  predicate NeedsScan(scans: map<string, ScanStatus>, id: string) {
    id !in scans || scans[id] == Scanning || scans[id] == Error
  }

  /** A process start: any table with unique ids and any scan statuses, nobody waiting, and
      every row without a successful scan queued for resumption. */
  ghost predicate Init(s: System) {
    && s.subs == map[] && s.full == {} && s.waiters == map[] && s.hooks == map[]
    && (forall id :: id in s.resume <==> Q.IdInUse(s.table, id) && NeedsScan(s.scans, id))
    && (forall id :: id in s.born <==> Q.IdInUse(s.table, id))
    && (forall k :: k in s.table.rows ==> s.born[s.table.rows[k].id] == Existing(k))
  }

  ghost predicate IsExecution(ss: seq<System>, acts: seq<Action>) {
    && |ss| == |acts| + 1 && Init(ss[0])
    && forall i {:trigger acts[i]} :: 0 <= i < |acts| ==> Enabled(ss[i], acts[i]) && ss[i + 1] == Next(ss[i], acts[i])
  }

  // ---------------------------------------------------------------- the invariant

  ghost predicate Waiting(wt: Waiter) {
    wt.pc in {Listening, Unapproved, Blocked}
  }

  ghost predicate NotTaken(pc: HookPc) {
    pc in {Started, InScan, Deciding, MustNotify}
  }

  /** Hook `h` has the channel of `wt` on the list it is signalling. */
  ghost predicate OnList(s: System, h: nat, wt: Waiter) {
    h in s.hooks && s.hooks[h].id == wt.id && s.hooks[h].pc.Notifying? && wt.ch in s.hooks[h].pc.rest
  }

  /** Hook `h` is going to signal `wt` if nothing but its own steps intervenes. */
  ghost predicate WillSignal(s: System, h: nat, wt: Waiter) {
    || OnList(s, h, wt)
    || (TakesFor(s, h, wt.id) && wt.ch in Chans(s.subs, wt.id))
  }

  ghost predicate DistinctChannels(s: System) {
    && (forall w :: w in s.waiters ==> s.waiters[w].ch < s.next)
    && (forall v, w :: v in s.waiters && w in s.waiters && s.waiters[v].ch == s.waiters[w].ch ==> v == w)
  }

  ghost predicate Reachable(s: System, w: nat)
    requires w in s.waiters
  {
    var wt := s.waiters[w];
    wt.ch in s.full || wt.ch in Chans(s.subs, wt.id) || exists h :: OnList(s, h, wt)
  }

  /** A waiting request still has its channel where a hook will find it. */
  ghost predicate NobodyForgotten(s: System) {
    forall w :: w in s.waiters && Waiting(s.waiters[w]) ==> Reachable(s, w)
  }

  /** Hook `h` for `id` has not written its scan result yet. */
  ghost predicate Scans(s: System, h: nat, id: string) {
    h in s.hooks && s.hooks[h].id == id && s.hooks[h].pc in {Started, InScan}
  }

  /** "scanning" is only ever seen for a row's id while a hook for it is before its scan result, or queued. */
  ghost predicate ScanningIsLive(s: System) {
    forall id :: id in s.born && id in s.scans && s.scans[id] == Scanning ==>
      id in s.resume || exists h :: Scans(s, h, id)
  }

  /** Hook `h` has not taken the subscriber list of `id` yet. */
  ghost predicate TakesFor(s: System, h: nat, id: string) {
    h in s.hooks && s.hooks[h].id == id && NotTaken(s.hooks[h].pc)
  }

  /** Nobody sleeps on the list of a finished scan unless a hook will still take it. */
  ghost predicate NoSleeperOnFinished(s: System) {
    forall w :: w in s.waiters && s.waiters[w].pc == Blocked && s.waiters[w].ch in Chans(s.subs, s.waiters[w].id)
                && ScanOver(s, s.waiters[w].id) ==>
      exists h :: TakesFor(s, h, s.waiters[w].id)
  }

  /** A hook past its first step has left a scan status. */
  ghost predicate HooksLeaveStatus(s: System) {
    forall h :: h in s.hooks && s.hooks[h].pc != Started ==> s.hooks[h].id in s.scans
  }

  predicate BornApproved(b: Birth) {
    b == Inserted(b.key, Q.Approved)
  }

  predicate HookFor(s: System, h: nat, id: string) {
    h in s.hooks && s.hooks[h].id == id
  }

  /** Hooks and statuses belong to ids of rows that were not inserted approved. */
  ghost predicate HooksAreBorn(s: System) {
    && (forall h :: h in s.hooks ==> s.hooks[h].id in s.born && !BornApproved(s.born[s.hooks[h].id]))
    && (forall id :: id in s.resume ==> id in s.born && s.born[id].Existing?)
    && (forall id :: id in s.born && BornApproved(s.born[id]) ==> id !in s.scans)
    && (forall w :: w in s.waiters ==> s.waiters[w].id in s.born && s.born[s.waiters[w].id].key == s.waiters[w].key)
  }

  /** Every other id has a hook, a scan status, or its place in the queue. */
  ghost predicate AllAreHooked(s: System) {
    forall id :: id in s.born && !BornApproved(s.born[id]) ==>
      id in s.resume || id in s.scans || exists h :: HookFor(s, h, id)
  }

  ghost predicate Inv(s: System) {
    && DistinctChannels(s) && NobodyForgotten(s) && ScanningIsLive(s) && NoSleeperOnFinished(s) && HooksLeaveStatus(s)
    && HooksAreBorn(s) && AllAreHooked(s)
  }

  lemma InitInv(s: System)
    requires Init(s)
    ensures Inv(s)
  {
  }

  /** Only a new request gets a channel, a fresh one. */
  ghost predicate KeepsChannel(s: System, a: Action, w: nat)
    requires Enabled(s, a) && w in Next(s, a).waiters
  {
    if a.Subscribe? && a.w == w then Next(s, a).waiters[w].ch == s.next
    else w in s.waiters && Next(s, a).waiters[w].ch == s.waiters[w].ch
  }

  lemma ChannelKept(s: System, a: Action, w: nat)
    requires Enabled(s, a) && w in Next(s, a).waiters
    ensures KeepsChannel(s, a, w) && Next(s, a).next == if a.Subscribe? then s.next + 1 else s.next
  {
  }

  lemma ChannelsApart(s: System, a: Action, v: nat, w: nat)
    requires Enabled(s, a) && DistinctChannels(s) && v in Next(s, a).waiters && w in Next(s, a).waiters
    requires KeepsChannel(s, a, v) && KeepsChannel(s, a, w) && Next(s, a).waiters[v].ch == Next(s, a).waiters[w].ch
    ensures v == w
  {
  }

  lemma NextDistinctChannels(s: System, a: Action)
    requires Enabled(s, a) && DistinctChannels(s)
    ensures DistinctChannels(Next(s, a))
  {
    var s' := Next(s, a);
    forall w | w in s'.waiters ensures s'.waiters[w].ch < s'.next {
      ChannelKept(s, a, w);
    }
    forall v, w | v in s'.waiters && w in s'.waiters && s'.waiters[v].ch == s'.waiters[w].ch ensures v == w {
      ChannelKept(s, a, v);
      ChannelKept(s, a, w);
      ChannelsApart(s, a, v, w);
    }
  }

  /** A hook past its first step was so before, or has just written its status. */
  lemma PastStart(s: System, a: Action, h: nat)
    requires Enabled(s, a) && h in Next(s, a).hooks && Next(s, a).hooks[h].pc != Started
    ensures h in s.hooks && s.hooks[h].id == Next(s, a).hooks[h].id
    ensures s.hooks[h].pc != Started || Next(s, a).hooks[h].id in Next(s, a).scans
  {
  }

  lemma StatusStays(s: System, a: Action, id: string)
    requires Enabled(s, a) && id in s.scans
    ensures id in Next(s, a).scans
  {
  }

  lemma NextHooksLeaveStatus(s: System, a: Action)
    requires Enabled(s, a) && HooksLeaveStatus(s)
    ensures HooksLeaveStatus(Next(s, a))
  {
    var s' := Next(s, a);
    forall h | h in s'.hooks && s'.hooks[h].pc != Started ensures s'.hooks[h].id in s'.scans {
      PastStart(s, a, h);
      if s.hooks[h].pc != Started {
        StatusStays(s, a, s.hooks[h].id);
      }
    }
  }

  /** What an insertion leaves. */
  lemma InsertionLeaves(t: Q.Table, op: Q.Op)
    requires Inserts(t, op)
    ensures var r := Q.Step(t, op).rows[op.artifact.cacheKey];
            r.id == op.newId && (r.status == Q.Pending || r.status == Q.Approved) && (StartsHook(t, op) <==> r.status == Q.Pending)
  {
  }

  lemma BirthsKeep(s: System, a: Action, id: string)
    requires Enabled(s, a) && id in s.born
    ensures id in Next(s, a).born && Next(s, a).born[id] == s.born[id]
  {
  }

  lemma BirthStep(s: System, a: Action, id: string)
    requires Enabled(s, a) && id in Next(s, a).born && BornApproved(Next(s, a).born[id])
    ensures id in s.born ==> s.born[id] == Next(s, a).born[id]
    ensures id !in s.born ==>
      && a.Store? && a.op.Enqueue? && a.op.newId == id && a.op.artifact.cacheKey == Next(s, a).born[id].key
      && Q.StatusIs(Next(s, a).table, a.op.artifact.cacheKey, Q.Approved) && Next(s, a).table.rows[a.op.artifact.cacheKey].id == id
  {
    if a.Store? {
      BirthOfStore(s, a.op, a.h, id);
    } else {
      OthersKeepBorn(s, a);
    }
  }

  lemma OthersKeepBorn(s: System, a: Action)
    requires Enabled(s, a) && !a.Store?
    ensures Next(s, a).born == s.born
  {
  }

  lemma BirthOfStore(s: System, op: Q.Op, h: nat, id: string)
    requires Enabled(s, Store(op, h)) && id in Births(s, op) && BornApproved(Births(s, op)[id])
    ensures id in s.born ==> s.born[id] == Births(s, op)[id]
    ensures id !in s.born ==>
      && op.Enqueue? && op.newId == id && op.artifact.cacheKey == Births(s, op)[id].key
      && Q.StatusIs(Q.Step(s.table, op), op.artifact.cacheKey, Q.Approved) && Q.Step(s.table, op).rows[op.artifact.cacheKey].id == id
  {
    if Inserts(s.table, op) {
      InsertionLeaves(s.table, op);
    }
  }

  lemma NewHookBorn(s: System, a: Action, h: nat)
    requires Enabled(s, a) && HooksAreBorn(s) && h in Next(s, a).hooks && h !in s.hooks
    ensures Next(s, a).hooks[h].id in Next(s, a).born && !BornApproved(Next(s, a).born[Next(s, a).hooks[h].id])
  {
    if a.Store? {
      InsertionLeaves(s.table, a.op);
    }
  }

  lemma OldHookKeepsId(s: System, a: Action, h: nat)
    requires Enabled(s, a) && h in s.hooks
    ensures h in Next(s, a).hooks && Next(s, a).hooks[h].id == s.hooks[h].id
  {
  }

  lemma NewWaiterBorn(s: System, a: Action, w: nat)
    requires Enabled(s, a) && w in Next(s, a).waiters
    ensures w in s.waiters ==> Next(s, a).waiters[w].id == s.waiters[w].id && Next(s, a).waiters[w].key == s.waiters[w].key
    ensures w !in s.waiters ==> Next(s, a).waiters[w].id in s.born && s.born[Next(s, a).waiters[w].id].key == Next(s, a).waiters[w].key
  {
  }

  /** Only a hook writes a status, under its own id. */
  lemma StatusIsOfHook(s: System, a: Action, id: string)
    requires Enabled(s, a) && id in Next(s, a).scans
    ensures id in s.scans || exists h :: HookFor(s, h, id)
  {
    if id !in s.scans {
      assert HookFor(s, a.h, id);
    }
  }

  lemma NextHooksAreBorn(s: System, a: Action)
    requires Enabled(s, a) && Inv(s)
    ensures HooksAreBorn(Next(s, a))
  {
    var s' := Next(s, a);
    forall h | h in s'.hooks ensures s'.hooks[h].id in s'.born && !BornApproved(s'.born[s'.hooks[h].id]) {
      if h in s.hooks {
        OldHookKeepsId(s, a, h);
        BirthsKeep(s, a, s.hooks[h].id);
      } else {
        NewHookBorn(s, a, h);
      }
    }
    forall id | id in s'.resume ensures id in s'.born && s'.born[id].Existing? {
      BirthsKeep(s, a, id);
    }
    forall id | id in s'.born && BornApproved(s'.born[id]) ensures id !in s'.scans {
      BirthStep(s, a, id);
      if id in s'.scans {
        StatusIsOfHook(s, a, id);
      }
    }
    forall w | w in s'.waiters ensures s'.waiters[w].id in s'.born && s'.born[s'.waiters[w].id].key == s'.waiters[w].key {
      NewWaiterBorn(s, a, w);
      BirthsKeep(s, a, s'.waiters[w].id);
    }
  }

  lemma HookStays(s: System, a: Action, h: nat, id: string)
    requires Enabled(s, a) && HookFor(s, h, id)
    ensures HookFor(Next(s, a), h, id)
  {
  }

  /** A new id that is not born approved has its hook at once. */
  lemma NewIdHooked(s: System, a: Action, id: string)
    requires Enabled(s, a) && id in Next(s, a).born && id !in s.born && !BornApproved(Next(s, a).born[id])
    ensures a.Store? && HookFor(Next(s, a), a.h, id)
  {
    InsertionLeaves(s.table, a.op);
  }

  /** An id leaves the queue only for its hook. */
  lemma QueueStays(s: System, a: Action, id: string)
    requires Enabled(s, a) && id in s.resume
    ensures id in Next(s, a).resume || (a.Resume? && Scans(Next(s, a), a.h, id))
  {
  }

  lemma NextAllAreHooked(s: System, a: Action)
    requires Enabled(s, a) && AllAreHooked(s)
    ensures AllAreHooked(Next(s, a))
  {
    var s' := Next(s, a);
    forall id | id in s'.born && !BornApproved(s'.born[id])
      ensures id in s'.resume || id in s'.scans || exists h :: HookFor(s', h, id)
    {
      if id !in s.born {
        NewIdHooked(s, a, id);
      } else {
        BirthsKeep(s, a, id);
        StaysHooked(s, a, id);
      }
    }
  }

  lemma StaysHooked(s: System, a: Action, id: string)
    requires Enabled(s, a) && (id in s.resume || id in s.scans || exists h :: HookFor(s, h, id))
    ensures id in Next(s, a).resume || id in Next(s, a).scans || exists h :: HookFor(Next(s, a), h, id)
  {
    if id in s.resume {
      QueueStays(s, a, id);
      if id !in Next(s, a).resume {
        assert HookFor(Next(s, a), a.h, id);
      }
    } else if id in s.scans {
      StatusStays(s, a, id);
    } else {
      var h :| HookFor(s, h, id);
      HookStays(s, a, h, id);
    }
  }

  /** "scanning" was there before, or a hook has just written it. */
  lemma ScanningBefore(s: System, a: Action, id: string)
    requires Enabled(s, a) && id in Next(s, a).scans && Next(s, a).scans[id] == Scanning
    ensures (id in s.scans && s.scans[id] == Scanning) || (a.WriteScanning? && Scans(Next(s, a), a.h, id))
  {
  }

  /** A hook before its result stays so until it writes one. */
  lemma ScanStays(s: System, a: Action, h: nat, id: string)
    requires Enabled(s, a) && Scans(s, h, id) && id in Next(s, a).scans && Next(s, a).scans[id] == Scanning
    ensures Scans(Next(s, a), h, id)
  {
  }

  lemma NextScanningIsLive(s: System, a: Action)
    requires Enabled(s, a) && HooksAreBorn(s) && ScanningIsLive(s)
    ensures ScanningIsLive(Next(s, a))
  {
    var s' := Next(s, a);
    forall id | id in s'.born && id in s'.scans && s'.scans[id] == Scanning
      ensures id in s'.resume || exists h :: Scans(s', h, id)
    {
      ScanningBefore(s, a, id);
      if !(a.WriteScanning? && Scans(s', a.h, id)) {
        FreshHasNoStatus(s, a, id);
        StaysLive(s, a, id);
      }
    }
  }

  lemma FreshHasNoStatus(s: System, a: Action, id: string)
    requires Enabled(s, a) && id in Next(s, a).born && id in s.scans
    ensures id in s.born
  {
  }

  lemma StaysLive(s: System, a: Action, id: string)
    requires Enabled(s, a) && (id in s.resume || exists h :: Scans(s, h, id))
    requires id in Next(s, a).scans && Next(s, a).scans[id] == Scanning
    ensures id in Next(s, a).resume || exists h :: Scans(Next(s, a), h, id)
  {
    if id in s.resume {
      QueueStays(s, a, id);
    } else {
      var h :| Scans(s, h, id);
      ScanStays(s, a, h, id);
    }
  }

  lemma NextNobodyForgotten(s: System, a: Action)
    requires Enabled(s, a) && Inv(s)
    ensures NobodyForgotten(Next(s, a))
  {
    var s' := Next(s, a);
    forall w | w in s'.waiters && Waiting(s'.waiters[w]) ensures Reachable(s', w) {
      if w in s.waiters {
        StaysReachable(s, a, w);
      }
    }
  }

  /** A request still waiting after a step was waiting before it, for the same scan. */
  lemma StillWaiting(s: System, a: Action, w: nat)
    requires Enabled(s, a) && w in s.waiters && w in Next(s, a).waiters && Waiting(Next(s, a).waiters[w])
    ensures var wt, wt' := s.waiters[w], Next(s, a).waiters[w];
            Waiting(wt) && wt'.id == wt.id && wt'.key == wt.key && wt'.ch == wt.ch
    ensures Next(s, a).waiters[w].pc == Blocked ==> s.waiters[w].pc == Blocked || a == ReadScanDone(w)
  {
  }

  lemma TokenStays(s: System, a: Action, w: nat)
    requires Enabled(s, a) && DistinctChannels(s) && w in s.waiters && s.waiters[w].ch in s.full && a != Receive(w)
    ensures s.waiters[w].ch in Next(s, a).full
  {
  }

  /** A subscribed channel stays on the list, or goes to the hook that takes the list. */
  lemma SubscriptionStays(s: System, a: Action, w: nat)
    requires Enabled(s, a) && DistinctChannels(s) && w in s.waiters && a != Cancel(w)
    requires s.waiters[w].ch in Chans(s.subs, s.waiters[w].id)
    ensures s.waiters[w].ch in Chans(Next(s, a).subs, s.waiters[w].id) || (a.Take? && OnList(Next(s, a), a.h, s.waiters[w]))
  {
    var wt := s.waiters[w];
    if a.Subscribe? {
      SubscribedKeeps(s.subs, a.id, s.next, wt.id, wt.ch);
    } else if a.Cancel? {
      assert s.waiters[a.w].ch != wt.ch;
      CancelledKeeps(s.subs, s.waiters[a.w].id, s.waiters[a.w].ch, wt.id, wt.ch);
    }
  }

  lemma SubscribedKeeps(subs: Subs, id: string, ch: Chan, other: string, c: Chan)
    requires c in Chans(subs, other)
    ensures c in Chans(Subscribed(subs, id, ch), other)
  {
  }

  lemma CancelledKeeps(subs: Subs, id: string, ch: Chan, other: string, c: Chan)
    requires c in Chans(subs, other) && c != ch
    ensures c in Chans(Cancelled(subs, id, ch), other)
  {
  }

  /** A channel on a hook's list stays there until it is signalled. */
  lemma ListStays(s: System, a: Action, h: nat, wt: Waiter)
    requires Enabled(s, a) && OnList(s, h, wt)
    ensures OnList(Next(s, a), h, wt) || wt.ch in Next(s, a).full
  {
  }

  lemma SameSource(s: System, h: nat, wt: Waiter, wt': Waiter)
    requires OnList(s, h, wt) && wt'.id == wt.id && wt'.ch == wt.ch
    ensures OnList(s, h, wt')
  {
  }

  /** One step leaves a waiting request's channel in a buffer, on the list or with a hook. */
  lemma StaysReachable(s: System, a: Action, w: nat)
    requires Enabled(s, a) && Inv(s) && w in s.waiters && w in Next(s, a).waiters && Waiting(Next(s, a).waiters[w])
    ensures Reachable(Next(s, a), w)
  {
    var s' := Next(s, a);
    var wt := s.waiters[w];
    StillWaiting(s, a, w);
    assert a != Receive(w) && a != Cancel(w);
    assert Reachable(s, w);
    if wt.ch in s.full {
      TokenStays(s, a, w);
    } else if wt.ch in Chans(s.subs, wt.id) {
      SubscriptionStays(s, a, w);
      if wt.ch !in Chans(s'.subs, wt.id) {
        SameSource(s', a.h, wt, s'.waiters[w]);
      }
    } else {
      var h :| OnList(s, h, wt);
      ListStays(s, a, h, wt);
      if wt.ch !in s'.full {
        SameSource(s', h, wt, s'.waiters[w]);
      }
    }
  }

  /** A hook that is still to take a list keeps that duty, or takes the list. */
  lemma TakerStays(s: System, a: Action, h: nat, id: string)
    requires Enabled(s, a) && TakesFor(s, h, id)
    ensures TakesFor(Next(s, a), h, id) || (a == Take(h) && Chans(Next(s, a).subs, id) == [])
  {
  }

  /** Channels are only added by the request they belong to. */
  lemma OnlySubscribeAdds(s: System, a: Action, id: string, ch: Chan)
    requires Enabled(s, a) && ch in Chans(Next(s, a).subs, id)
    ensures ch in Chans(s.subs, id) || (a.Subscribe? && ch == s.next)
  {
  }

  lemma BlockedBefore(s: System, a: Action, w: nat)
    requires Enabled(s, a) && DistinctChannels(s) && WaiterAt(Next(s, a), w, Blocked)
    ensures w in s.waiters && s.waiters[w].id == Next(s, a).waiters[w].id && s.waiters[w].ch == Next(s, a).waiters[w].ch
    ensures a == ReadScanDone(w) ==> !ScanOver(Next(s, a), s.waiters[w].id)
    ensures a != ReadScanDone(w) ==> s.waiters[w].pc == Blocked
  {
    match a
    case Subscribe(v, _, _) =>
    case ReadApproved(v) =>
    case ReadScanDone(v) =>
    case Receive(v) =>
    case TimeOut(v) =>
    case ContextDone(v) =>
    case ReadAgain(v) =>
    case Cancel(v) =>
    case _ =>
      OthersKeepWaiters(s, a);
  }

  lemma OthersKeepWaiters(s: System, a: Action)
    requires Enabled(s, a)
    requires a.Store? || a.Resume? || a.WriteScanning? || a.WriteError? || a.WriteDone? || a.AutoApprove? || a.LeavePending? || a.Take? || a.Send? || a.Finish?
    ensures Next(s, a).waiters == s.waiters
  {
  }

  /** Only a hook's result ends a scan, and that hook is still to take the list. */
  lemma ScanEnds(s: System, a: Action, id: string)
    requires Enabled(s, a) && ScanOver(Next(s, a), id) && !ScanOver(s, id)
    ensures (a.WriteDone? || a.WriteError?) && TakesFor(Next(s, a), a.h, id)
  {
  }

  lemma NextNoSleeperOnFinished(s: System, a: Action)
    requires Enabled(s, a) && Inv(s)
    ensures NoSleeperOnFinished(Next(s, a))
  {
    var s' := Next(s, a);
    forall w | w in s'.waiters && s'.waiters[w].pc == Blocked && s'.waiters[w].ch in Chans(s'.subs, s'.waiters[w].id)
               && ScanOver(s', s'.waiters[w].id)
      ensures exists h :: TakesFor(s', h, s'.waiters[w].id)
    {
      BlockedBefore(s, a, w);
      var wt := s.waiters[w];
      assert wt.ch < s.next;
      OnlySubscribeAdds(s, a, wt.id, wt.ch);
      if !ScanOver(s, wt.id) {
        ScanEnds(s, a, wt.id);
      } else {
        var h :| TakesFor(s, h, wt.id);
        TakerStays(s, a, h, wt.id);
      }
    }
  }

  lemma {:induction false} ExecutionInv(ss: seq<System>, acts: seq<Action>, n: nat)
    requires IsExecution(ss, acts) && n <= |acts|
    ensures Inv(ss[n])
  {
    if n == 0 {
      InitInv(ss[0]);
    } else {
      ExecutionInv(ss, acts, n - 1);
      NextDistinctChannels(ss[n - 1], acts[n - 1]);
      NextHooksLeaveStatus(ss[n - 1], acts[n - 1]);
      NextScanningIsLive(ss[n - 1], acts[n - 1]);
      NextNobodyForgotten(ss[n - 1], acts[n - 1]);
      NextNoSleeperOnFinished(ss[n - 1], acts[n - 1]);
      NextHooksAreBorn(ss[n - 1], acts[n - 1]);
      NextAllAreHooked(ss[n - 1], acts[n - 1]);
    }
  }

  // ---------------------------------------------------------------- no list leaks

  predicate Distinct(chans: seq<Chan>) {
    forall i, j :: 0 <= i < j < |chans| ==> chans[i] != chans[j]
  }

  /** Request `w` subscribed `c` and has not left yet. */
  ghost predicate Holds(s: System, w: nat, id: string, c: Chan) {
    w in s.waiters && s.waiters[w].id == id && s.waiters[w].ch == c && !s.waiters[w].pc.Left?
  }

  /** Every subscribed channel stands once on its list and belongs to a request still waiting. */
  ghost predicate SubscribersLive(s: System) {
    && (forall id :: Distinct(Chans(s.subs, id)))
    && (forall id, c :: c in Chans(s.subs, id) ==> exists w :: Holds(s, w, id, c))
  }

  lemma {:induction false} WithoutIsGone(chans: seq<Chan>, ch: Chan)
    requires Distinct(chans)
    ensures ch !in Without(chans, ch) && Distinct(Without(chans, ch))
  {
    if chans != [] && chans[0] != ch {
      WithoutIsGone(chans[1..], ch);
      var rest := Without(chans[1..], ch);
      forall j | 0 <= j < |rest| ensures rest[j] != chans[0] {
        assert rest[j] in chans[1..];
      }
    } else if chans != [] {
      assert forall j :: 0 <= j < |chans[1..]| ==> chans[1..][j] == chans[j + 1];
    }
  }

  /** A holder keeps its channel until it cancels. */
  lemma HolderStays(s: System, a: Action, w: nat, id: string, c: Chan)
    requires Enabled(s, a) && Holds(s, w, id, c) && a != Cancel(w)
    ensures Holds(Next(s, a), w, id, c)
  {
  }

  lemma OtherActionsKeepLists(s: System, a: Action, id: string)
    requires Enabled(s, a) && !a.Subscribe? && !a.Cancel?
    ensures Chans(Next(s, a).subs, id) == Chans(s.subs, id) || Chans(Next(s, a).subs, id) == []
  {
  }

  lemma SubscribeLive(s: System, w: nat, id: string, key: string)
    requires Enabled(s, Subscribe(w, id, key)) && DistinctChannels(s) && SubscribersLive(s)
    ensures SubscribersLive(Next(s, Subscribe(w, id, key)))
  {
    var a := Subscribe(w, id, key);
    var s' := Next(s, a);
    forall other, c | c in Chans(s'.subs, other) ensures exists v :: Holds(s', v, other, c) {
      if c in Chans(s.subs, other) {
        var v :| Holds(s, v, other, c);
        HolderStays(s, a, v, other, c);
      } else {
        assert Holds(s', w, other, c);
      }
    }
    forall other ensures Distinct(Chans(s'.subs, other)) {
      FreshOnList(s, other);
    }
  }

  lemma FreshOnList(s: System, id: string)
    requires DistinctChannels(s) && SubscribersLive(s)
    ensures Distinct(Chans(s.subs, id) + [s.next])
  {
    forall c | c in Chans(s.subs, id) ensures c < s.next {
      var v :| Holds(s, v, id, c);
    }
    DistinctMore(Chans(s.subs, id), s.next);
  }

  lemma DistinctMore(chans: seq<Chan>, ch: Chan)
    requires Distinct(chans) && forall c :: c in chans ==> c < ch
    ensures Distinct(chans + [ch])
  {
    assert forall i :: 0 <= i < |chans| ==> chans[i] in chans;
  }

  lemma CancelledList(subs: Subs, id: string, ch: Chan, other: string)
    requires Distinct(Chans(subs, other))
    ensures var chans := Chans(Cancelled(subs, id, ch), other);
            && Distinct(chans) && (other == id ==> ch !in chans)
            && forall c :: c in chans ==> c in Chans(subs, other)
  {
    WithoutIsGone(Chans(subs, other), ch);
  }

  lemma CancelLive(s: System, w: nat)
    requires Enabled(s, Cancel(w)) && DistinctChannels(s) && SubscribersLive(s)
    ensures SubscribersLive(Next(s, Cancel(w)))
  {
    var a := Cancel(w);
    var s' := Next(s, a);
    var wt := s.waiters[w];
    assert s'.subs == Cancelled(s.subs, wt.id, wt.ch);
    forall other ensures Distinct(Chans(s'.subs, other)) {
      CancelledList(s.subs, wt.id, wt.ch, other);
    }
    forall other, c | c in Chans(s'.subs, other) ensures exists v :: Holds(s', v, other, c) {
      CancelledList(s.subs, wt.id, wt.ch, other);
      var v :| Holds(s, v, other, c);
      HolderStays(s, a, v, other, c);
    }
  }

  lemma NextSubscribersLive(s: System, a: Action)
    requires Enabled(s, a) && DistinctChannels(s) && SubscribersLive(s)
    ensures SubscribersLive(Next(s, a))
  {
    if a.Subscribe? {
      SubscribeLive(s, a.w, a.id, a.key);
    } else if a.Cancel? {
      CancelLive(s, a.w);
    } else {
      var s' := Next(s, a);
      forall id ensures Distinct(Chans(s'.subs, id)) {
        OtherActionsKeepLists(s, a, id);
      }
      forall id, c | c in Chans(s'.subs, id) ensures exists w :: Holds(s', w, id, c) {
        OtherActionsKeepLists(s, a, id);
        var w :| Holds(s, w, id, c);
        HolderStays(s, a, w, id, c);
      }
    }
  }

  /** In every interleaving, the lists hold only channels of requests that are still waiting,
      each once: once all requests have left, every list is empty. */
  lemma {:induction false} ListsDoNotLeak(ss: seq<System>, acts: seq<Action>, n: nat)
    requires IsExecution(ss, acts) && n <= |acts|
    ensures SubscribersLive(ss[n])
    ensures (forall w :: w in ss[n].waiters ==> ss[n].waiters[w].pc.Left?) ==> forall id :: Chans(ss[n].subs, id) == []
  {
    if n != 0 {
      ListsDoNotLeak(ss, acts, n - 1);
      ExecutionInv(ss, acts, n - 1);
      StepOf(ss, acts, n - 1);
      NextSubscribersLive(ss[n - 1], acts[n - 1]);
    }
    AllLeft(ss[n]);
  }

  lemma AllLeft(s: System)
    requires SubscribersLive(s)
    ensures (forall w :: w in s.waiters ==> s.waiters[w].pc.Left?) ==> forall id :: Chans(s.subs, id) == []
  {
    forall id | Chans(s.subs, id) != [] ensures exists w :: w in s.waiters && !s.waiters[w].pc.Left? {
      assert Chans(s.subs, id)[0] in Chans(s.subs, id);
      var w :| Holds(s, w, id, Chans(s.subs, id)[0]);
    }
  }

  // ---------------------------------------------------------------- what follows

  /** No hook has ever run for this id, and none is about to. */
  ghost predicate NeverHooked(s: System, id: string) {
    id !in s.scans && forall h :: h in s.hooks ==> s.hooks[h].id != id
  }

  /** No lost wake-up: in every reachable state, a request asleep on an empty channel will be
      signalled by a hook, or its scan is queued for resumption, unless its id was given to
      the row by an insertion that came out approved; and then neither is ever the case. */
  lemma NoLostWakeUp(ss: seq<System>, acts: seq<Action>, n: nat, w: nat)
    requires IsExecution(ss, acts) && n <= |acts|
    requires WaiterAt(ss[n], w, Blocked) && ss[n].waiters[w].ch !in ss[n].full
    ensures var s, wt := ss[n], ss[n].waiters[w];
            && wt.id in s.born
            && ((exists h :: WillSignal(s, h, wt)) || wt.id in s.resume <==> !BornApproved(s.born[wt.id]))
            && (BornApproved(s.born[wt.id]) ==> NeverHooked(s, wt.id))
  {
    ExecutionInv(ss, acts, n);
    var s := ss[n];
    var wt := s.waiters[w];
    assert Reachable(s, w);
    if BornApproved(s.born[wt.id]) {
      assert forall h :: h in s.hooks ==> s.hooks[h].id != wt.id;
    } else if wt.id !in s.resume {
      WillBeSignalled(s, w);
    }
  }

  lemma WillBeSignalled(s: System, w: nat)
    requires Inv(s) && WaiterAt(s, w, Blocked) && s.waiters[w].ch !in s.full
    requires s.waiters[w].id in s.born && !BornApproved(s.born[s.waiters[w].id]) && s.waiters[w].id !in s.resume
    ensures exists h :: WillSignal(s, h, s.waiters[w])
  {
    var wt := s.waiters[w];
    assert Reachable(s, w);
    if h :| OnList(s, h, wt) {
      assert WillSignal(s, h, wt);
    } else if ScanOver(s, wt.id) {
      var h :| TakesFor(s, h, wt.id);
      assert WillSignal(s, h, wt);
    } else if wt.id in s.scans {
      var h :| Scans(s, h, wt.id);
      assert WillSignal(s, h, wt);
    } else {
      var h :| HookFor(s, h, wt.id);
      assert WillSignal(s, h, wt);
    }
  }

  ghost predicate StandsPending(s: System, id: string, key: string) {
    Q.StatusIs(s.table, key, Q.Pending) && s.table.rows[key].id == id
  }

  /** Step `i` inserted the row of `key` approved, under the new id `id`. */
  ghost predicate InsertedApproved(ss: seq<System>, acts: seq<Action>, i: nat, id: string, key: string)
    requires |ss| == |acts| + 1
  {
    && i < |acts| && id !in ss[i].born && id in ss[i + 1].born && acts[i].Store? && acts[i].op.Enqueue?
    && acts[i].op.newId == id && acts[i].op.artifact.cacheKey == key
    && Q.StatusIs(ss[i + 1].table, key, Q.Approved) && ss[i + 1].table.rows[key].id == id
  }

  /** Step `j` revoked the row of `key`. */
  ghost predicate Revokes(ss: seq<System>, acts: seq<Action>, j: nat, key: string)
    requires |ss| == |acts| + 1
  {
    j < |acts| && acts[j].Store? && acts[j].op.Revoke? && Q.Find(ss[j].table, acts[j].op.id) == Some(key)
  }

  lemma InitBorn(s: System, id: string)
    requires Init(s) && id in s.born
    ensures s.born[id].Existing?
  {
    var k :| k in s.table.rows && s.table.rows[k].id == id;
  }

  lemma {:induction false} InsertedAt(ss: seq<System>, acts: seq<Action>, n: nat, id: string) returns (i: nat)
    requires IsExecution(ss, acts) && n <= |acts| && id in ss[n].born && BornApproved(ss[n].born[id])
    ensures i < n && InsertedApproved(ss, acts, i, id, ss[n].born[id].key)
  {
    if n == 0 {
      InitBorn(ss[0], id);
      assert false;
    }
    StepOf(ss, acts, n - 1);
    BirthStep(ss[n - 1], acts[n - 1], id);
    if id in ss[n - 1].born {
      i := InsertedAt(ss, acts, n - 1, id);
    } else {
      i := n - 1;
    }
  }

  lemma {:induction false} BornStays(ss: seq<System>, acts: seq<Action>, m: nat, n: nat, id: string)
    requires IsExecution(ss, acts) && m <= n <= |acts| && id in ss[m].born
    ensures id in ss[n].born
  {
    if m < n {
      BornStays(ss, acts, m, n - 1, id);
      BornAt(ss, acts, n - 1, id);
    }
  }

  lemma BornAt(ss: seq<System>, acts: seq<Action>, n: nat, id: string)
    requires IsExecution(ss, acts) && n < |acts| && id in ss[n].born
    ensures id in ss[n + 1].born
  {
    StepOf(ss, acts, n);
    BirthsKeep(ss[n], acts[n], id);
  }

  lemma PendingAt(ss: seq<System>, acts: seq<Action>, n: nat, id: string, key: string)
    requires IsExecution(ss, acts) && n < |acts| && id in ss[n].born && StandsPending(ss[n + 1], id, key)
    ensures StandsPending(ss[n], id, key) || Revokes(ss, acts, n, key)
  {
    StepOf(ss, acts, n);
    PendingBefore(ss[n], acts[n], id, key);
  }

  /** What may make a row under a known id pending. */
  lemma PendingBefore(s: System, a: Action, id: string, key: string)
    requires Enabled(s, a) && id in s.born && StandsPending(Next(s, a), id, key)
    ensures StandsPending(s, id, key) || (a.Store? && a.op.Revoke? && Q.Find(s.table, a.op.id) == Some(key))
  {
    if a.Store? {
      PendingByOp(s, a.op, id, key);
    } else if a.AutoApprove? {
      PendingByOp(s, Q.Approve(s.hooks[a.h].id, "auto", a.comment), id, key);
    }
  }

  lemma PendingByOp(s: System, op: Q.Op, id: string, key: string)
    requires id in s.born && (op.Enqueue? ==> op.newId !in s.born)
    requires var t' := Q.Step(s.table, op); Q.StatusIs(t', key, Q.Pending) && t'.rows[key].id == id
    ensures StandsPending(s, id, key) || (op.Revoke? && Q.Find(s.table, op.id) == Some(key))
  {
  }

  /** A row that was approved at step `m` and is pending now under the same id was revoked, and
      has been pending under that id since. */
  lemma {:induction false} LastRevocation(ss: seq<System>, acts: seq<Action>, m: nat, n: nat, id: string, key: string) returns (j: nat)
    requires IsExecution(ss, acts) && m <= n <= |acts| && id in ss[m].born
    requires !StandsPending(ss[m], id, key) && StandsPending(ss[n], id, key)
    ensures m <= j < n && Revokes(ss, acts, j, key) && forall l :: j < l <= n ==> StandsPending(ss[l], id, key)
    decreases n
  {
    BornStays(ss, acts, m, n - 1, id);
    PendingAt(ss, acts, n - 1, id, key);
    if StandsPending(ss[n - 1], id, key) {
      j := LastRevocation(ss, acts, m, n - 1, id, key);
    } else {
      j := n - 1;
    }
  }

  lemma RevokedSince(ss: seq<System>, acts: seq<Action>, n: nat, id: string, key: string) returns (i: nat, j: nat)
    requires IsExecution(ss, acts) && n <= |acts| && StandsPending(ss[n], id, key)
    requires id in ss[n].born && BornApproved(ss[n].born[id]) && ss[n].born[id].key == key
    ensures i < j < n && InsertedApproved(ss, acts, i, id, key) && Revokes(ss, acts, j, key)
    ensures forall m :: j < m <= n ==> StandsPending(ss[m], id, key)
  {
    i := InsertedAt(ss, acts, n, id);
    j := LastRevocation(ss, acts, i + 1, n, id, key);
  }

  /** The one exception: a request sleeps on a pending row, with no hook to signal it and no
      resumption queued, if and only if the row came in approved by inheritance, and then the
      row was revoked since. */
  lemma SleeperWasRevoked(ss: seq<System>, acts: seq<Action>, n: nat, w: nat) returns (i: nat, j: nat)
    requires IsExecution(ss, acts) && n <= |acts|
    requires WaiterAt(ss[n], w, Blocked) && ss[n].waiters[w].ch !in ss[n].full
    requires StandsPending(ss[n], ss[n].waiters[w].id, ss[n].waiters[w].key)
    ensures var s, wt := ss[n], ss[n].waiters[w];
            && wt.id in s.born
            && (!(exists h :: WillSignal(s, h, wt)) && wt.id !in s.resume <==> BornApproved(s.born[wt.id]))
            && (BornApproved(s.born[wt.id]) ==>
                  && i < j < n && InsertedApproved(ss, acts, i, wt.id, wt.key) && Revokes(ss, acts, j, wt.key)
                  && forall m :: j < m <= n ==> StandsPending(ss[m], wt.id, wt.key))
  {
    NoLostWakeUp(ss, acts, n, w);
    ExecutionInv(ss, acts, n);
    var wt := ss[n].waiters[w];
    i, j := 0, 0;
    if BornApproved(ss[n].born[wt.id]) {
      i, j := RevokedSince(ss, acts, n, wt.id, wt.key);
    }
  }

  /** Once every hook for an id has finished and its scan is over, nobody sleeps on it. */
  lemma FinishedScanWakesEverybody(ss: seq<System>, acts: seq<Action>, n: nat, w: nat)
    requires IsExecution(ss, acts) && n <= |acts| && WaiterAt(ss[n], w, Blocked)
    requires ScanOver(ss[n], ss[n].waiters[w].id)
    requires forall h :: h in ss[n].hooks && ss[n].hooks[h].id == ss[n].waiters[w].id ==> ss[n].hooks[h].pc == Finished
    ensures Enabled(ss[n], Receive(w))
  {
    ExecutionInv(ss, acts, n);
    assert Reachable(ss[n], w);
  }

  /** "scanning" for an id that a row has or has had implies a hook that has not notified
      yet, or a queued resumption. */
  lemma ScanningMeansHook(ss: seq<System>, acts: seq<Action>, n: nat, id: string)
    requires IsExecution(ss, acts) && n <= |acts| && id in ss[n].born && id in ss[n].scans && ss[n].scans[id] == Scanning
    ensures id in ss[n].resume || exists h :: TakesFor(ss[n], h, id)
  {
    ExecutionInv(ss, acts, n);
    if id !in ss[n].resume {
      var h :| Scans(ss[n], h, id);
      assert TakesFor(ss[n], h, id);
    }
  }

  predicate SaysTrue(wt: Waiter) {
    wt.pc == Leaving(true) || wt.pc == Left(true)
  }

  predicate SaysFalse(wt: Waiter) {
    wt.pc == Leaving(false) || wt.pc == Left(false)
  }

  /** Step `a` makes request `w` answer true: a read that finds its key approved. */
  ghost predicate AnswersTrue(s: System, a: Action, w: nat) {
    w in s.waiters && (a == ReadApproved(w) || a == ReadAgain(w)) && Q.StatusIs(s.table, s.waiters[w].key, Q.Approved)
  }

  /** Step `a` makes request `w` answer false: its client is gone, or its scan is over, or its
      last read finds its key not approved. */
  ghost predicate AnswersFalse(s: System, a: Action, w: nat) {
    w in s.waiters &&
    (|| a == ContextDone(w)
     || (a == ReadScanDone(w) && s.waiters[w].id in s.scans && s.scans[s.waiters[w].id] != Scanning)
     || (a == ReadAgain(w) && !Q.StatusIs(s.table, s.waiters[w].key, Q.Approved)))
  }

  lemma OwnStep(s: System, a: Action, w: nat)
    requires Enabled(s, a) && w in s.waiters
    requires OfWaiter(a, w)
    ensures w in Next(s, a).waiters
    ensures SaysTrue(Next(s, a).waiters[w]) <==> AnswersTrue(s, a, w) || SaysTrue(s.waiters[w])
    ensures SaysFalse(Next(s, a).waiters[w]) <==> AnswersFalse(s, a, w) || SaysFalse(s.waiters[w])
  {
  }

  lemma ForeignStep(s: System, a: Action, w: nat)
    requires Enabled(s, a) && w in s.waiters
    requires !OfWaiter(a, w)
    ensures w in Next(s, a).waiters && Next(s, a).waiters[w] == s.waiters[w]
  {
    match a
    case Subscribe(v, _, _) =>
    case ReadApproved(v) =>
    case ReadScanDone(v) =>
    case Receive(v) =>
    case TimeOut(v) =>
    case ContextDone(v) =>
    case ReadAgain(v) =>
    case Cancel(v) =>
    case _ =>
      OthersKeepWaiters(s, a);
  }

  /** The answer changes by these steps only, and by them always. */
  lemma AnswerStep(s: System, a: Action, w: nat)
    requires Enabled(s, a) && w in s.waiters
    ensures w in Next(s, a).waiters
    ensures SaysTrue(Next(s, a).waiters[w]) <==> AnswersTrue(s, a, w) || SaysTrue(s.waiters[w])
    ensures SaysFalse(Next(s, a).waiters[w]) <==> AnswersFalse(s, a, w) || SaysFalse(s.waiters[w])
  {
    if OfWaiter(a, w) {
      OwnStep(s, a, w);
    } else {
      ForeignStep(s, a, w);
    }
  }

  lemma NewcomerIsSilent(s: System, a: Action, w: nat)
    requires Enabled(s, a) && w !in s.waiters && w in Next(s, a).waiters
    ensures !SaysTrue(Next(s, a).waiters[w]) && !SaysFalse(Next(s, a).waiters[w])
    ensures !AnswersTrue(s, a, w) && !AnswersFalse(s, a, w)
  {
  }

  ghost predicate AnsweredTrue(ss: seq<System>, acts: seq<Action>, n: nat, w: nat)
    requires n <= |acts| < |ss|
  {
    exists m :: 0 <= m < n && AnswersTrue(ss[m], acts[m], w)
  }

  ghost predicate AnsweredFalse(ss: seq<System>, acts: seq<Action>, n: nat, w: nat)
    requires n <= |acts| < |ss|
  {
    exists m :: 0 <= m < n && AnswersFalse(ss[m], acts[m], w)
  }

  lemma AnsweredMore(ss: seq<System>, acts: seq<Action>, n: nat, w: nat)
    requires 0 < n <= |acts| < |ss|
    ensures AnsweredTrue(ss, acts, n, w) <==> AnsweredTrue(ss, acts, n - 1, w) || AnswersTrue(ss[n - 1], acts[n - 1], w)
    ensures AnsweredFalse(ss, acts, n, w) <==> AnsweredFalse(ss, acts, n - 1, w) || AnswersFalse(ss[n - 1], acts[n - 1], w)
  {
  }

  lemma AnswerAt(ss: seq<System>, acts: seq<Action>, n: nat, w: nat)
    requires IsExecution(ss, acts) && n < |acts| && w in ss[n].waiters
    ensures w in ss[n + 1].waiters
    ensures SaysTrue(ss[n + 1].waiters[w]) <==> AnswersTrue(ss[n], acts[n], w) || SaysTrue(ss[n].waiters[w])
    ensures SaysFalse(ss[n + 1].waiters[w]) <==> AnswersFalse(ss[n], acts[n], w) || SaysFalse(ss[n].waiters[w])
  {
    StepOf(ss, acts, n);
    AnswerStep(ss[n], acts[n], w);
  }

  lemma NewcomerAt(ss: seq<System>, acts: seq<Action>, n: nat, w: nat)
    requires IsExecution(ss, acts) && n < |acts| && w !in ss[n].waiters && w in ss[n + 1].waiters
    ensures !SaysTrue(ss[n + 1].waiters[w]) && !SaysFalse(ss[n + 1].waiters[w])
    ensures !AnsweredTrue(ss, acts, n + 1, w) && !AnsweredFalse(ss, acts, n + 1, w)
  {
    StepOf(ss, acts, n);
    NewcomerIsSilent(ss[n], acts[n], w);
    NotYet(ss, acts, n, w);
  }

  lemma StepOf(ss: seq<System>, acts: seq<Action>, n: nat)
    requires IsExecution(ss, acts) && n < |acts|
    ensures Enabled(ss[n], acts[n]) && ss[n + 1] == Next(ss[n], acts[n])
  {
  }

  lemma {:induction false} NotYet(ss: seq<System>, acts: seq<Action>, n: nat, w: nat)
    requires IsExecution(ss, acts) && n <= |acts| && w !in ss[n].waiters
    ensures forall m :: 0 <= m <= n ==> w !in ss[m].waiters
  {
    if n != 0 {
      if w in ss[n - 1].waiters {
        AnswerAt(ss, acts, n - 1, w);
      }
      NotYet(ss, acts, n - 1, w);
    }
  }

  /** What `waitScan` answers: true exactly if one of its two reads found the key approved, and
      false exactly if the client went away, the scan was over, or the last read found the key
      not approved. */
  lemma {:induction false} AnswerExactly(ss: seq<System>, acts: seq<Action>, n: nat, w: nat)
    requires IsExecution(ss, acts) && n <= |acts| && w in ss[n].waiters
    ensures SaysTrue(ss[n].waiters[w]) <==> AnsweredTrue(ss, acts, n, w)
    ensures SaysFalse(ss[n].waiters[w]) <==> AnsweredFalse(ss, acts, n, w)
    decreases n
  {
    if n != 0 && w in ss[n - 1].waiters {
      AnswerExactly(ss, acts, n - 1, w);
      AnswerAt(ss, acts, n - 1, w);
      AnsweredMore(ss, acts, n, w);
    } else if n != 0 {
      NewcomerAt(ss, acts, n - 1, w);
    }
  }

  /** One more step at the end of an execution. */
  lemma Extend(ss: seq<System>, acts: seq<Action>, a: Action) returns (ss': seq<System>, acts': seq<Action>)
    requires IsExecution(ss, acts) && Enabled(ss[|acts|], a)
    ensures IsExecution(ss', acts') && ss'[|acts'|] == Next(ss[|acts|], a)
    ensures acts' == acts + [a] && ss <= ss'
  {
    ss', acts' := ss + [Next(ss[|acts|], a)], acts + [a];
  }

  // ---------------------------------------------------------------- the order of steps

  predicate OfHook(a: Action, h: nat) {
    a in {WriteScanning(h), WriteError(h), WriteDone(h), LeavePending(h), Take(h), Send(h), Finish(h)} || (a.AutoApprove? && a.h == h)
  }

  /** The steps of a request after its subscription. */
  predicate OfWaiter(a: Action, w: nat) {
    match a
    case ReadApproved(v) => v == w
    case ReadScanDone(v) => v == w
    case Receive(v) => v == w
    case TimeOut(v) => v == w
    case ContextDone(v) => v == w
    case ReadAgain(v) => v == w
    case Cancel(v) => v == w
    case _ => false
  }

  /** The steps of one hook among the first `n`. */
  function HookTrace(acts: seq<Action>, n: nat, h: nat): seq<Action>
    requires n <= |acts|
  {
    if n == 0 then [] else HookTrace(acts, n - 1, h) + if OfHook(acts[n - 1], h) then [acts[n - 1]] else []
  }

  /** The scan has failed, or a decision has been taken. */
  predicate Ended(tr: seq<Action>, h: nat) {
    || tr == [WriteScanning(h), WriteError(h)]
    || tr == [WriteScanning(h), WriteDone(h), LeavePending(h)]
    || (|tr| == 3 && tr[0] == WriteScanning(h) && tr[1] == WriteDone(h) && tr[2].AutoApprove?)
  }

  ghost predicate Notified(tr: seq<Action>, h: nat) {
    exists k: nat :: NotifiedAt(tr, h, k)
  }

  predicate NotifiedAt(tr: seq<Action>, h: nat, k: nat) {
    k < |tr| && Ended(tr[..k], h) && tr[k] == Take(h) && forall i :: k < i < |tr| ==> tr[i] == Send(h)
  }

  ghost predicate HookFits(pc: HookPc, tr: seq<Action>, h: nat) {
    match pc
    case Started => tr == []
    case InScan => tr == [WriteScanning(h)]
    case Deciding => tr == [WriteScanning(h), WriteDone(h)]
    case MustNotify => Ended(tr, h)
    case Notifying(_) => Notified(tr, h)
    case Finished => tr != [] && tr[|tr| - 1] == Finish(h) && Notified(tr[..|tr| - 1], h)
  }

  lemma TraceTakes(tr: seq<Action>, h: nat)
    requires Ended(tr, h)
    ensures Notified(tr + [Take(h)], h)
  {
    assert (tr + [Take(h)])[..|tr|] == tr;
    assert NotifiedAt(tr + [Take(h)], h, |tr|);
  }

  lemma TraceSends(tr: seq<Action>, h: nat)
    requires Notified(tr, h)
    ensures Notified(tr + [Send(h)], h)
  {
    var k: nat :| NotifiedAt(tr, h, k);
    assert (tr + [Send(h)])[..k] == tr[..k];
    assert NotifiedAt(tr + [Send(h)], h, k);
  }

  lemma HookStepFits(s: System, a: Action, h: nat, tr: seq<Action>)
    requires Enabled(s, a) && h in s.hooks && OfHook(a, h) && HookFits(s.hooks[h].pc, tr, h)
    ensures h in Next(s, a).hooks && HookFits(Next(s, a).hooks[h].pc, tr + [a], h)
  {
    match a
    case Take(_) => TraceTakes(tr, h);
    case Send(_) => TraceSends(tr, h);
    case Finish(_) => assert (tr + [a])[..|tr|] == tr;
    case _ =>
  }

  lemma OtherHookStep(s: System, a: Action, h: nat)
    requires Enabled(s, a) && !OfHook(a, h)
    ensures h in s.hooks ==> h in Next(s, a).hooks && Next(s, a).hooks[h].pc == s.hooks[h].pc
    ensures h !in s.hooks && h in Next(s, a).hooks ==> Next(s, a).hooks[h].pc == Started
  {
  }

  lemma HookExists(s: System, a: Action, h: nat)
    requires Enabled(s, a) && OfHook(a, h)
    ensures h in s.hooks
  {
  }

  /** In every interleaving each hook does what the program writes down, in that order: it writes
      "scanning", then "error", or "done" and its decision; then it takes the list, signals, and
      finishes. */
  lemma {:induction false} HooksInOrder(ss: seq<System>, acts: seq<Action>, n: nat, h: nat)
    requires IsExecution(ss, acts) && n <= |acts|
    ensures if h in ss[n].hooks then HookFits(ss[n].hooks[h].pc, HookTrace(acts, n, h), h) else HookTrace(acts, n, h) == []
  {
    if n != 0 {
      HooksInOrder(ss, acts, n - 1, h);
      StepOf(ss, acts, n - 1);
      HookStep(ss[n - 1], acts[n - 1], h, HookTrace(acts, n - 1, h));
      assert HookTrace(acts, n - 1, h) + [] == HookTrace(acts, n - 1, h);
    }
  }

  lemma HookStep(s: System, a: Action, h: nat, tr: seq<Action>)
    requires Enabled(s, a) && if h in s.hooks then HookFits(s.hooks[h].pc, tr, h) else tr == []
    ensures var tr', s' := if OfHook(a, h) then tr + [a] else tr, Next(s, a);
            if h in s'.hooks then HookFits(s'.hooks[h].pc, tr', h) else tr' == []
  {
    if OfHook(a, h) {
      HookExists(s, a, h);
      HookStepFits(s, a, h, tr);
    } else {
      OtherHookStep(s, a, h);
    }
  }

  /** The steps of one request among the first `n`. */
  function WaiterTrace(acts: seq<Action>, n: nat, w: nat): seq<Action>
    requires n <= |acts|
  {
    if n == 0 then []
    else WaiterTrace(acts, n - 1, w) + if OfWaiter(acts[n - 1], w) || (acts[n - 1].Subscribe? && acts[n - 1].w == w) then [acts[n - 1]] else []
  }

  /** What decides the answer: the first read; the second; the client going away; or the last
      read, after a token or the timeout. */
  predicate Decided(tr: seq<Action>, sub: Action, w: nat) {
    || tr == [sub, ReadApproved(w)]
    || tr == [sub, ReadApproved(w), ReadScanDone(w)]
    || tr == [sub, ReadApproved(w), ReadScanDone(w), ContextDone(w)]
    || tr == [sub, ReadApproved(w), ReadScanDone(w), Receive(w), ReadAgain(w)]
    || tr == [sub, ReadApproved(w), ReadScanDone(w), TimeOut(w), ReadAgain(w)]
  }

  predicate WaiterFits(wt: Waiter, tr: seq<Action>, w: nat) {
    var sub := Subscribe(w, wt.id, wt.key);
    match wt.pc
    case Listening => tr == [sub]
    case Unapproved => tr == [sub, ReadApproved(w)]
    case Blocked => tr == [sub, ReadApproved(w), ReadScanDone(w)]
    case Woken => tr == [sub, ReadApproved(w), ReadScanDone(w), Receive(w)] || tr == [sub, ReadApproved(w), ReadScanDone(w), TimeOut(w)]
    case Leaving(_) => Decided(tr, sub, w)
    case Left(_) => tr != [] && tr[|tr| - 1] == Cancel(w) && Decided(tr[..|tr| - 1], sub, w)
  }

  lemma WaiterStepFits(s: System, a: Action, w: nat, tr: seq<Action>)
    requires Enabled(s, a) && w in s.waiters && OfWaiter(a, w) && WaiterFits(s.waiters[w], tr, w)
    ensures w in Next(s, a).waiters && WaiterFits(Next(s, a).waiters[w], tr + [a], w)
  {
    if a == Cancel(w) {
      assert (tr + [a])[..|tr|] == tr;
    }
  }

  /** In every interleaving each request subscribes first, reads, reads again, blocks, wakes and
      reads again, skipping only to its cancellation at the end. */
  lemma {:induction false} WaitersInOrder(ss: seq<System>, acts: seq<Action>, n: nat, w: nat)
    requires IsExecution(ss, acts) && n <= |acts|
    ensures if w in ss[n].waiters then WaiterFits(ss[n].waiters[w], WaiterTrace(acts, n, w), w) else WaiterTrace(acts, n, w) == []
  {
    if n != 0 {
      var s, a, tr := ss[n - 1], acts[n - 1], WaiterTrace(acts, n - 1, w);
      WaitersInOrder(ss, acts, n - 1, w);
      StepOf(ss, acts, n - 1);
      if OfWaiter(a, w) {
        WaiterStepFits(s, a, w, tr);
      } else if w in s.waiters {
        ForeignStep(s, a, w);
        assert WaiterTrace(acts, n, w) == tr;
      } else {
        Arrives(s, a, w);
        assert tr + [a] == [a] && tr + [] == [];
      }
    }
  }

  lemma Arrives(s: System, a: Action, w: nat)
    requires Enabled(s, a) && w !in s.waiters
    ensures !OfWaiter(a, w)
    ensures if a.Subscribe? && a.w == w then w in Next(s, a).waiters && Next(s, a).waiters[w].pc == Listening && a == Subscribe(w, Next(s, a).waiters[w].id, Next(s, a).waiters[w].key)
            else w !in Next(s, a).waiters
  {
  }

  // ---------------------------------------------------------------- what hooks do

  /** At process start exactly the rows without a finished scan are queued. */
  lemma QueuedAtStart(s: System, key: string)
    requires Init(s) && key in s.table.rows
    ensures s.table.rows[key].id in s.resume <==> !(s.table.rows[key].id in s.scans && s.scans[s.table.rows[key].id] == Done)
  {
    assert Q.IdInUse(s.table, s.table.rows[key].id);
  }

  /** An id leaves the queue when it is resumed, and never comes back. */
  lemma {:induction false} OutOfQueue(ss: seq<System>, acts: seq<Action>, m: nat, n: nat, id: string)
    requires IsExecution(ss, acts) && m <= n <= |acts| && id !in ss[m].resume
    ensures id !in ss[n].resume
  {
    if m < n {
      OutOfQueue(ss, acts, m, n - 1, id);
      StepOf(ss, acts, n - 1);
    }
  }

  /** No scan is resumed twice. */
  lemma ResumedOnce(ss: seq<System>, acts: seq<Action>, m: nat, n: nat, id: string)
    requires IsExecution(ss, acts) && m < n < |acts| && acts[m].Resume? && acts[n].Resume? && acts[m].id == id
    ensures acts[n].id != id
  {
    StepOf(ss, acts, m);
    OutOfQueue(ss, acts, m + 1, n, id);
    StepOf(ss, acts, n);
  }

  /** A hook for `id` writes this status. */
  ghost predicate WritesStatus(s: System, a: Action, id: string, status: ScanStatus) {
    exists h :: HookFor(s, h, id) && a == match status case Scanning => WriteScanning(h) case Done => WriteDone(h) case Error => WriteError(h)
  }

  lemma StatusStep(s: System, a: Action, id: string)
    requires Enabled(s, a) && id in Next(s, a).scans
    ensures WritesStatus(s, a, id, Next(s, a).scans[id]) || (id in s.scans && Next(s, a).scans[id] == s.scans[id])
    ensures forall st :: WritesStatus(s, a, id, st) ==> Next(s, a).scans[id] == st
  {
    if a.WriteScanning? || a.WriteDone? || a.WriteError? {
      assert s.hooks[a.h].id == id ==> HookFor(s, a.h, id);
    }
  }

  /** None of the steps from `m` on, before `n`, writes the status of `id`. */
  ghost predicate NoneWrites(ss: seq<System>, acts: seq<Action>, m: nat, n: nat, id: string)
    requires n <= |acts| < |ss|
  {
    forall k, st :: m <= k < n ==> !WritesStatus(ss[k], acts[k], id, st)
  }

  /** In every interleaving, the status of an id is what a hook for it wrote last, or what was
      there at the start if none has written. */
  lemma {:induction false} StatusIsLatest(ss: seq<System>, acts: seq<Action>, n: nat, id: string)
    requires IsExecution(ss, acts) && n <= |acts| && id in ss[n].scans
    ensures
      || (id in ss[0].scans && ss[n].scans[id] == ss[0].scans[id] && NoneWrites(ss, acts, 0, n, id))
      || exists m: nat :: m < n && WritesStatus(ss[m], acts[m], id, ss[n].scans[id]) && NoneWrites(ss, acts, m + 1, n, id)
  {
    if n != 0 {
      StepOf(ss, acts, n - 1);
      StatusStep(ss[n - 1], acts[n - 1], id);
      if WritesStatus(ss[n - 1], acts[n - 1], id, ss[n].scans[id]) {
        assert NoneWrites(ss, acts, n, n, id);
      } else {
        StatusIsLatest(ss, acts, n - 1, id);
        StatusLater(ss, acts, n, id);
      }
    }
  }

  lemma StatusLater(ss: seq<System>, acts: seq<Action>, n: nat, id: string)
    requires 0 < n <= |acts| < |ss| && NoneWrites(ss, acts, n - 1, n, id)
    ensures forall m: nat :: m < n && NoneWrites(ss, acts, m, n - 1, id) ==> NoneWrites(ss, acts, m, n, id)
  {
  }

  ghost predicate Scanned(acts: seq<Action>, n: nat, h: nat)
    requires n <= |acts|
  {
    exists m :: 0 <= m < n && acts[m] == WriteDone(h)
  }

  lemma DecidingStep(s: System, a: Action, h: nat)
    requires Enabled(s, a) && HookAt(Next(s, a), h, Deciding)
    ensures a == WriteDone(h) || HookAt(s, h, Deciding)
  {
  }

  lemma {:induction false} DecidingScanned(ss: seq<System>, acts: seq<Action>, n: nat, h: nat)
    requires IsExecution(ss, acts) && n <= |acts| && HookAt(ss[n], h, Deciding)
    ensures Scanned(acts, n, h)
  {
    if n != 0 {
      StepOf(ss, acts, n - 1);
      DecidingStep(ss[n - 1], acts[n - 1], h);
      if acts[n - 1] != WriteDone(h) {
        DecidingScanned(ss, acts, n - 1, h);
      }
    }
  }

  /** A hook approves only after it has written "done", and never a row flagged for human
      review, nor anything beneath such a row. */
  lemma ApprovalFollowsScan(ss: seq<System>, acts: seq<Action>, n: nat)
    requires IsExecution(ss, acts) && n < |acts| && acts[n].AutoApprove?
    ensures Scanned(acts, n, acts[n].h)
    ensures var t, op := ss[n].table, Q.Approve(ss[n].hooks[acts[n].h].id, "auto", acts[n].comment);
            ss[n + 1].table != t ==> exists base :: Q.Find(t, op.id) == Some(base) && !t.rows[base].requireHuman && Q.ApprovesBase(t, op, base)
  {
    StepOf(ss, acts, n);
    DecidingScanned(ss, acts, n, acts[n].h);
    Q.DecisionIsAudited(ss[n].table, Q.Approve(ss[n].hooks[acts[n].h].id, "auto", acts[n].comment));
  }

  lemma TableStep(s: System, a: Action)
    requires Enabled(s, a) && !a.Store? && !a.AutoApprove?
    ensures Next(s, a).table == s.table
  {
  }

  /** The table changes only by an operation of somebody else or by a hook's approval. */
  lemma {:induction false} TableChangesBy(ss: seq<System>, acts: seq<Action>, m: nat, n: nat)
    requires IsExecution(ss, acts) && m <= n <= |acts|
    requires forall k :: m <= k < n ==> !acts[k].Store? && !acts[k].AutoApprove?
    ensures ss[n].table == ss[m].table
  {
    if m < n {
      TableChangesBy(ss, acts, m, n - 1);
      StepOf(ss, acts, n - 1);
      TableStep(ss[n - 1], acts[n - 1]);
    }
  }

  /** Step `m` is the first read of request `w`, which finds its key not approved. */
  ghost predicate FoundUnapproved(s: System, a: Action, w: nat) {
    a == ReadApproved(w) && w in s.waiters && !Q.StatusIs(s.table, s.waiters[w].key, Q.Approved)
  }

  /** Its second, which finds its scan not over. */
  ghost predicate FoundScanning(s: System, a: Action, w: nat) {
    a == ReadScanDone(w) && w in s.waiters && !(s.waiters[w].id in s.scans && s.scans[s.waiters[w].id] != Scanning)
  }

  ghost predicate ReadOnce(ss: seq<System>, acts: seq<Action>, n: nat, w: nat)
    requires n <= |acts| < |ss|
  {
    exists m :: 0 <= m < n && FoundUnapproved(ss[m], acts[m], w)
  }

  ghost predicate ReadBoth(ss: seq<System>, acts: seq<Action>, n: nat, w: nat)
    requires n <= |acts| < |ss|
  {
    exists m :: 0 <= m < n && FoundScanning(ss[m], acts[m], w) && ReadOnce(ss, acts, m, w)
  }

  /** How far request `w` has come in `waitScan`, and what it has read. */
  ghost predicate CameHere(ss: seq<System>, acts: seq<Action>, n: nat, w: nat)
    requires n <= |acts| < |ss| && w in ss[n].waiters
  {
    && (ss[n].waiters[w].pc == Unapproved ==> ReadOnce(ss, acts, n, w))
    && (ss[n].waiters[w].pc == Blocked || ss[n].waiters[w].pc == Woken ==> ReadBoth(ss, acts, n, w))
  }

  lemma PcStep(s: System, a: Action, w: nat)
    requires Enabled(s, a) && w in Next(s, a).waiters
    ensures var pc := Next(s, a).waiters[w].pc;
            && (pc == Unapproved ==> FoundUnapproved(s, a, w) || WaiterAt(s, w, Unapproved))
            && (pc == Blocked ==> (FoundScanning(s, a, w) && WaiterAt(s, w, Unapproved)) || WaiterAt(s, w, Blocked))
            && (pc == Woken ==> WaiterAt(s, w, Blocked) || WaiterAt(s, w, Woken))
  {
    if w in s.waiters {
      if OfWaiter(a, w) {
      } else {
        ForeignStep(s, a, w);
      }
    }
  }

  lemma {:induction false} CameInOrder(ss: seq<System>, acts: seq<Action>, n: nat, w: nat)
    requires IsExecution(ss, acts) && n <= |acts| && w in ss[n].waiters
    ensures CameHere(ss, acts, n, w)
  {
    if n != 0 {
      StepOf(ss, acts, n - 1);
      PcStep(ss[n - 1], acts[n - 1], w);
      if w in ss[n - 1].waiters {
        CameInOrder(ss, acts, n - 1, w);
        ReadLater(ss, acts, n, w);
      }
    }
  }

  lemma ReadLater(ss: seq<System>, acts: seq<Action>, n: nat, w: nat)
    requires 0 < n <= |acts| < |ss|
    ensures ReadOnce(ss, acts, n, w) <==> ReadOnce(ss, acts, n - 1, w) || FoundUnapproved(ss[n - 1], acts[n - 1], w)
    ensures ReadBoth(ss, acts, n, w) <==> ReadBoth(ss, acts, n - 1, w) || (FoundScanning(ss[n - 1], acts[n - 1], w) && ReadOnce(ss, acts, n - 1, w))
  {
  }

  /** In every interleaving, a request leaves the select, by a token, its timeout or its client,
      or reads again, only after it has found its key unapproved and then its scan not over. */
  lemma SelectAfterReads(ss: seq<System>, acts: seq<Action>, n: nat, w: nat)
    requires IsExecution(ss, acts) && n < |acts|
    requires acts[n] == Receive(w) || acts[n] == TimeOut(w) || acts[n] == ContextDone(w) || acts[n] == ReadAgain(w)
    ensures ReadBoth(ss, acts, n, w)
  {
    StepOf(ss, acts, n);
    CameInOrder(ss, acts, n, w);
  }

  /** The step signals this channel. */
  ghost predicate Signalled(s: System, a: Action, ch: Chan) {
    a.Send? && a.h in s.hooks && s.hooks[a.h].pc.Notifying? && s.hooks[a.h].pc.rest != [] && s.hooks[a.h].pc.rest[0] == ch
  }

  /** The step takes the token out of this channel. */
  ghost predicate Consumed(s: System, a: Action, ch: Chan) {
    a.Receive? && a.w in s.waiters && s.waiters[a.w].ch == ch
  }

  lemma TokenStep(s: System, a: Action, ch: Chan)
    requires Enabled(s, a)
    ensures ch in Next(s, a).full <==> Signalled(s, a, ch) || (ch in s.full && !Consumed(s, a, ch))
  {
  }

  ghost predicate Kept(ss: seq<System>, acts: seq<Action>, m: nat, n: nat, ch: Chan)
    requires n <= |acts| < |ss|
  {
    forall k :: m <= k < n ==> !Consumed(ss[k], acts[k], ch)
  }

  /** Step `m` signalled the channel, and before step `n` nobody has received. */
  ghost predicate TokenFrom(ss: seq<System>, acts: seq<Action>, m: nat, n: nat, ch: Chan)
    requires m < n <= |acts| < |ss|
  {
    Signalled(ss[m], acts[m], ch) && Kept(ss, acts, m + 1, n, ch)
  }

  ghost predicate HasToken(ss: seq<System>, acts: seq<Action>, n: nat, ch: Chan)
    requires n <= |acts| < |ss|
  {
    exists m: nat :: m < n && TokenFrom(ss, acts, m, n, ch)
  }

  lemma TokenLater(ss: seq<System>, acts: seq<Action>, n: nat, ch: Chan)
    requires n < |acts| < |ss|
    ensures HasToken(ss, acts, n + 1, ch) <==> Signalled(ss[n], acts[n], ch) || (!Consumed(ss[n], acts[n], ch) && HasToken(ss, acts, n, ch))
  {
    if HasToken(ss, acts, n, ch) && !Consumed(ss[n], acts[n], ch) {
      var m: nat :| m < n && TokenFrom(ss, acts, m, n, ch);
      assert TokenFrom(ss, acts, m, n + 1, ch);
    }
    if Signalled(ss[n], acts[n], ch) {
      assert TokenFrom(ss, acts, n, n + 1, ch);
    }
    if HasToken(ss, acts, n + 1, ch) {
      var k := n + 1;
      var m: nat :| m < k && TokenFrom(ss, acts, m, k, ch);
      assert m < n ==> TokenFrom(ss, acts, m, n, ch);
    }
  }

  lemma TokenAt(ss: seq<System>, acts: seq<Action>, n: nat, ch: Chan)
    requires IsExecution(ss, acts) && n < |acts|
    ensures ch in ss[n + 1].full <==> Signalled(ss[n], acts[n], ch) || (ch in ss[n].full && !Consumed(ss[n], acts[n], ch))
  {
    StepOf(ss, acts, n);
    TokenStep(ss[n], acts[n], ch);
  }

  /** In every interleaving, a channel holds a token exactly if a hook has signalled it and
      nobody has received since. */
  lemma {:induction false} TokensAreSignals(ss: seq<System>, acts: seq<Action>, n: nat, ch: Chan)
    requires IsExecution(ss, acts) && n <= |acts|
    ensures ch in ss[n].full <==> HasToken(ss, acts, n, ch)
  {
    if n != 0 {
      TokensAreSignals(ss, acts, n - 1, ch);
      TokensNext(ss, acts, n - 1, ch);
    }
  }

  lemma TokensNext(ss: seq<System>, acts: seq<Action>, n: nat, ch: Chan)
    requires IsExecution(ss, acts) && n < |acts| && (ch in ss[n].full <==> HasToken(ss, acts, n, ch))
    ensures ch in ss[n + 1].full <==> HasToken(ss, acts, n + 1, ch)
  {
    TokenAt(ss, acts, n, ch);
    TokenLater(ss, acts, n, ch);
  }

  /** So a request that wakes by a token was signalled by a hook, and not woken by it before. */
  lemma WokenWasSignalled(ss: seq<System>, acts: seq<Action>, n: nat)
    requires IsExecution(ss, acts) && n < |acts| && acts[n].Receive?
    ensures acts[n].w in ss[n].waiters && HasToken(ss, acts, n, ss[n].waiters[acts[n].w].ch)
  {
    StepOf(ss, acts, n);
    TokensAreSignals(ss, acts, n, ss[n].waiters[acts[n].w].ch);
  }

  // ---------------------------------------------------------------- nobody is stuck

  /** The longer execution goes on by steps of hook `h` alone. */
  ghost predicate GoesOn(ss: seq<System>, acts: seq<Action>, ss': seq<System>, acts': seq<Action>, h: nat) {
    IsExecution(ss', acts') && ss <= ss' && acts <= acts' && forall i :: |acts| <= i < |acts'| ==> OfHook(acts'[i], h)
  }

  lemma HookMoves(ss: seq<System>, acts: seq<Action>, a: Action, h: nat) returns (ss': seq<System>, acts': seq<Action>)
    requires IsExecution(ss, acts) && Enabled(ss[|acts|], a) && OfHook(a, h)
    ensures GoesOn(ss, acts, ss', acts', h) && ss'[|acts'|] == Next(ss[|acts|], a)
    ensures ss'[|acts'|].waiters == ss[|acts|].waiters
  {
    ss', acts' := Extend(ss, acts, a);
    OthersKeepWaiters(ss[|acts|], a);
  }

  /** A hook that has a channel on its list gets to it. */
  lemma {:induction false} Signals(ss: seq<System>, acts: seq<Action>, h: nat, wt: Waiter) returns (ss': seq<System>, acts': seq<Action>)
    requires IsExecution(ss, acts) && OnList(ss[|acts|], h, wt)
    ensures GoesOn(ss, acts, ss', acts', h) && wt.ch in ss'[|acts'|].full && ss'[|acts'|].waiters == ss[|acts|].waiters
    decreases |ss[|acts|].hooks[h].pc.rest|
  {
    var rest := ss[|acts|].hooks[h].pc.rest;
    var ss1, acts1 := HookMoves(ss, acts, Send(h), h);
    if rest[0] == wt.ch {
      ss', acts' := ss1, acts1;
    } else {
      ss', acts' := Signals(ss1, acts1, h, wt);
    }
  }

  lemma TakesList(ss: seq<System>, acts: seq<Action>, h: nat, wt: Waiter) returns (ss': seq<System>, acts': seq<Action>)
    requires IsExecution(ss, acts) && HookAt(ss[|acts|], h, MustNotify) && ss[|acts|].hooks[h].id == wt.id
    requires wt.ch in Chans(ss[|acts|].subs, wt.id)
    ensures GoesOn(ss, acts, ss', acts', h) && OnList(ss'[|acts'|], h, wt) && ss'[|acts'|].waiters == ss[|acts|].waiters
  {
    ss', acts' := HookMoves(ss, acts, Take(h), h);
  }

  /** The step a hook can take next, its scan failing or not. */
  function NextOfHook(pc: HookPc, h: nat, fails: bool): Action
    requires pc.Started? || pc.InScan? || pc.Deciding?
  {
    match pc
    case Started => WriteScanning(h)
    case InScan => if fails then WriteError(h) else WriteDone(h)
    case Deciding => LeavePending(h)
  }

  function StepsToNotify(pc: HookPc): nat {
    match pc
    case Started => 3
    case InScan => 2
    case Deciding => 1
    case _ => 0
  }

  lemma {:induction false} GetsToNotify(ss: seq<System>, acts: seq<Action>, h: nat, id: string, fails: bool)
    returns (ss': seq<System>, acts': seq<Action>)
    requires IsExecution(ss, acts) && TakesFor(ss[|acts|], h, id)
    ensures GoesOn(ss, acts, ss', acts', h) && HookAt(ss'[|acts'|], h, MustNotify) && ss'[|acts'|].hooks[h].id == id
    ensures ss'[|acts'|].waiters == ss[|acts|].waiters && ss'[|acts'|].subs == ss[|acts|].subs
    decreases StepsToNotify(ss[|acts|].hooks[h].pc)
  {
    var pc := ss[|acts|].hooks[h].pc;
    if pc == MustNotify {
      ss', acts' := ss, acts;
    } else {
      var ss1, acts1 := HookMoves(ss, acts, NextOfHook(pc, h, fails), h);
      ss', acts' := GetsToNotify(ss1, acts1, h, id, fails);
    }
  }

  /** What `WillSignal` says comes true: from any reachable state, the hook's own steps put a
      token into the channel, whether its scan fails or not, and then the request can wake. */
  lemma WillSignalDoes(ss: seq<System>, acts: seq<Action>, h: nat, w: nat, fails: bool) returns (ss': seq<System>, acts': seq<Action>)
    requires IsExecution(ss, acts) && WaiterAt(ss[|acts|], w, Blocked) && WillSignal(ss[|acts|], h, ss[|acts|].waiters[w])
    ensures GoesOn(ss, acts, ss', acts', h) && ss'[|acts'|].waiters == ss[|acts|].waiters
    ensures ss'[|acts'|].waiters[w].ch in ss'[|acts'|].full && Enabled(ss'[|acts'|], Receive(w))
  {
    var wt := ss[|acts|].waiters[w];
    if OnList(ss[|acts|], h, wt) {
      ss', acts' := Signals(ss, acts, h, wt);
    } else {
      var ss1, acts1 := GetsToNotify(ss, acts, h, wt.id, fails);
      var ss2, acts2 := TakesList(ss1, acts1, h, wt);
      ss', acts' := Signals(ss2, acts2, h, wt);
    }
  }

  lemma {:induction false} SendsAll(ss: seq<System>, acts: seq<Action>, h: nat) returns (ss': seq<System>, acts': seq<Action>)
    requires IsExecution(ss, acts) && h in ss[|acts|].hooks && ss[|acts|].hooks[h].pc.Notifying?
    ensures GoesOn(ss, acts, ss', acts', h) && HookAt(ss'[|acts'|], h, Finished)
    decreases |ss[|acts|].hooks[h].pc.rest|
  {
    if ss[|acts|].hooks[h].pc.rest == [] {
      ss', acts' := HookMoves(ss, acts, Finish(h), h);
    } else {
      var ss1, acts1 := HookMoves(ss, acts, Send(h), h);
      ss', acts' := SendsAll(ss1, acts1, h);
    }
  }

  /** From any reachable state every hook finishes by its own steps, whether its scan fails or not. */
  lemma EveryHookCanFinish(ss: seq<System>, acts: seq<Action>, h: nat, fails: bool) returns (ss': seq<System>, acts': seq<Action>)
    requires IsExecution(ss, acts) && h in ss[|acts|].hooks
    ensures GoesOn(ss, acts, ss', acts', h) && HookAt(ss'[|acts'|], h, Finished)
  {
    if ss[|acts|].hooks[h].pc == Finished {
      ss', acts' := ss, acts;
    } else if ss[|acts|].hooks[h].pc.Notifying? {
      ss', acts' := SendsAll(ss, acts, h);
    } else {
      var ss1, acts1 := GetsToNotify(ss, acts, h, ss[|acts|].hooks[h].id, fails);
      var ss2, acts2 := HookMoves(ss1, acts1, Take(h), h);
      ss', acts' := SendsAll(ss2, acts2, h);
    }
  }

  function NextOfWaiter(pc: WaiterPc, w: nat): Action
    requires !pc.Left?
  {
    match pc
    case Listening => ReadApproved(w)
    case Unapproved => ReadScanDone(w)
    case Blocked => TimeOut(w)
    case Woken => ReadAgain(w)
    case Leaving(_) => Cancel(w)
  }

  function StepsToLeave(pc: WaiterPc): nat {
    match pc
    case Listening => 5
    case Unapproved => 4
    case Blocked => 3
    case Woken => 2
    case Leaving(_) => 1
    case Left(_) => 0
  }

  lemma WaiterMoves(s: System, w: nat)
    requires w in s.waiters && !s.waiters[w].pc.Left?
    ensures var a := NextOfWaiter(s.waiters[w].pc, w);
            Enabled(s, a) && w in Next(s, a).waiters && StepsToLeave(Next(s, a).waiters[w].pc) < StepsToLeave(s.waiters[w].pc)
    ensures s.waiters[w].pc == Blocked ==> Enabled(s, ContextDone(w))
  {
  }

  /** No request is stuck for good: from any reachable state it leaves within five steps of its
      own, its timeout being one of them, whatever hooks and other requests do or do not. */
  lemma {:induction false} EverybodyCanLeave(ss: seq<System>, acts: seq<Action>, w: nat) returns (ss': seq<System>, acts': seq<Action>)
    requires IsExecution(ss, acts) && w in ss[|acts|].waiters
    ensures IsExecution(ss', acts') && acts <= acts' && |acts'| <= |acts| + StepsToLeave(ss[|acts|].waiters[w].pc) <= |acts| + 5
    ensures w in ss'[|acts'|].waiters && ss'[|acts'|].waiters[w].pc.Left?
    ensures forall i :: |acts| <= i < |acts'| ==> acts'[i] in {ReadApproved(w), ReadScanDone(w), TimeOut(w), ReadAgain(w), Cancel(w)}
    decreases StepsToLeave(ss[|acts|].waiters[w].pc)
  {
    if ss[|acts|].waiters[w].pc.Left? {
      ss', acts' := ss, acts;
    } else {
      WaiterMoves(ss[|acts|], w);
      var ss1, acts1 := Extend(ss, acts, NextOfWaiter(ss[|acts|].waiters[w].pc, w));
      ss', acts' := EverybodyCanLeave(ss1, acts1, w);
    }
  }

  /** A request for an unapproved row without a scan result blocks in three steps. */
  lemma BlocksInThree(ss: seq<System>, acts: seq<Action>, id: string, key: string) returns (ss': seq<System>, acts': seq<Action>)
    requires IsExecution(ss, acts)
    requires var s := ss[|acts|];
             && s.waiters == map[] && id !in s.scans && !Q.StatusIs(s.table, key, Q.Approved) && id in s.born && s.born[id].key == key
    ensures IsExecution(ss', acts')
    ensures var s, s' := ss[|acts|], ss'[|acts'|];
            && s' == s.(subs := Subscribed(s.subs, id, s.next), next := s.next + 1, waiters := map[0 := Waiter(id, key, s.next, Blocked)])
    ensures acts' == acts + [Subscribe(0, id, key), ReadApproved(0), ReadScanDone(0)]
  {
    ss', acts' := Extend(ss, acts, Subscribe(0, id, key));
    ss', acts' := Extend(ss', acts', ReadApproved(0));
    ss', acts' := Extend(ss', acts', ReadScanDone(0));
  }

  /** What a store operation does to the rest of the system. */
  lemma StoreStep(s: System, op: Q.Op, h: nat)
    requires Enabled(s, Store(op, h))
    ensures Next(s, Store(op, h)) == s.(table := Q.Step(s.table, op), born := Births(s, op),
                                        hooks := if StartsHook(s.table, op) then s.hooks[h := Hook(op.newId, Started)] else s.hooks)
  {
  }

  lemma Resumed(s: System, id: string) returns (ss: seq<System>, acts: seq<Action>)
    requires Init(s) && id in s.resume
    ensures IsExecution(ss, acts) && ss[0] == s && acts == [Resume(id, 0)]
    ensures ss[1].table == s.table && HookAt(ss[1], 0, Started) && ss[1].hooks[0].id == id
  {
    ss, acts := Extend([s], [], Resume(id, 0));
  }

  /** The next write of a hook on its way to its decision. */
  lemma ThenScans(ss: seq<System>, acts: seq<Action>, h: nat) returns (ss': seq<System>, acts': seq<Action>)
    requires IsExecution(ss, acts) && (HookAt(ss[|acts|], h, Started) || HookAt(ss[|acts|], h, InScan))
    ensures IsExecution(ss', acts') && ss' != [] && ss'[0] == ss[0]
    ensures acts' == acts + [if HookAt(ss[|acts|], h, Started) then WriteScanning(h) else WriteDone(h)]
    ensures ss'[|acts'|].table == ss[|acts|].table
    ensures HookAt(ss'[|acts'|], h, if HookAt(ss[|acts|], h, Started) then InScan else Deciding)
    ensures ss'[|acts'|].hooks[h].id == ss[|acts|].hooks[h].id
  {
    ss', acts' := Extend(ss, acts, if HookAt(ss[|acts|], h, Started) then WriteScanning(h) else WriteDone(h));
  }

  lemma AutoApprovesRow(t: Q.Table, id: string, key: string)
    requires Q.UniqueIds(t) && key in t.rows && t.rows[key].id == id && !t.rows[key].requireHuman
    ensures Q.StatusIs(Q.Step(t, Q.Approve(id, "auto", "")), key, Q.Approved)
  {
    var op := Q.Approve(id, "auto", "");
    assert Q.Find(t, id) == Some(key);
    assert Q.ApprovesBase(t, op, key);
    Q.ApprovalRow(t, op, key, key);
  }

  lemma ThenApproves(ss: seq<System>, acts: seq<Action>, h: nat, key: string) returns (ss': seq<System>, acts': seq<Action>)
    requires IsExecution(ss, acts) && HookAt(ss[|acts|], h, Deciding)
    requires var s := ss[|acts|];
             && Q.UniqueIds(s.table) && Q.StatusIs(s.table, key, Q.Rejected)
             && s.table.rows[key].id == s.hooks[h].id && !s.table.rows[key].requireHuman
    ensures IsExecution(ss', acts') && ss' != [] && ss'[0] == ss[0] && acts' == acts + [AutoApprove(h, "")]
    ensures Q.StatusIs(ss'[|acts'|].table, key, Q.Approved)
  {
    AutoApprovesRow(ss[|acts|].table, ss[|acts|].hooks[h].id, key);
    ss', acts' := Extend(ss, acts, AutoApprove(h, ""));
  }

  /** A restart undoes a rejection: whatever row is rejected, unflagged and without a finished
      scan when the process starts is resumed, and approved if its scan passes. No request and
      no administrator takes part. */
  lemma RestartApprovesRejected(s: System, key: string) returns (ss: seq<System>, acts: seq<Action>)
    requires Init(s) && Q.UniqueIds(s.table) && Q.StatusIs(s.table, key, Q.Rejected)
    requires !s.table.rows[key].requireHuman && NeedsScan(s.scans, s.table.rows[key].id)
    ensures IsExecution(ss, acts) && ss[0] == s
    ensures acts == [Resume(s.table.rows[key].id, 0), WriteScanning(0), WriteDone(0), AutoApprove(0, "")]
    ensures Q.StatusIs(ss[|acts|].table, key, Q.Approved)
  {
    assert Q.IdInUse(s.table, s.table.rows[key].id);
    ss, acts := Resumed(s, s.table.rows[key].id);
    ss, acts := ThenScans(ss, acts, 0);
    ss, acts := ThenScans(ss, acts, 0);
    ss, acts := ThenApproves(ss, acts, 0, key);
  }

  /** The row a hook scans for, pending and approvable. */
  ghost predicate Approvable(s: System, h: nat, key: string) {
    && h in s.hooks && Q.UniqueIds(s.table) && Q.StatusIs(s.table, key, Q.Pending)
    && s.table.rows[key].id == s.hooks[h].id && !s.table.rows[key].requireHuman
  }

  /** The hook scans, and approves. */
  lemma ScansAndApproves(ss: seq<System>, acts: seq<Action>, h: nat, key: string) returns (ss': seq<System>, acts': seq<Action>)
    requires IsExecution(ss, acts) && HookAt(ss[|acts|], h, Started) && Approvable(ss[|acts|], h, key)
    ensures IsExecution(ss', acts') && acts' == acts + [WriteScanning(h), WriteDone(h), AutoApprove(h, "")]
    ensures var s, s' := ss[|acts|], ss'[|acts'|];
            && HookAt(s', h, MustNotify) && s'.hooks[h].id == s.hooks[h].id && Q.StatusIs(s'.table, key, Q.Approved)
            && s'.waiters == s.waiters && s'.subs == s.subs
  {
    ss', acts' := Extend(ss, acts, WriteScanning(h));
    ss', acts' := Extend(ss', acts', WriteDone(h));
    AutoApprovesRow(ss'[|acts'|].table, ss'[|acts'|].hooks[h].id, key);
    ss', acts' := Extend(ss', acts', AutoApprove(h, ""));
  }

  /** It signals the one request waiting, which wakes and reads again. */
  lemma SignalsAndWakes(ss: seq<System>, acts: seq<Action>, h: nat, w: nat) returns (ss': seq<System>, acts': seq<Action>)
    requires IsExecution(ss, acts) && HookAt(ss[|acts|], h, MustNotify) && WaiterAt(ss[|acts|], w, Blocked)
    requires var s := ss[|acts|];
             s.hooks[h].id == s.waiters[w].id && Chans(s.subs, s.waiters[w].id) == [s.waiters[w].ch]
    ensures IsExecution(ss', acts') && acts' == acts + [Take(h), Send(h), Receive(w)]
    ensures var s, s' := ss[|acts|], ss'[|acts'|];
            WaiterAt(s', w, Woken) && s'.waiters[w].key == s.waiters[w].key && s'.table == s.table
  {
    ss', acts' := Extend(ss, acts, Take(h));
    ss', acts' := Extend(ss', acts', Send(h));
    ss', acts' := Extend(ss', acts', Receive(w));
  }

  /** A request blocked on a scan that approves its row is woken and answers true. */
  lemma WokenAnswersTrue(ss: seq<System>, acts: seq<Action>, h: nat, w: nat) returns (ss': seq<System>, acts': seq<Action>)
    requires IsExecution(ss, acts) && HookAt(ss[|acts|], h, Started) && WaiterAt(ss[|acts|], w, Blocked)
    requires var s := ss[|acts|];
             && s.hooks[h].id == s.waiters[w].id && Chans(s.subs, s.waiters[w].id) == [s.waiters[w].ch]
             && Approvable(s, h, s.waiters[w].key)
    ensures IsExecution(ss', acts')
    ensures acts' == acts + [WriteScanning(h), WriteDone(h), AutoApprove(h, "")] + [Take(h), Send(h), Receive(w)] + [ReadAgain(w), Cancel(w)]
    ensures WaiterAt(ss'[|acts'|], w, Left(true))
  {
    ss', acts' := ScansAndApproves(ss, acts, h, ss[|acts|].waiters[w].key);
    ss', acts' := SignalsAndWakes(ss', acts', h, w);
    ss', acts' := Extend(ss', acts', ReadAgain(w));
    ss', acts' := Extend(ss', acts', Cancel(w));
  }

  /** For every key: the first request inserts it and blocks, its scan approves it, and the
      request answers true. */
  lemma FirstRequestIsServed(key: string) returns (ss: seq<System>, acts: seq<Action>)
    ensures IsExecution(ss, acts) && WaiterAt(ss[|acts|], 0, Left(true))
    ensures acts == [Store(Q.Enqueue(Q.Plain(key), "1"), 0)] + [Subscribe(0, "1", key), ReadApproved(0), ReadScanDone(0)]
                    + [WriteScanning(0), WriteDone(0), AutoApprove(0, "")] + [Take(0), Send(0), Receive(0)] + [ReadAgain(0), Cancel(0)]
  {
    var s0 := System(Q.EMPTY, map[], map[], {}, 0, map[], map[], {}, map[]);
    var op := Q.Enqueue(Q.Plain(key), "1");
    Q.EnqueueUnknown(Q.EMPTY, key, "1");
    StoreStep(s0, op, 0);
    ss, acts := Extend([s0], [], Store(op, 0));
    ss, acts := BlocksInThree(ss, acts, "1", key);
    ss, acts := WokenAnswersTrue(ss, acts, 0, 0);
  }

  /** The exception of `NoLostWakeUp` is real: a row that was inserted approved and then
      revoked has no hook, so a request for it sleeps until its timeout. */
  lemma RevokedInheritanceSleeps() returns (ss: seq<System>, acts: seq<Action>)
    ensures IsExecution(ss, acts)
    ensures var s := ss[|acts|];
            WaiterAt(s, 0, Blocked) && s.full == {} && s.resume == {} && NeverHooked(s, s.waiters[0].id)
            && Q.StatusIs(s.table, s.waiters[0].key, Q.Pending)
  {
    var parent, child, t1, t2, t3, t4 := Q.InheritThenRevoke();
    var s0 := System(Q.EMPTY, map[], map[], {}, 0, map[], map[], {}, map[]);
    var op1, op2 := Q.Enqueue(Q.Plain(parent), "1"), Q.Approve("1", "admin", "");
    var op3, op4 := Q.Enqueue(Q.Plain(child), "2"), Q.Revoke("2", "admin", "");
    StoreStep(s0, op1, 0);
    ss, acts := Extend([s0], [], Store(op1, 0));
    assert ss[|acts|] == s0.(table := t1, hooks := map[0 := Hook("1", Started)], born := map["1" := Inserted(parent, Q.Pending)]);
    StoreStep(ss[|acts|], op2, 1);
    ss, acts := Extend(ss, acts, Store(op2, 1));
    StoreStep(ss[|acts|], op3, 1);
    ss, acts := Extend(ss, acts, Store(op3, 1));
    assert ss[|acts|].born == map["1" := Inserted(parent, Q.Pending), "2" := Inserted(child, Q.Approved)];
    StoreStep(ss[|acts|], op4, 1);
    ss, acts := Extend(ss, acts, Store(op4, 1));
    assert ss[|acts|].table == t4 && ss[|acts|].hooks == map[0 := Hook("1", Started)];
    ss, acts := BlocksInThree(ss, acts, "2", child);
  }
}
