/** The request path: `ServeHTTP` and its handlers, with arbitrary store, scan and cache
    activity of other actors between any two of their atomic steps. */
module Registry {
  import opened Wrappers
  import opened Quarantine
  import opened Strings
  import Docker
  import SqlLike
  import ScanWait
  import QuarantineDb

  /** The driver's quarantine decision for an artifact. */
  datatype Mode = NoQuarantine | Self | Gate(gateKey: string)

  datatype Resolved = Found(artifact: Artifact) | CacheHit | NotFound | Skip | Failed

  /** The two driver calls the handlers depend on. A passing validation still yields the
      reason, possibly empty, for which the artifact needs human review. */
  datatype Driver = Driver(name: string, prefix: string, decide: Artifact -> Mode,
                           validate: Artifact -> Result<string, string>)

  /** How the select in `waitScan` ends. */
  datatype Wake = Token | Timeout | ContextDone

  datatype Request = Request(path: string, allowed: bool, resolved: Resolved, wake: Wake, newId: string)

  datatype Response =
    | NoDriver | AccessDenied | DriverReplied | NotFoundUpstream | UpstreamError | ValidationFailed
    | ServedApproved(key: string, data: seq<byte>)
    | ServedPending(key: string)

  /** One step of another actor. */
  datatype EnvStep =
    | Act(op: Op)
    | ScanWrite(id: string, status: ScanWait.ScanStatus)
    | Notify(id: string)
    | CachePut(key: string, data: seq<byte>)
    | CacheDrop(key: string)

  /** What the other actors do before each numbered step of a request. */
  type Environment = nat -> seq<EnvStep>

  function From(env: Environment, k: nat): Environment {
    (n: nat) => env(n + k)
  }

  /** Nobody else acts before moment `k`. */
  ghost predicate QuietTo(env: Environment, k: nat) {
    forall n: nat :: n < k ==> env(n) == []
  }

  /** Nobody else acts during the request. */
  ghost predicate Quiet(env: Environment) {
    forall n: nat :: env(n) == []
  }

  /** Nobody else acts but at moment `k`. */
  ghost predicate QuietBut(env: Environment, k: nat) {
    forall n: nat :: n != k ==> env(n) == []
  }

  /** The moments of the two selects: of a request for a key that is pending and cached, and of
      the first request for a key. */
  const SHORT_SELECT: nat := 7
  const FIRST_SELECT: nat := 26

  /** The store operations among the steps, in order. */
  function Acts(steps: seq<EnvStep>): seq<Op> {
    if steps == [] then []
    else
      match steps[|steps| - 1]
      case Act(op) => Acts(steps[..|steps| - 1]) + [op]
      case _ => Acts(steps[..|steps| - 1])
  }

  type Scans = map<string, ScanWait.ScanStatus>

  function ScansAfter(scans: Scans, steps: seq<EnvStep>): Scans {
    if steps == [] then scans
    else
      match steps[|steps| - 1]
      case ScanWrite(id, status) => ScansAfter(scans, steps[..|steps| - 1])[id := status]
      case _ => ScansAfter(scans, steps[..|steps| - 1])
  }

  predicate ScanOver(scans: Scans, id: string) {
    id in scans && scans[id] != ScanWait.Scanning
  }

  function RequestKey(d: Driver, path: string): string {
    d.name + "/" + TrimPrefix(path, d.prefix)
  }

  /** A path the driver serves keeps what follows the driver's prefix. */
  lemma RequestKeyOf(d: Driver, rest: string)
    ensures RequestKey(d, d.prefix + rest) == d.name + "/" + rest
  {
    assert (d.prefix + rest)[|d.prefix|..] == rest;
  }

  /** A Docker client's request for a tag's manifest is made under the tag's key. */
  lemma DockerRequestKey(d: Driver, name: string, tag: string)
    requires d.name == "docker" && d.prefix == "/v2/"
    ensures RequestKey(d, "/v2/" + name + "/manifests/" + tag) == Docker.TagKey(name, tag)
  {
    RequestKeyOf(d, name + "/manifests/" + tag);
    assert "/v2/" + name + "/manifests/" + tag == "/v2/" + (name + "/manifests/" + tag);
    assert "docker/" + (name + "/manifests/" + tag) == Docker.TagKey(name, tag);
  }

  /** Some table from index `from` on has the key approved. */
  ghost predicate SeenApproved(tables: seq<Table>, from: nat, key: string) {
    exists n :: from <= n < |tables| && StatusIs(tables[n], key, Approved)
  }

  /** Some table from index `from` on does not have the key approved. */
  ghost predicate SeenUnapproved(tables: seq<Table>, from: nat, key: string) {
    exists n :: from <= n < |tables| && !StatusIs(tables[n], key, Approved)
  }

  lemma UnapprovedLater(tables: seq<Table>, more: seq<Table>, from: nat, key: string)
    requires tables <= more && SeenUnapproved(tables, from, key)
    ensures SeenUnapproved(more, from, key)
  {
    var n :| from <= n < |tables| && !StatusIs(tables[n], key, Approved);
    assert more[n] == tables[n];
  }

  lemma SeenLater(tables: seq<Table>, more: seq<Table>, from: nat, key: string)
    requires tables <= more && SeenApproved(tables, from, key)
    ensures SeenApproved(more, from, key)
  {
    var n :| from <= n < |tables| && StatusIs(tables[n], key, Approved);
    assert more[n] == tables[n];
  }

  /** An audited approval of the key or of an ancestor, by someone other than "auto" or on
      an unflagged row. */
  ghost predicate Audited(tables: seq<Table>, ops: seq<Op>, key: string)
    requires IsRun(tables, ops)
  {
    exists i: nat, base: string ::
      AuditedApproval(tables, ops, i, base) && (key == base || SqlLike.Kin(key, base)) &&
      (ops[i].reviewer != "auto" || !tables[i].rows[base].requireHuman)
  }

  lemma SeenIsAudited(tables: seq<Table>, ops: seq<Op>, from: nat, key: string)
    requires IsRun(tables, ops) && SoundKeys(ops) && SeenApproved(tables, from, key)
    ensures Audited(tables, ops, key)
  {
    var n :| from <= n < |tables| && StatusIs(tables[n], key, Approved);
    ApprovedHasAuditedOrigin(tables, ops, n, key);
  }

  /** What an insertion makes of a key without a standing row. */
  lemma NewRow(t: Table, a: Artifact, newId: string)
    ensures !StatusIs(t, a.cacheKey, Approved) && !StatusIs(t, a.cacheKey, Pending) ==>
              var t' := Step(t, Op.Enqueue(a, newId));
              if IdInUse(t, newId) then t' == t
              else
                && a.cacheKey in t'.rows && t'.rows[a.cacheKey].id == newId
                && t'.rows[a.cacheKey].status == if HasApprovedParent(t, a.cacheKey) then Approved else Pending
  {
    if !IdInUse(t, newId) {
      InsertionRow(t, a, newId, a.cacheKey);
    }
  }

  // ---------------------------------------------------------------- undisturbed requests

  /** What a request can change, at one moment. */
  datatype Snapshot = Snapshot(table: Table, ops: seq<Op>, scans: Scans, cache: map<string, seq<byte>>)

  /** `serveDirectly`: the artifact as downloaded, validated and cached. */
  ghost predicate DirectAnswer(r: Response, was: Snapshot, now: Snapshot, d: Driver, a: Artifact) {
    && now.ops == was.ops
    && if d.validate(a).Ok?
       then r == ServedApproved(a.cacheKey, a.data) && now.cache == was.cache[a.cacheKey := a.data]
       else r == ValidationFailed && now.cache == was.cache
  }

  /** An approved artifact: from the cache if it is there, else as downloaded. */
  ghost predicate ApprovedAnswer(r: Response, was: Snapshot, now: Snapshot, d: Driver, a: Artifact) {
    if a.cacheKey in was.cache
    then r == ServedApproved(a.cacheKey, was.cache[a.cacheKey]) && now.ops == was.ops && now.cache == was.cache
    else DirectAnswer(r, was, now, d, a)
  }

  /** The insertion of an artifact that passed validation, with the reason it needs a person. */
  function Insertion(d: Driver, a: Artifact, newId: string): Op
    requires d.validate(a).Ok?
  {
    Op.Enqueue(a.(requireHumanReview := d.validate(a).value), newId)
  }

  /** An artifact without a row, or with a rejected one: it is cached and enqueued, and served
      only if it comes out approved, which is beneath an approved parent. */
  ghost predicate FirstAnswer(r: Response, was: Snapshot, now: Snapshot, d: Driver, a: Artifact, newId: string) {
    if d.validate(a).Err? then r == ValidationFailed && now.ops == was.ops && now.cache == was.cache
    else
      && now.ops == was.ops + [Insertion(d, a, newId)] && now.cache == was.cache[a.cacheKey := a.data]
      && if IdInUse(was.table, newId) then r == ServedPending(a.cacheKey) && now.table == was.table
         else
           && a.cacheKey in now.table.rows && now.table.rows[a.cacheKey].id == newId
           && if HasApprovedParent(was.table, a.cacheKey)
              then StatusIs(now.table, a.cacheKey, Approved) && r == ServedApproved(a.cacheKey, a.data)
              else StatusIs(now.table, a.cacheKey, Pending) && r == ServedPending(a.cacheKey)
  }

  ghost predicate SelfAnswer(r: Response, was: Snapshot, now: Snapshot, d: Driver, a: Artifact, newId: string) {
    if StatusIs(was.table, a.cacheKey, Approved) then ApprovedAnswer(r, was, now, d, a)
    else if StatusIs(was.table, a.cacheKey, Pending) then r == ServedPending(a.cacheKey) && now.ops == was.ops && now.cache == was.cache
    else FirstAnswer(r, was, now, d, a, newId)
  }

  /** An artifact whose gate is not approved is not served; it is cached if the gate is unknown
      or rejected, and it never gets a row. */
  ghost predicate GateAnswer(r: Response, was: Snapshot, now: Snapshot, d: Driver, a: Artifact, gateKey: string) {
    if StatusIs(was.table, gateKey, Approved) then ApprovedAnswer(r, was, now, d, a)
    else
      && r == ServedPending(a.cacheKey) && now.ops == was.ops
      && now.cache == if StatusIs(was.table, gateKey, Pending) then was.cache else was.cache[a.cacheKey := a.data]
  }

  /** What `Resolve` found, once the short-circuit does not apply. */
  ghost predicate ResolvedAnswer(r: Response, was: Snapshot, now: Snapshot, d: Driver, req: Request) {
    match req.resolved
    case CacheHit => r == DriverReplied && now.ops == was.ops && now.cache == was.cache
    case NotFound => r == NotFoundUpstream && now.ops == was.ops && now.cache == was.cache
    case Skip => r == NotFoundUpstream && now.ops == was.ops && now.cache == was.cache
    case Failed => r == UpstreamError && now.ops == was.ops && now.cache == was.cache
    case Found(a) =>
      match d.decide(a)
      case NoQuarantine => DirectAnswer(r, was, now, d, a)
      case Self => SelfAnswer(r, was, now, d, a, req.newId)
      case Gate(gateKey) => GateAnswer(r, was, now, d, a, gateKey)
  }

  /** The short-circuit answers for a key that is cached and approved or pending. */
  predicate Cuts(was: Snapshot, key: string) {
    key in was.cache && (StatusIs(was.table, key, Approved) || StatusIs(was.table, key, Pending))
  }

  /** The whole answer to a request of driver `d` during which nobody else acts. */
  ghost predicate Undisturbed(r: Response, was: Snapshot, now: Snapshot, d: Driver, req: Request) {
    var key := RequestKey(d, req.path);
    if Cuts(was, key)
    then
      && now.ops == was.ops && now.cache == was.cache
      && r == if StatusIs(was.table, key, Approved) then ServedApproved(key, was.cache[key]) else ServedPending(key)
    else ResolvedAnswer(r, was, now, d, req)
  }

  // ---------------------------------------------------------------- disturbed requests

  /** The three answers a handler gives about an artifact. */
  predicate Answers(r: Response, d: Driver, a: Artifact) {
    if r.ValidationFailed? then d.validate(a).Err? else (r.ServedApproved? || r.ServedPending?) && r.key == a.cacheKey
  }

  /** The kinds of answer driver `d` may give, whatever others do meanwhile. */
  predicate Allowed(r: Response, d: Driver, req: Request) {
    || ((r.ServedApproved? || r.ServedPending?) && r.key == RequestKey(d, req.path))
    || match req.resolved
       case CacheHit => r == DriverReplied
       case NotFound => r == NotFoundUpstream
       case Skip => r == NotFoundUpstream
       case Failed => r == UpstreamError
       case Found(a) =>
         if d.decide(a).NoQuarantine?
         then r == if d.validate(a).Ok? then ServedApproved(a.cacheKey, a.data) else ValidationFailed
         else Answers(r, d, a)
  }

  /** The key whose approval such an answer rests on. */
  predicate ReadFor(key: string, d: Driver, req: Request) {
    || key == RequestKey(d, req.path)
    || (req.resolved.Found? &&
        match d.decide(req.resolved.artifact)
        case NoQuarantine => false
        case Self => key == req.resolved.artifact.cacheKey
        case Gate(gateKey) => key == gateKey)
  }

  /** The answer after a wait, nobody acting after the select: served exactly if the key is
      approved then and its bytes are still cached. */
  predicate WaitedAnswer(r: Response, now: Snapshot, key: string) {
    r == if StatusIs(now.table, key, Approved) && key in now.cache then ServedApproved(key, now.cache[key]) else ServedPending(key)
  }

  /** Exactly what a wait answers, and what others have done by then: true if the key is approved
      at the first read; else false if the scan is over at the second; else whether the key is
      approved after the select and the client still there. `tables` and `after` are the store's
      history at the end. */
  ghost predicate WaitAnswer(approved: bool, ops: seq<Op>, scans: Scans, tables: seq<Table>, after: seq<Op>,
                             id: string, key: string, wake: Wake, env: Environment)
  {
    var n0 := |ops| + |Acts(env(0))|;
    var ops1 := ops + Acts(env(0)) + Acts(env(1));
    var scans1 := ScansAfter(ScansAfter(scans, env(0)), env(1));
    && n0 < |tables| == |after| + 1
    && if StatusIs(tables[n0], key, Approved) then approved && after == ops + Acts(env(0))
       else if id in scans1 && scans1[id] != ScanWait.Scanning then !approved && after == ops1
       else (approved <==> wake != ContextDone && StatusIs(tables[|after|], key, Approved)) && after == ops1 + Acts(env(2))
  }

  /** A request for a pending, cached key whose scan is not over comes to its select. */
  predicate WaitsForRow(was: Snapshot, key: string) {
    StatusIs(was.table, key, Pending) && key in was.cache && !ScanOver(was.scans, was.table.rows[key].id)
  }

  /** So does the first request for an artifact that does not inherit approval. */
  predicate WaitsForNew(was: Snapshot, d: Driver, a: Artifact, newId: string) {
    && !StatusIs(was.table, a.cacheKey, Approved) && !StatusIs(was.table, a.cacheKey, Pending)
    && d.validate(a).Ok? && !IdInUse(was.table, newId) && !HasApprovedParent(was.table, a.cacheKey) && !ScanOver(was.scans, newId)
  }

  class Registry {
    var drivers: seq<Driver>
    var cache: map<string, seq<byte>>
    const store: QuarantineDb.QuarantineStore
    const scanning: bool  // OnEnqueue is set
    ghost var stored: set<(string, seq<byte>)>  // everything ever cached

    ghost predicate Valid()
      reads this, store
    {
      store.Valid() && forall k :: k in cache ==> (k, cache[k]) in stored
    }

    constructor (store: QuarantineDb.QuarantineStore, scanning: bool)
      requires store.Valid()
      ensures Valid() && this.store == store && this.scanning == scanning && drivers == [] && cache == map[]
    {
      this.store, this.scanning, drivers, cache, stored := store, scanning, [], map[], {};
    }

    method Register(d: Driver)
      modifies this`drivers
      ensures drivers == old(drivers) + [d]
    {
      drivers := drivers + [d];
    }

    /** `d` is the first driver whose prefix the path has. */
    ghost predicate Routed(path: string, d: Driver)
      reads this`drivers
    {
      exists i :: 0 <= i < |drivers| && drivers[i] == d && HasPrefix(path, d.prefix)
                  && forall j :: 0 <= j < i ==> !HasPrefix(path, drivers[j].prefix)
    }

    method Route(path: string) returns (d: Option<Driver>)
      ensures d.None? <==> forall e :: e in drivers ==> !HasPrefix(path, e.prefix)
      ensures d.Some? ==> Routed(path, d.value)
    {
      for i := 0 to |drivers|
        invariant forall j :: 0 <= j < i ==> !HasPrefix(path, drivers[j].prefix)
      {
        if HasPrefix(path, drivers[i].prefix) {
          return Some(drivers[i]);
        }
      }
      return None;
    }

    method CacheSet(key: string, data: seq<byte>)
      requires Valid()
      modifies this`cache, this`stored
      ensures Valid() && cache == old(cache)[key := data] && stored == old(stored) + {(key, data)}
    {
      cache := cache[key := data];
      stored := stored + {(key, data)};
    }

    ghost function Snap(): Snapshot
      reads this`cache, store
    {
      Snapshot(store.Now(), store.ops, store.scans, cache)
    }

    /** What other actors do between two steps of this request. */
    method Interfere(steps: seq<EnvStep>)
      requires Valid()
      modifies this`cache, this`stored, store
      ensures Valid() && old(store.tables) <= store.tables && old(store.ops) <= store.ops && old(stored) <= stored
      ensures store.ops == old(store.ops) + Acts(steps) && store.scans == ScansAfter(old(store.scans), steps)
      ensures steps == [] ==> unchanged(this) && unchanged(store) && Snap() == old(Snap())
    {
      for i := 0 to |steps|
        invariant i == 0 ==> unchanged(this) && unchanged(store)
        invariant Valid() && old(store.tables) <= store.tables && old(stored) <= stored
        invariant store.ops == old(store.ops) + Acts(steps[..i]) && store.scans == ScansAfter(old(store.scans), steps[..i])
      {
        assert steps[..i + 1][..i] == steps[..i];
        match steps[i] {
          case Act(op) => store.Perform(op);
          case ScanWrite(id, status) => store.SetScanStatus(id, status);
          case Notify(id) => store.NotifyScanDone(id);
          case CachePut(key, data) => CacheSet(key, data);
          case CacheDrop(key) => cache := cache - {key};
        }
      }
      assert steps[..|steps|] == steps;
    }

    /** One read of the approval status. */
    method ReadApproved(key: string, ghost from: nat) returns (approved: bool)
      requires Valid() && from <= |store.ops|
      ensures approved <==> StatusIs(store.Now(), key, Approved)
      ensures if approved then SeenApproved(store.tables, from, key) else SeenUnapproved(store.tables, from, key)
    {
      approved := store.IsApproved(key);
      assert approved <==> StatusIs(store.tables[|store.ops|], key, Approved);
    }

    /** The two reads before the select: whether the key is approved, and if not, whether the scan
        is over. */
    method ReadTwice(id: string, key: string, env: Environment) returns (approved: bool, over: bool)
      requires Valid()
      modifies this`cache, this`stored, store
      ensures Valid() && old(store.tables) <= store.tables && old(store.ops) <= store.ops && old(stored) <= stored
      ensures |old(store.ops)| + |Acts(env(0))| < |store.tables|
      ensures approved <==> StatusIs(store.tables[|old(store.ops)| + |Acts(env(0))|], key, Approved)
      ensures approved ==> SeenApproved(store.tables, |old(store.ops)|, key) && store.ops == old(store.ops) + Acts(env(0))
      ensures !approved ==>
                && store.ops == old(store.ops) + Acts(env(0)) + Acts(env(1))
                && store.scans == ScansAfter(ScansAfter(old(store.scans), env(0)), env(1))
                && (over <==> id in store.scans && store.scans[id] != ScanWait.Scanning)
      ensures QuietTo(env, 2) ==> Snap() == old(Snap())
    {
      over := false;
      Interfere(env(0));
      approved := ReadApproved(key, |old(store.ops)|);
      if !approved {
        Interfere(env(1));
        over := store.IsScanDone(id);
      }
    }

    /** The select, and the read after it unless the request is gone. */
    method Select(key: string, wake: Wake, steps: seq<EnvStep>, ghost from: nat) returns (approved: bool)
      requires Valid() && from <= |store.ops|
      modifies this`cache, this`stored, store
      ensures Valid() && old(store.tables) <= store.tables && old(store.ops) <= store.ops && old(stored) <= stored
      ensures store.ops == old(store.ops) + Acts(steps)
      ensures approved <==> wake != ContextDone && StatusIs(store.Now(), key, Approved)
      ensures approved ==> SeenApproved(store.tables, from, key)
      ensures steps == [] ==> Snap() == old(Snap())
    {
      Interfere(steps);
      approved := false;
      if wake != ContextDone {
        approved := ReadApproved(key, from);
      }
    }

    /** The reads and the select of a wait. The answer is exactly whether the key was approved at
        the first read, or is approved at the last one, which takes place unless the scan was
        over at the second or the request is gone. */
    method ReadAndSelect(id: string, key: string, wake: Wake, env: Environment) returns (approved: bool)
      requires Valid()
      modifies this`cache, this`stored, store
      ensures Valid() && old(store.tables) <= store.tables && old(store.ops) <= store.ops && old(stored) <= stored
      ensures approved ==> SeenApproved(store.tables, |old(store.ops)|, key)
      ensures WaitAnswer(approved, old(store.ops), old(store.scans), store.tables, store.ops, id, key, wake, env)
      ensures QuietTo(env, 3) ==> Snap() == old(Snap())
    {
      var over: bool;
      approved, over := ReadTwice(id, key, env);
      if !approved && !over {
        approved := Select(key, wake, env(2), |old(store.ops)|);
      }
    }

    /** Subscribes before reading, so that no notification is missed. */
    method WaitScan(id: string, key: string, wake: Wake, env: Environment) returns (approved: bool)
      requires Valid()
      modifies this`cache, this`stored, store
      ensures Valid() && old(store.tables) <= store.tables && old(store.ops) <= store.ops && old(stored) <= stored
      ensures approved ==> SeenApproved(store.tables, |old(store.ops)|, key)
      ensures WaitAnswer(approved, old(store.ops), old(store.scans), store.tables, store.ops, id, key, wake, env)
      ensures QuietTo(env, 3) ==> Snap() == old(Snap())
    {
      var ch := store.SubscribeByID(id);
      approved := ReadAndSelect(id, key, wake, env);
      store.Cancel(id, ch);
    }

    /** A request with a row whose scan is awaited: the cached bytes if it comes out approved. */
    method WaitAndServe(id: string, key: string, wake: Wake, env: Environment, ghost from: nat) returns (r: Response)
      requires Valid() && from <= |store.ops|
      modifies this`cache, this`stored, store
      ensures Valid() && old(store.tables) <= store.tables && old(store.ops) <= store.ops && old(stored) <= stored
      ensures (r.ServedApproved? || r.ServedPending?) && r.key == key
      ensures r.ServedApproved? ==> (key, r.data) in stored && SeenApproved(store.tables, from, key)
      ensures QuietTo(env, 4) ==> Snap() == old(Snap()) && WaitedAnswer(r, Snap(), key)
      ensures QuietBut(env, 2) && wake != ContextDone && !StatusIs(old(store.Now()), key, Approved) && !ScanOver(old(store.scans), id) ==>
                WaitedAnswer(r, Snap(), key) && store.ops == old(store.ops) + Acts(env(2))
    {
      var ok := WaitScan(id, key, wake, env);
      if ok {
        ghost var waited := store.tables;
        Interfere(env(3));
        SeenLater(waited, store.tables, |old(store.ops)|, key);
        if key in cache {
          return ServedApproved(key, cache[key]);
        }
      }
      return ServedPending(key);
    }

    /** What a handler for artifact `a` promises about a served response: the bytes are
        `a`'s, validated, or some that were cached under its key. */
    ghost predicate ServesArtifact(r: Response, d: Driver, a: Artifact)
      reads this`stored
    {
      r.ServedApproved? ==> r.key == a.cacheKey && ((r.data == a.data && d.validate(a).Ok?) || (r.key, r.data) in stored)
    }

    method ServeDirectly(d: Driver, a: Artifact) returns (r: Response)
      requires Valid()
      modifies this`cache, this`stored
      ensures Valid() && old(stored) <= stored
      ensures DirectAnswer(r, old(Snap()), Snap(), d, a)
    {
      if d.validate(a).Err? {
        return ValidationFailed;
      }
      CacheSet(a.cacheKey, a.data);
      return ServedApproved(a.cacheKey, a.data);
    }

    /** Caches an artifact, enqueues it, and reads back whether it came out approved. */
    method Insert(a: Artifact, newId: string, env: Environment) returns (id: Option<string>, approved: bool)
      requires Valid()
      modifies this`cache, this`stored, store
      ensures Valid() && old(store.tables) <= store.tables && old(store.ops) <= store.ops && old(stored) <= stored
      ensures approved ==> id.Some? && SeenApproved(store.tables, |old(store.ops)|, a.cacheKey)
      ensures QuietTo(env, 2) ==>
                && store.ops == old(store.ops) + [Op.Enqueue(a, newId)] && cache == old(cache)[a.cacheKey := a.data]
                && store.scans == old(store.scans)
      ensures QuietTo(env, 2) ==>
                && store.Now() == Step(old(store.Now()), Op.Enqueue(a, newId))
                && (id.None? <==> IdInUse(old(store.Now()), newId) && !StatusIs(old(store.Now()), a.cacheKey, Pending)
                                  && !StatusIs(old(store.Now()), a.cacheKey, Approved))
                && (id.Some? ==> a.cacheKey in store.rows && store.rows[a.cacheKey].id == id.value)
                && (id.Some? ==> (approved <==> StatusIs(store.Now(), a.cacheKey, Approved)))
    {
      CacheSet(a.cacheKey, a.data);
      Interfere(env(0));
      var r, _ := store.Enqueue(a, newId);
      if r.Err? {
        return None, false;
      }
      Interfere(env(1));
      id := Some(r.value);
      approved := ReadApproved(a.cacheKey, |old(store.ops)|);
    }

    /** An artifact without a standing row: validate, cache, enqueue, and wait for its scan. */
    method FirstPass(d: Driver, a: Artifact, req: Request, env: Environment) returns (r: Response)
      requires Valid()
      modifies this`cache, this`stored, store
      ensures Valid() && old(store.tables) <= store.tables && old(store.ops) <= store.ops && old(stored) <= stored
      ensures ServesArtifact(r, d, a) && Answers(r, d, a)
      ensures r.ServedApproved? ==> SeenApproved(store.tables, |old(store.ops)|, a.cacheKey)
      ensures QuietTo(env, 6) && !StatusIs(old(store.Now()), a.cacheKey, Approved) && !StatusIs(old(store.Now()), a.cacheKey, Pending) ==>
                FirstAnswer(r, old(Snap()), Snap(), d, a, req.newId)
      ensures QuietBut(env, 4) && scanning && req.wake != ContextDone && WaitsForNew(old(Snap()), d, a, req.newId) ==>
                && WaitedAnswer(r, Snap(), a.cacheKey)
                && store.ops == old(store.ops) + [Insertion(d, a, req.newId)] + Acts(env(4))
    {
      if d.validate(a).Err? {
        return ValidationFailed;
      }
      var id, approved := Insert(a.(requireHumanReview := d.validate(a).value), req.newId, env);
      NewRow(old(store.Now()), a.(requireHumanReview := d.validate(a).value), req.newId);
      if id.None? {
        return ServedPending(a.cacheKey);
      }
      if approved {
        return ServedApproved(a.cacheKey, a.data);
      }
      if scanning {
        r := WaitAndServe(id.value, a.cacheKey, req.wake, From(env, 2), |old(store.ops)|);
        return;
      }
      return ServedPending(a.cacheKey);
    }

    method HandleSelfQuarantine(d: Driver, a: Artifact, req: Request, env: Environment) returns (r: Response)
      requires Valid()
      modifies this`cache, this`stored, store
      ensures Valid() && old(store.tables) <= store.tables && old(store.ops) <= store.ops && old(stored) <= stored
      ensures ServesArtifact(r, d, a) && Answers(r, d, a)
      ensures r.ServedApproved? ==> SeenApproved(store.tables, |old(store.ops)|, a.cacheKey)
      ensures r.ServedPending? ==> SeenUnapproved(store.tables, |old(store.ops)|, a.cacheKey)
      ensures QuietTo(env, 8) ==> SelfAnswer(r, old(Snap()), Snap(), d, a, req.newId)
      ensures QuietBut(env, 6) && scanning && req.wake != ContextDone && WaitsForNew(old(Snap()), d, a, req.newId) ==>
                && WaitedAnswer(r, Snap(), a.cacheKey)
                && store.ops == old(store.ops) + [Insertion(d, a, req.newId)] + Acts(env(6))
    {
      Interfere(env(0));
      var approved := ReadApproved(a.cacheKey, |old(store.ops)|);
      ghost var seen := store.tables;
      Interfere(env(1));
      if approved {
        SeenLater(seen, store.tables, |old(store.ops)|, a.cacheKey);
        if a.cacheKey in cache {
          return ServedApproved(a.cacheKey, cache[a.cacheKey]);
        }
        r := ServeDirectly(d, a);
        return;
      }
      UnapprovedLater(seen, store.tables, |old(store.ops)|, a.cacheKey);
      if store.IsPending(a.cacheKey) {
        return ServedPending(a.cacheKey);
      }
      seen := store.tables;
      r := FirstPass(d, a, req, From(env, 2));
      UnapprovedLater(seen, store.tables, |old(store.ops)|, a.cacheKey);
    }

    method HandleGateQuarantine(d: Driver, a: Artifact, gateKey: string, env: Environment) returns (r: Response)
      requires Valid()
      modifies this`cache, this`stored, store
      ensures Valid() && old(store.tables) <= store.tables && old(store.ops) <= store.ops && old(stored) <= stored
      ensures ServesArtifact(r, d, a) && Answers(r, d, a)
      ensures r.ServedApproved? ==> SeenApproved(store.tables, |old(store.ops)|, gateKey)
      ensures r.ServedPending? ==> SeenUnapproved(store.tables, |old(store.ops)|, gateKey)
      ensures QuietTo(env, 2) ==> GateAnswer(r, old(Snap()), Snap(), d, a, gateKey)
    {
      Interfere(env(0));
      var approved := ReadApproved(gateKey, |old(store.ops)|);
      ghost var seen := store.tables;
      Interfere(env(1));
      if approved {
        SeenLater(seen, store.tables, |old(store.ops)|, gateKey);
        if a.cacheKey in cache {
          return ServedApproved(a.cacheKey, cache[a.cacheKey]);
        }
        r := ServeDirectly(d, a);
        return;
      }
      UnapprovedLater(seen, store.tables, |old(store.ops)|, gateKey);
      if !store.IsPending(gateKey) {
        CacheSet(a.cacheKey, a.data);
      }
      return ServedPending(a.cacheKey);
    }

    /** A pending row with cached data: answer at once if its scan is over, else wait. */
    method AnswerPending(cacheKey: string, req: Request, env: Environment) returns (r: Option<Response>)
      requires Valid()
      modifies this`cache, this`stored, store
      ensures Valid() && old(store.tables) <= store.tables && old(store.ops) <= store.ops && old(stored) <= stored
      ensures r.Some? ==> (r.value.ServedApproved? || r.value.ServedPending?) && r.value.key == cacheKey
      ensures r.Some? && r.value.ServedApproved? ==>
                (cacheKey, r.value.data) in stored && SeenApproved(store.tables, |old(store.ops)|, cacheKey)
      ensures QuietTo(env, 7) && StatusIs(old(store.Now()), cacheKey, Pending) ==>
                Snap() == old(Snap()) && r == if cacheKey in cache then Some(ServedPending(cacheKey)) else None
      ensures QuietBut(env, 5) && scanning && req.wake != ContextDone && WaitsForRow(old(Snap()), cacheKey) ==>
                && r.Some? && WaitedAnswer(r.value, Snap(), cacheKey) && store.ops == old(store.ops) + Acts(env(5))
    {
      Interfere(env(0));
      if cacheKey !in store.rows {
        return None;
      }
      var id := store.rows[cacheKey].id;
      Interfere(env(1));
      if cacheKey !in cache {
        return None;
      }
      Interfere(env(2));
      if !scanning || store.IsScanDone(id) {
        return Some(ServedPending(cacheKey));
      }
      var answer := WaitAndServe(id, cacheKey, req.wake, From(env, 3), |old(store.ops)|);
      return Some(answer);
    }

    /** The short-circuit for keys that are quarantined and cached already. */
    method ShortCircuit(cacheKey: string, req: Request, env: Environment) returns (r: Option<Response>)
      requires Valid()
      modifies this`cache, this`stored, store
      ensures Valid() && old(store.tables) <= store.tables && old(store.ops) <= store.ops && old(stored) <= stored
      ensures r.Some? ==> (r.value.ServedApproved? || r.value.ServedPending?) && r.value.key == cacheKey
      ensures r.Some? && r.value.ServedApproved? ==>
                (cacheKey, r.value.data) in stored && SeenApproved(store.tables, |old(store.ops)|, cacheKey)
      ensures r.Some? && r.value.ServedPending? ==> SeenUnapproved(store.tables, |old(store.ops)|, cacheKey)
      ensures QuietTo(env, 9) ==>
                && Snap() == old(Snap())
                && r == if !Cuts(old(Snap()), cacheKey) then None
                        else if StatusIs(old(store.Now()), cacheKey, Approved) then Some(ServedApproved(cacheKey, cache[cacheKey]))
                        else Some(ServedPending(cacheKey))
      ensures QuietBut(env, SHORT_SELECT) && scanning && req.wake != ContextDone && WaitsForRow(old(Snap()), cacheKey) ==>
                && r.Some? && WaitedAnswer(r.value, Snap(), cacheKey) && store.ops == old(store.ops) + Acts(env(SHORT_SELECT))
    {
      Interfere(env(0));
      var approved := ReadApproved(cacheKey, |old(store.ops)|);
      ghost var seen := store.tables;
      Interfere(env(1));
      if approved {
        SeenLater(seen, store.tables, |old(store.ops)|, cacheKey);
        if cacheKey in cache {
          return Some(ServedApproved(cacheKey, cache[cacheKey]));
        }
        return None;
      }
      UnapprovedLater(seen, store.tables, |old(store.ops)|, cacheKey);
      if store.IsPending(cacheKey) {
        seen := store.tables;
        r := AnswerPending(cacheKey, req, From(env, 2));
        UnapprovedLater(seen, store.tables, |old(store.ops)|, cacheKey);
      } else {
        r := None;
      }
    }

    /** Why `r` may be served, for the routed driver `d`: from the cache under the request's
        own key, after reading that key; or the artifact resolved, after reading the key the
        driver decides on, or none if it decides against quarantine. */
    ghost predicate ServedBy(r: Response, read: Option<string>, d: Driver, req: Request)
      requires r.ServedApproved?
      reads this`stored
    {
      || (r.key == RequestKey(d, req.path) && read == Some(r.key) && (r.key, r.data) in stored)
      || (req.resolved.Found? &&
          var a := req.resolved.artifact;
          ServesArtifact(r, d, a) &&
          match d.decide(a)
          case NoQuarantine => read == None && d.validate(a).Ok? && r.data == a.data
          case Self => read == Some(a.cacheKey)
          case Gate(gateKey) => read == Some(gateKey))
    }

    /** The request once it is routed and admitted: the short-circuit, else the driver's
        resolution and decision. */
    method Dispatch(d: Driver, req: Request, env: Environment) returns (r: Response, ghost read: Option<string>)
      requires Valid()
      modifies this`cache, this`stored, store
      ensures Valid() && old(store.tables) <= store.tables && old(store.ops) <= store.ops && old(stored) <= stored
      ensures Allowed(r, d, req)
      ensures Quiet(env) ==> Undisturbed(r, old(Snap()), Snap(), d, req)
      ensures r.ServedApproved? ==> ServedBy(r, read, d, req)
      ensures r.ServedApproved? && read.Some? ==> SeenApproved(store.tables, |old(store.ops)|, read.value)
      ensures r.ServedPending? ==> read.Some? && ReadFor(read.value, d, req) && SeenUnapproved(store.tables, |old(store.ops)|, read.value)
      ensures QuietBut(env, SHORT_SELECT) && scanning && req.wake != ContextDone
              && WaitsForRow(old(Snap()), RequestKey(d, req.path)) ==>
                && WaitedAnswer(r, Snap(), RequestKey(d, req.path)) && store.ops == old(store.ops) + Acts(env(SHORT_SELECT))
      ensures QuietBut(env, FIRST_SELECT) && scanning && req.wake != ContextDone && !Cuts(old(Snap()), RequestKey(d, req.path))
              && req.resolved.Found? && d.decide(req.resolved.artifact) == Self
              && WaitsForNew(old(Snap()), d, req.resolved.artifact, req.newId) ==>
                && WaitedAnswer(r, Snap(), req.resolved.artifact.cacheKey)
                && store.ops == old(store.ops) + [Insertion(d, req.resolved.artifact, req.newId)] + Acts(env(FIRST_SELECT))
    {
      read := None;
      var cacheKey := RequestKey(d, req.path);
      var short := ShortCircuit(cacheKey, req, env);
      if short.Some? {
        return short.value, Some(cacheKey);
      }
      match req.resolved {
        case CacheHit => r := DriverReplied;
        case NotFound => r := NotFoundUpstream;
        case Skip => r := NotFoundUpstream;
        case Failed => r := UpstreamError;
        case Found(a) =>
          match d.decide(a) {
            case NoQuarantine =>
              r := ServeDirectly(d, a);
            case Self =>
              r := HandleSelfQuarantine(d, a, req, From(env, 20));
              read := Some(a.cacheKey);
            case Gate(gateKey) =>
              r := HandleGateQuarantine(d, a, gateKey, From(env, 20));
              read := Some(gateKey);
          }
      }
    }

    /** The single entry point. `read` is the key whose approval the response rests on, or none
        if the routed driver decides against quarantine. Whatever other actors do meanwhile, an
        artifact the routed driver subjects to quarantine is served only after its own key or
        its gate key was seen approved during this request, that approval goes back to an
        audited one, and the bytes are the artifact's, validated, or were cached under its key;
        and one is answered as pending only after such a key was seen unapproved. If nobody acts
        meanwhile, answer and effect are those of `Undisturbed`; if somebody acts only while the
        request waits for a scan, it is served exactly if its key is approved by then. */
    method ServeHTTP(req: Request, env: Environment) returns (r: Response, ghost read: Option<string>)
      requires Valid()
      modifies this`cache, this`stored, store
      ensures Valid() && old(store.tables) <= store.tables && old(store.ops) <= store.ops && old(stored) <= stored
      ensures r == NoDriver <==> forall d :: d in drivers ==> !HasPrefix(req.path, d.prefix)
      ensures r == AccessDenied <==> r != NoDriver && !req.allowed
      ensures r == NoDriver || r == AccessDenied ==> unchanged(this) && unchanged(store)
      ensures req.allowed ==> forall d :: Routed(req.path, d) ==> Allowed(r, d, req)
      ensures req.allowed && Quiet(env) ==> forall d :: Routed(req.path, d) ==> Undisturbed(r, old(Snap()), Snap(), d, req)
      ensures r.ServedApproved? ==> exists d :: Routed(req.path, d) && ServedBy(r, read, d, req)
      ensures r.ServedApproved? && read.Some? ==>
                && SeenApproved(store.tables, |old(store.ops)|, read.value)
                && (SoundKeys(store.ops) ==> Audited(store.tables, store.ops, read.value))
      ensures r.ServedPending? ==> read.Some? && SeenUnapproved(store.tables, |old(store.ops)|, read.value)
                                   && exists d :: Routed(req.path, d) && ReadFor(read.value, d, req)
      ensures req.allowed && QuietBut(env, SHORT_SELECT) && scanning && req.wake != ContextDone ==>
                forall d :: Routed(req.path, d) && WaitsForRow(old(Snap()), RequestKey(d, req.path)) ==>
                  && WaitedAnswer(r, Snap(), RequestKey(d, req.path)) && store.ops == old(store.ops) + Acts(env(SHORT_SELECT))
      ensures req.allowed && QuietBut(env, FIRST_SELECT) && scanning && req.wake != ContextDone && req.resolved.Found? ==>
                forall d :: Routed(req.path, d) && !Cuts(old(Snap()), RequestKey(d, req.path)) && d.decide(req.resolved.artifact) == Self
                            && WaitsForNew(old(Snap()), d, req.resolved.artifact, req.newId) ==>
                  && WaitedAnswer(r, Snap(), req.resolved.artifact.cacheKey)
                  && store.ops == old(store.ops) + [Insertion(d, req.resolved.artifact, req.newId)] + Acts(env(FIRST_SELECT))
    {
      read := None;
      var routed := Route(req.path);
      if routed.None? {
        return NoDriver, None;
      }
      var d := routed.value;
      assert d in drivers;
      if !req.allowed {
        return AccessDenied, None;
      }
      r, read := Dispatch(d, req, env);
      assert Routed(req.path, d);
      if r.ServedApproved? && read.Some? && SoundKeys(store.ops) {
        SeenIsAudited(store.tables, store.ops, |old(store.ops)|, read.value);
      }
    }
  }
}
