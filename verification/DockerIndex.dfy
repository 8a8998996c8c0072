/** The digest index of the Docker driver: the one kept up to date while running against
    the one rebuilt from the quarantine rows at start. */
module DockerIndex {
  import opened Wrappers
  import opened Strings
  import opened Docker
  import Q = Quarantine

  /** The rows `rebuildIndexes` takes for prefetched blobs. */
  predicate IsBlobRow(key: string) {
    HasPrefix(key, "docker/") && Contains(key, MANIFESTS) && Contains(key, BLOBS)
  }

  /** Every indexed digest leads to an existing blob row that ends in that digest. */
  ghost predicate Sound(rows: map<string, Q.Status>, index: map<string, string>) {
    forall d :: d in index ==> index[d] in rows && IsBlobRow(index[d]) && HasSuffix(index[d], BLOBS + d) && ExtractDigest(index[d]) == d
  }

  /** The digest of every blob row is indexed. */
  ghost predicate Complete(rows: map<string, Q.Status>, index: map<string, string>) {
    forall k :: k in rows && IsBlobRow(k) ==> ExtractDigest(k) in index
  }

  lemma ExtractedIsSuffix(key: string)
    requires Contains(key, BLOBS)
    ensures HasSuffix(key, BLOBS + ExtractDigest(key))
  {
    var i := LastIndex(key, BLOBS).value;
    assert key[i..] == key[i..i + 7] + key[i + 7..];
  }

  /** The keys `OnQuarantine` prefetches for. */
  predicate IsManifestKey(key: string) {
    HasPrefix(key, "docker/") && Contains(key, MANIFESTS)
  }

  /** A digest that reads back from any key built with it. */
  predicate PlainDigest(digest: string) {
    !Contains("/" + digest, BLOBS)
  }

  lemma BlobKeyIsRow(manifestKey: string, digest: string)
    requires IsManifestKey(manifestKey) && PlainDigest(digest)
    ensures IsBlobRow(BlobKey(manifestKey, digest)) && ExtractDigest(BlobKey(manifestKey, digest)) == digest
    ensures HasSuffix(BlobKey(manifestKey, digest), BLOBS + digest)
  {
    DigestRoundTrip(manifestKey, digest);
    BlobsAt(manifestKey, digest);
    ContainsExtended(manifestKey, BLOBS + digest, MANIFESTS);
    assert BlobKey(manifestKey, digest) == manifestKey + (BLOBS + digest);
    ExtractedIsSuffix(BlobKey(manifestKey, digest));
    PrefixExtended(manifestKey, BLOBS + digest, "docker/");
  }

  lemma PrefixExtended(s: string, t: string, prefix: string)
    requires HasPrefix(s, prefix)
    ensures HasPrefix(s + t, prefix)
  {
  }

  /** A request path keeps its digest under the "docker/" prefix. */
  lemma DirectKey(relPath: string)
    requires IsBlob(relPath)
    ensures Contains("docker/" + relPath, BLOBS) && ExtractDigest("docker/" + relPath) == ExtractDigest(relPath)
    ensures TrimPrefix("docker/" + relPath, "docker/") == relPath
  {
    Shifted("docker/", relPath);
  }

  /** A prefix too short to hold the separator moves the last one and nothing else. */
  lemma Shifted(prefix: string, path: string)
    requires Contains(path, BLOBS)
    ensures Contains(prefix + path, BLOBS) && LastIndex(prefix + path, BLOBS) == Some(|prefix| + LastIndex(path, BLOBS).value)
    ensures ExtractDigest(prefix + path) == ExtractDigest(path)
    ensures TrimPrefix(prefix + path, prefix) == path
  {
    var key, i := prefix + path, LastIndex(path, BLOBS).value;
    OccursShifted(prefix, path, BLOBS, i);
    forall j: nat | |prefix| + i < j ensures !Occurs(key, BLOBS, j) {
      OccursShifted(prefix, path, BLOBS, j - |prefix|);
    }
    assert key[|prefix| + i + |BLOBS|..] == path[i + |BLOBS|..];
  }

  /** The blob has a standing row under this manifest, and the index leads to it. */
  ghost predicate Indexed(rows: map<string, Q.Status>, index: map<string, string>, manifestKey: string, digest: string) {
    var key := BlobKey(manifestKey, digest);
    key in rows && rows[key] != Q.Rejected && digest in index && index[digest] == key
  }

  /** How the goroutine for one blob fares; an enqueued blob may inherit approval. */
  datatype Fetch = Failed | Enqueued(inherits: bool)

  function RowStatus(f: Fetch): (r: Q.Status)
    requires f.Enqueued?
    ensures r != Q.Rejected
  {
    if f.inherits then Q.Approved else Q.Pending
  }

  /** Adding one blob of a manifest to rows and index keeps the index sound and complete. */
  lemma AddBlob(rows: map<string, Q.Status>, index: map<string, string>, manifestKey: string, digest: string, status: Q.Status)
    requires IsManifestKey(manifestKey) && PlainDigest(digest) && Sound(rows, index)
    ensures var key := BlobKey(manifestKey, digest);
            && Sound(rows[key := status], index[digest := key])
            && (key in rows ==> Sound(rows, index[digest := key]))
            && (Complete(rows, index) ==> Complete(rows[key := status], index[digest := key]) && Complete(rows, index[digest := key]))
  {
    BlobKeyIsRow(manifestKey, digest);
  }

  /** An index that maps a digest to a key it does not read back from is not sound. */
  lemma AddBadBlob(rows: map<string, Q.Status>, index: map<string, string>, manifestKey: string, digest: string, status: Q.Status)
    requires !PlainDigest(digest) && Sound(rows, index)
    ensures var key := BlobKey(manifestKey, digest);
            && index[digest := key] != index
            && !Sound(rows, index[digest := key]) && !Sound(rows[key := status], index[digest := key])
  {
    DigestRoundTrip(manifestKey, digest);
    var key := BlobKey(manifestKey, digest);
    assert digest in index[digest := key] && index[digest := key][digest] == key;
  }

  /** Nor does it disturb another blob of the manifest. */
  lemma AddBlobKeeps(rows: map<string, Q.Status>, index: map<string, string>, manifestKey: string, digest: string, other: string, status: Q.Status)
    requires Indexed(rows, index, manifestKey, other) && status != Q.Rejected
    ensures var key := BlobKey(manifestKey, digest);
            Indexed(rows[key := status], index[digest := key], manifestKey, other) && Indexed(rows, index[digest := key], manifestKey, other)
  {
    BlobsAt(manifestKey, digest);
    BlobsAt(manifestKey, other);
  }

  ghost predicate CompleteTo(entries: seq<string>, n: nat, index: map<string, string>)
    requires n <= |entries|
  {
    forall j :: 0 <= j < n && IsBlobRow(entries[j]) ==> ExtractDigest(entries[j]) in index
  }

  lemma IndexRow(rows: map<string, Q.Status>, index: map<string, string>, key: string)
    requires Sound(rows, index) && key in rows && IsBlobRow(key)
    ensures Sound(rows, index[ExtractDigest(key) := key])
  {
    ExtractedIsSuffix(key);
  }

  lemma CompletedTo(entries: seq<string>, rows: map<string, Q.Status>, index: map<string, string>)
    requires CompleteTo(entries, |entries|, index) && forall k :: k in entries <==> k in rows
    ensures Complete(rows, index)
  {
    forall k | k in rows && IsBlobRow(k) ensures ExtractDigest(k) in index {
      var j :| 0 <= j < |entries| && entries[j] == k;
    }
  }

  // ---------------------------------------------------------------- runs

  /** The digests `rebuildIndexes` would find. */
  ghost function Digests(rows: map<string, Q.Status>): set<string> {
    set k | k in rows && IsBlobRow(k) :: ExtractDigest(k)
  }

  /** Rows, live index, and the prefetches under way: blobs whose row stands and whose digest
      is still to be indexed. */
  datatype State = State(rows: map<string, Q.Status>, live: map<string, string>, underWay: multiset<(string, string)>)

  /** `RowReady` is a prefetch that has found or enqueued its row, `DigestSet` its second write.
      `Other` is a row inserted or reviewed by anybody else, `Request` a client's request for a
      blob that is not prefetched, or is. */
  datatype Op =
    | RowReady(manifestKey: string, digest: string, inherits: bool)
    | DigestSet(digest: string, key: string)
    | Other(key: string, status: Q.Status)
    | Request(relPath: string, fetch: Fetch)

  predicate Stands(rows: map<string, Q.Status>, key: string) {
    key in rows && rows[key] != Q.Rejected
  }

  predicate Enabled(s: State, op: Op) {
    match op
    case RowReady(manifestKey, _, _) => IsManifestKey(manifestKey)
    case DigestSet(digest, key) => (digest, key) in s.underWay
    case Other(_, _) => true
    case Request(relPath, _) => IsBlob(relPath)
  }

  /** The key a blob request is answered under. */
  function RequestKey(live: map<string, string>, relPath: string): string {
    if ExtractDigest(relPath) in live then live[ExtractDigest(relPath)] else "docker/" + relPath
  }

  function Entered(rows: map<string, Q.Status>, key: string, status: Q.Status): map<string, Q.Status> {
    if Stands(rows, key) then rows else rows[key := status]
  }

  function Step(s: State, op: Op): State
    requires Enabled(s, op)
  {
    match op
    case RowReady(manifestKey, digest, inherits) =>
      var key := BlobKey(manifestKey, digest);
      s.(rows := Entered(s.rows, key, RowStatus(Enqueued(inherits))), underWay := s.underWay + multiset{(digest, key)})
    case DigestSet(digest, key) => s.(live := s.live[digest := key], underWay := s.underWay - multiset{(digest, key)})
    case Other(key, status) => s.(rows := s.rows[key := status])
    case Request(relPath, fetch) =>
      var key := RequestKey(s.live, relPath);
      if QuarantineDecision(key) == Self && fetch.Enqueued? then s.(rows := Entered(s.rows, key, RowStatus(fetch))) else s
  }

  /** The statuses of the rows of the quarantine table. */
  function Statuses(t: Q.Table): map<string, Q.Status> {
    map k | k in t.rows :: t.rows[k].status
  }

  /** Entering a row is what an insertion under a free id does to the statuses, the blob
      inheriting approval exactly if its key has an approved parent. */
  lemma EntersLikeTheStore(t: Q.Table, a: Q.Artifact, newId: string)
    requires !Q.IdInUse(t, newId)
    ensures Statuses(Q.Step(t, Q.Enqueue(a, newId))) ==
            Entered(Statuses(t), a.cacheKey, RowStatus(Enqueued(Q.HasApprovedParent(t, a.cacheKey))))
  {
    forall k ensures k in t.rows && k != a.cacheKey ==> Q.Step(t, Q.Enqueue(a, newId)).rows[k] == t.rows[k] {
      Q.InsertionRow(t, a, newId, k);
    }
    Q.InsertionRow(t, a, newId, a.cacheKey);
  }

  /** The live index is sound, and complete but for the prefetches under way. */
  ghost predicate Good(s: State) {
    && Sound(s.rows, s.live)
    && (forall p :: p in s.underWay ==> p.1 in s.rows && IsBlobRow(p.1) && HasSuffix(p.1, BLOBS + p.0) && ExtractDigest(p.1) == p.0)
    && (forall k :: k in s.rows && IsBlobRow(k) ==> Known(s, ExtractDigest(k)))
  }

  ghost predicate Known(s: State, digest: string) {
    digest in s.live || exists p :: p in s.underWay && p.0 == digest
  }

  /** What a caller can check: a prefetched digest reads back, an inserted blob row has a known
      digest, and so has a request that leaves a row beneath a manifest. */
  ghost predicate Harmless(s: State, op: Op) {
    match op
    case RowReady(_, digest, _) => PlainDigest(digest)
    case DigestSet(_, _) => true
    case Other(key, _) => IsBlobRow(key) ==> Known(s, ExtractDigest(key))
    case Request(relPath, fetch) => Known(s, ExtractDigest(relPath)) || !Contains(relPath, MANIFESTS) || fetch.Failed?
  }

  lemma KnownLater(s: State, s': State, digest: string)
    requires Known(s, digest) && s.live.Keys <= s'.live.Keys
    requires forall p :: p in s.underWay ==> p in s'.underWay || p.0 in s'.live
    ensures Known(s', digest)
  {
    if digest !in s.live {
      var p :| p in s.underWay && p.0 == digest;
      assert p in s'.underWay || p.0 in s'.live;
    }
  }

  lemma ReadyKeeps(s: State, manifestKey: string, digest: string, inherits: bool)
    requires Good(s) && IsManifestKey(manifestKey) && PlainDigest(digest)
    ensures Good(Step(s, RowReady(manifestKey, digest, inherits)))
  {
    var s' := Step(s, RowReady(manifestKey, digest, inherits));
    var key := BlobKey(manifestKey, digest);
    BlobKeyIsRow(manifestKey, digest);
    forall k | k in s'.rows && IsBlobRow(k) ensures Known(s', ExtractDigest(k)) {
      if k in s.rows {
        KnownLater(s, s', ExtractDigest(k));
      } else {
        assert (digest, key) in s'.underWay && (digest, key).0 == digest;
      }
    }
  }

  lemma ReadyExactly(s: State, manifestKey: string, digest: string, inherits: bool)
    requires Good(s) && IsManifestKey(manifestKey)
    ensures Good(Step(s, RowReady(manifestKey, digest, inherits))) <==> PlainDigest(digest)
  {
    if PlainDigest(digest) {
      ReadyKeeps(s, manifestKey, digest, inherits);
    } else {
      DigestRoundTrip(manifestKey, digest);
      assert (digest, BlobKey(manifestKey, digest)) in Step(s, RowReady(manifestKey, digest, inherits)).underWay;
    }
  }

  lemma IndexedKeeps(s: State, digest: string, key: string)
    requires Good(s) && (digest, key) in s.underWay
    ensures Good(Step(s, DigestSet(digest, key)))
  {
    var s' := Step(s, DigestSet(digest, key));
    forall k | k in s'.rows && IsBlobRow(k) ensures Known(s', ExtractDigest(k)) {
      KnownLater(s, s', ExtractDigest(k));
    }
  }

  /** Entering a row keeps the state good exactly if it is no blob row or its digest is known. */
  lemma EnteredExactly(s: State, rows: map<string, Q.Status>, key: string)
    requires Good(s) && rows.Keys == s.rows.Keys + {key}
    ensures Good(s.(rows := rows)) <==> (IsBlobRow(key) ==> Known(s, ExtractDigest(key)))
  {
    var s' := s.(rows := rows);
    forall d ensures Known(s', d) <==> Known(s, d) {
    }
    assert key in rows;
  }

  lemma RequestExactly(s: State, relPath: string, fetch: Fetch)
    requires Good(s) && IsBlob(relPath)
    ensures Good(Step(s, Request(relPath, fetch))) <==> Harmless(s, Request(relPath, fetch))
  {
    var digest, key := ExtractDigest(relPath), RequestKey(s.live, relPath);
    DirectKey(relPath);
    if digest in s.live {
      assert s.rows[key := RowStatus(Enqueued(false))].Keys == s.rows.Keys;
      if fetch.Enqueued? {
        EnteredExactly(s, Entered(s.rows, key, RowStatus(fetch)), key);
      }
    } else {
      DirectIsRow(relPath);
      if fetch.Enqueued? {
        EnteredExactly(s, s.rows[key := RowStatus(fetch)], key);
        if Stands(s.rows, key) {
          EnteredExactly(s, s.rows, key);
        }
      }
    }
  }

  /** A direct request leaves a row exactly if its path has a manifest in it, and then a blob
      row. */
  lemma DirectIsRow(relPath: string)
    requires IsBlob(relPath)
    ensures QuarantineDecision("docker/" + relPath) == Self <==> Contains(relPath, MANIFESTS)
    ensures Contains(relPath, MANIFESTS) ==> IsBlobRow("docker/" + relPath)
  {
    DirectKey(relPath);
    if Contains(relPath, MANIFESTS) {
      ContainsShifted("docker/", relPath, MANIFESTS);
    }
  }

  /** Step by step, the condition is exact. */
  lemma HarmlessExactly(s: State, op: Op)
    requires Good(s) && Enabled(s, op)
    ensures Good(Step(s, op)) <==> Harmless(s, op)
  {
    match op
    case RowReady(manifestKey, digest, inherits) => ReadyExactly(s, manifestKey, digest, inherits);
    case DigestSet(digest, key) => IndexedKeeps(s, digest, key);
    case Other(key, status) => EnteredExactly(s, s.rows[key := status], key);
    case Request(relPath, fetch) => RequestExactly(s, relPath, fetch);
  }

  lemma StepKeepsSound(s: State, relPath: string, fetch: Fetch)
    requires IsBlob(relPath) && Sound(s.rows, s.live)
    ensures var s' := Step(s, Request(relPath, fetch));
            Sound(s'.rows, s'.live) && (ExtractDigest(relPath) in s.live ==> s'.rows.Keys == s.rows.Keys)
  {
  }

  lemma CompleteExactly(s: State)
    requires s.underWay == multiset{} && Sound(s.rows, s.live)
    ensures Complete(s.rows, s.live) <==> Good(s)
  {
    if Complete(s.rows, s.live) {
      StartsGood(s);
    } else if Good(s) {
      GoodIsComplete(s);
    }
  }

  /** A prefetch undisturbed between its two writes. */
  lemma TwoWrites(s: State, manifestKey: string, digest: string, inherits: bool)
    requires s.underWay == multiset{} && IsManifestKey(manifestKey)
    ensures var key := BlobKey(manifestKey, digest);
            Step(Step(s, RowReady(manifestKey, digest, inherits)), DigestSet(digest, key)) ==
              State(Entered(s.rows, key, RowStatus(Enqueued(inherits))), s.live[digest := key], multiset{})
  {
    var key := BlobKey(manifestKey, digest);
    assert multiset{} + multiset{(digest, key)} - multiset{(digest, key)} == multiset{};
  }

  /** A row matters for the index only if it is a Docker driver's blob beneath a manifest, and
      then exactly if its digest is not known. */
  lemma OtherExactly(s: State, key: string, status: Q.Status)
    requires Good(s)
    ensures Good(Step(s, Other(key, status))) <==>
      (HasPrefix(key, "docker/") && Contains(key, "/manifests/") && Contains(key, "/blobs/") ==> Known(s, ExtractDigest(key)))
  {
    EnteredExactly(s, s.rows[key := status], key);
  }

  lemma RequestCompletes(s: State, relPath: string, fetch: Fetch)
    requires IsBlob(relPath) && s.underWay == multiset{} && Sound(s.rows, s.live) && Complete(s.rows, s.live)
    ensures var s' := Step(s, Request(relPath, fetch));
            Complete(s'.rows, s'.live) <==> ExtractDigest(relPath) in s.live || !Contains(relPath, MANIFESTS) || fetch.Failed?
  {
    StepKeepsSound(s, relPath, fetch);
    CompleteExactly(s);
    RequestExactly(s, relPath, fetch);
    CompleteExactly(Step(s, Request(relPath, fetch)));
    assert Known(s, ExtractDigest(relPath)) <==> ExtractDigest(relPath) in s.live;
  }

  lemma GoodIsComplete(s: State)
    requires Good(s) && s.underWay == multiset{}
    ensures Complete(s.rows, s.live)
  {
  }

  /** With no prefetch under way, a good state is one whose live index has exactly the digests
      of the rows and leads to rows that end in them. */
  lemma GoodExactly(s: State)
    requires s.underWay == multiset{}
    ensures Good(s) <==> Sound(s.rows, s.live) && s.live.Keys == Digests(s.rows)
  {
    if Good(s) {
      forall d | d in Digests(s.rows) ensures d in s.live {
        var k :| k in s.rows && IsBlobRow(k) && ExtractDigest(k) == d;
        assert Known(s, d);
      }
      forall d | d in s.live ensures d in Digests(s.rows) {
        assert s.live[d] in s.rows && ExtractDigest(s.live[d]) == d;
      }
    } else if Sound(s.rows, s.live) && s.live.Keys == Digests(s.rows) {
      forall k | k in s.rows && IsBlobRow(k) ensures Known(s, ExtractDigest(k)) {
        assert ExtractDigest(k) in Digests(s.rows);
      }
    }
  }

  /** The driver starts with a rebuilt index and no prefetch under way. */
  ghost predicate IsRun(states: seq<State>, ops: seq<Op>) {
    && |states| == |ops| + 1
    && states[0].underWay == multiset{} && Sound(states[0].rows, states[0].live) && Complete(states[0].rows, states[0].live)
    && forall i {:trigger ops[i]} :: 0 <= i < |ops| ==> Enabled(states[i], ops[i]) && states[i + 1] == Step(states[i], ops[i])
  }

  ghost predicate AllHarmless(states: seq<State>, ops: seq<Op>, n: nat)
    requires IsRun(states, ops) && n <= |ops|
  {
    forall i :: 0 <= i < n ==> Harmless(states[i], ops[i])
  }

  lemma StartsGood(s: State)
    requires s.underWay == multiset{} && Sound(s.rows, s.live) && Complete(s.rows, s.live)
    ensures Good(s)
  {
  }

  lemma {:induction false} HarmlessRun(states: seq<State>, ops: seq<Op>, n: nat)
    requires IsRun(states, ops) && n <= |ops| && AllHarmless(states, ops, n)
    ensures Good(states[n])
  {
    if n == 0 {
      StartsGood(states[0]);
    } else {
      HarmlessRun(states, ops, n - 1);
      HarmlessExactly(states[n - 1], ops[n - 1]);
    }
  }

  /** A run keeps every state good if and only if all its operations are harmless. */
  lemma RunIsGoodExactly(states: seq<State>, ops: seq<Op>, n: nat)
    requires IsRun(states, ops) && n <= |ops|
    ensures AllHarmless(states, ops, n) <==> forall m :: 0 <= m <= n ==> Good(states[m])
  {
    if AllHarmless(states, ops, n) {
      forall m: nat | m <= n ensures Good(states[m]) {
        HarmlessRun(states, ops, m);
      }
    } else {
      var i :| 0 <= i < n && !Harmless(states[i], ops[i]);
      if Good(states[i]) {
        HarmlessExactly(states[i], ops[i]);
        assert !Good(states[i + 1]);
      }
    }
  }

  /** In every run of harmless operations, whenever no prefetch is under way, the live index
      and any index rebuilt from the rows have the same digests, and each digest leads in
      both to an existing row that ends in it. */
  lemma LiveMatchesRebuilt(states: seq<State>, ops: seq<Op>, n: nat, rebuilt: map<string, string>)
    requires IsRun(states, ops) && n <= |ops| && AllHarmless(states, ops, n) && states[n].underWay == multiset{}
    requires Sound(states[n].rows, rebuilt) && Complete(states[n].rows, rebuilt)
    ensures states[n].live.Keys == rebuilt.Keys == Digests(states[n].rows)
    ensures forall d :: d in rebuilt ==>
      && states[n].live[d] in states[n].rows && HasSuffix(states[n].live[d], BLOBS + d)
      && rebuilt[d] in states[n].rows && HasSuffix(rebuilt[d], BLOBS + d)
  {
    var s := states[n];
    HarmlessRun(states, ops, n);
    GoodExactly(s);
    var s' := s.(live := rebuilt);
    StartsGood(s');
    GoodExactly(s');
  }

  /** A request beneath a manifest for a digest not indexed leaves the rows with a digest the
      live index does not have. */
  lemma DirectRequestSpoils(s: State, relPath: string, inherits: bool)
    requires IsBlob(relPath) && Contains(relPath, MANIFESTS) && ExtractDigest(relPath) !in s.live
    ensures var s' := Step(s, Request(relPath, Enqueued(inherits)));
            ExtractDigest(relPath) in Digests(s'.rows) && ExtractDigest(relPath) !in s'.live
  {
    DirectKey(relPath);
    DirectIsRow(relPath);
    var s', key := Step(s, Request(relPath, Enqueued(inherits))), "docker/" + relPath;
    assert key in s'.rows && IsBlobRow(key);
  }

  /** Such a path, and the run of one request that ends with different indexes. */
  lemma SpoiledRun() returns (states: seq<State>, ops: seq<Op>)
    ensures IsRun(states, ops) && |ops| == 1 && states[1].underWay == multiset{}
    ensures ops[0] == Request("x/manifests/t" + BLOBS + "d", Enqueued(false))
    ensures states[1].live == map[] && "d" in Digests(states[1].rows)
  {
    var path := "x/manifests/t" + BLOBS + "d";
    SpoilingPath();
    var s := State(map[], map[], multiset{});
    DirectRequestSpoils(s, path, false);
    states, ops := [s, Step(s, Request(path, Enqueued(false)))], [Request(path, Enqueued(false))];
  }

  lemma SpoilingPath()
    ensures var path := "x/manifests/t" + BLOBS + "d"; IsBlob(path) && Contains(path, MANIFESTS) && ExtractDigest(path) == "d"
  {
    var path := "x/manifests/t" + BLOBS + "d";
    ContainsMiddle("x/manifests/t", BLOBS, "d");
    ContainsMiddle("x", MANIFESTS, "t" + (BLOBS + "d"));
    assert "x" + MANIFESTS + ("t" + (BLOBS + "d")) == path;
    assert path == BlobKey("x/manifests/t", "d");
    ShortDigest();
  }

  lemma ShortDigest()
    ensures ExtractDigest(BlobKey("x/manifests/t", "d")) == "d"
  {
    DigestRoundTrip("x/manifests/t", "d");
    assert forall i: nat :: !Occurs("/" + "d", BLOBS, i);
  }

  ghost predicate EnqueuedBlob(key: string, status: Q.Status, manifestKey: string, blobs: seq<string>, fetches: seq<Fetch>, n: nat)
    requires n <= |blobs| == |fetches|
  {
    exists i :: 0 <= i < n && key == BlobKey(manifestKey, blobs[i]) && fetches[i].Enqueued? && status == RowStatus(fetches[i])
  }

  /** Prefetching the first `n` blobs of a manifest has made `rows'` of `rows`: no row is lost,
      standing rows stay, and a row is new or changed only if its blob was enqueued. */
  ghost predicate RowsAdded(rows: map<string, Q.Status>, rows': map<string, Q.Status>,
                            manifestKey: string, blobs: seq<string>, fetches: seq<Fetch>, n: nat)
    requires n <= |blobs| == |fetches|
  {
    && (forall k :: k in rows ==> k in rows' && (rows[k] != Q.Rejected ==> rows'[k] == rows[k]))
    && (forall k :: k in rows' && (k !in rows || rows'[k] != rows[k]) ==> EnqueuedBlob(k, rows'[k], manifestKey, blobs, fetches, n))
  }

  /** And it has made `index'` of `index`: no entry is lost, one is new or changed only if it is
      of such a blob, and every blob enqueued, or standing at first, is indexed. */
  ghost predicate IndexAdded(rows: map<string, Q.Status>, index: map<string, string>, rows': map<string, Q.Status>, index': map<string, string>,
                             manifestKey: string, blobs: seq<string>, fetches: seq<Fetch>, n: nat)
    requires n <= |blobs| == |fetches|
  {
    && (forall d :: d in index ==> d in index')
    && (forall d :: d in index' && (d !in index || index'[d] != index[d]) ==> d in blobs[..n] && Indexed(rows', index', manifestKey, d))
    && (forall i :: 0 <= i < n && (fetches[i].Enqueued? || Stands(rows, BlobKey(manifestKey, blobs[i]))) ==> Indexed(rows', index', manifestKey, blobs[i]))
  }

  /** What the goroutine for one blob does. */
  ghost predicate OneBlob(rows: map<string, Q.Status>, index: map<string, string>, rows': map<string, Q.Status>, index': map<string, string>,
                          key: string, digest: string, fetch: Fetch)
  {
    && rows' == (if Stands(rows, key) || fetch.Failed? then rows else rows[key := RowStatus(fetch)])
    && index' == (if Stands(rows, key) || fetch.Enqueued? then index[digest := key] else index)
  }

  lemma OneMoreRow(rows0: map<string, Q.Status>, rows: map<string, Q.Status>, index: map<string, string>,
                   rows': map<string, Q.Status>, index': map<string, string>,
                   manifestKey: string, blobs: seq<string>, fetches: seq<Fetch>, n: nat)
    requires n < |blobs| == |fetches| && RowsAdded(rows0, rows, manifestKey, blobs, fetches, n)
    requires OneBlob(rows, index, rows', index', BlobKey(manifestKey, blobs[n]), blobs[n], fetches[n])
    ensures RowsAdded(rows0, rows', manifestKey, blobs, fetches, n + 1)
  {
    forall k | k in rows' && (k !in rows0 || rows'[k] != rows0[k]) ensures EnqueuedBlob(k, rows'[k], manifestKey, blobs, fetches, n + 1) {
      if k in rows && rows'[k] == rows[k] {
        assert EnqueuedBlob(k, rows[k], manifestKey, blobs, fetches, n);
      }
    }
  }

  lemma OneMoreEntry(rows0: map<string, Q.Status>, index0: map<string, string>, rows: map<string, Q.Status>, index: map<string, string>,
                     rows': map<string, Q.Status>, index': map<string, string>,
                     manifestKey: string, blobs: seq<string>, fetches: seq<Fetch>, n: nat)
    requires n < |blobs| == |fetches| && RowsAdded(rows0, rows, manifestKey, blobs, fetches, n)
    requires IndexAdded(rows0, index0, rows, index, manifestKey, blobs, fetches, n)
    requires OneBlob(rows, index, rows', index', BlobKey(manifestKey, blobs[n]), blobs[n], fetches[n])
    requires forall d :: Indexed(rows, index, manifestKey, d) ==> Indexed(rows', index', manifestKey, d)
    ensures IndexAdded(rows0, index0, rows', index', manifestKey, blobs, fetches, n + 1)
  {
    assert blobs[..n + 1] == blobs[..n] + [blobs[n]];
    forall d | d in index' && (d !in index0 || index'[d] != index0[d]) ensures d in blobs[..n + 1] && Indexed(rows', index', manifestKey, d) {
      if d != blobs[n] {
        assert d in index && index'[d] == index[d];
      }
    }
    forall i | 0 <= i < n + 1 && (fetches[i].Enqueued? || Stands(rows0, BlobKey(manifestKey, blobs[i]))) ensures Indexed(rows', index', manifestKey, blobs[i]) {
      if i < n {
        assert Indexed(rows, index, manifestKey, blobs[i]);
      }
    }
  }

  class DockerDriver {
    var rows: map<string, Q.Status>       // the quarantine table, as far as this driver looks at it
    var digestIndex: map<string, string>

    constructor (rows: map<string, Q.Status>)
      ensures this.rows == rows && digestIndex == map[]
    {
      this.rows, digestIndex := rows, map[];
    }

    /** The driver between two prefetches. */
    ghost function Quiet(): State
      reads this
    {
      State(rows, digestIndex, multiset{})
    }

    /** The scan at startup, over the rows in whatever order `List` returns them. */
    method RebuildIndexes(entries: seq<string>)
      requires digestIndex == map[] && forall k :: k in entries <==> k in rows
      modifies this`digestIndex
      ensures Sound(rows, digestIndex) && Complete(rows, digestIndex) && digestIndex.Keys == Digests(rows)
    {
      for i := 0 to |entries|
        invariant Sound(rows, digestIndex)
        invariant CompleteTo(entries, i, digestIndex)
      {
        var k := entries[i];
        assert k in rows;
        if HasPrefix(k, "docker/") && Contains(k, MANIFESTS) && Contains(k, BLOBS) {
          IndexRow(rows, digestIndex, k);
          digestIndex := digestIndex[ExtractDigest(k) := k];
        }
      }
      CompletedTo(entries, rows, digestIndex);
      StartsGood(Quiet());
      GoodExactly(Quiet());
    }

    /** The goroutine for one blob: index it if its row stands, else download and enqueue.
        A digest that does not read back spoils the index, and nothing else does. */
    method PrefetchBlob(manifestKey: string, digest: string, fetch: Fetch)
      requires IsManifestKey(manifestKey)
      modifies this
      ensures old(Sound(rows, digestIndex)) ==> (Sound(rows, digestIndex) <==> PlainDigest(digest) || digestIndex == old(digestIndex))
      ensures old(Sound(rows, digestIndex) && Complete(rows, digestIndex)) && PlainDigest(digest) ==> Complete(rows, digestIndex)
      ensures var key := BlobKey(manifestKey, digest);
              var stands := key in old(rows) && old(rows)[key] != Q.Rejected;
              && rows == (if stands || fetch.Failed? then old(rows) else old(rows)[key := RowStatus(fetch)])
              && digestIndex == (if stands || fetch.Enqueued? then old(digestIndex)[digest := key] else old(digestIndex))
      ensures if old(Stands(rows, BlobKey(manifestKey, digest))) || fetch.Enqueued?
              then Quiet() == Step(Step(old(Quiet()), RowReady(manifestKey, digest, fetch == Enqueued(true))), DigestSet(digest, BlobKey(manifestKey, digest)))
              else Quiet() == old(Quiet())
      ensures fetch.Enqueued? ==> Indexed(rows, digestIndex, manifestKey, digest)
      ensures forall d :: old(Indexed(rows, digestIndex, manifestKey, d)) ==> Indexed(rows, digestIndex, manifestKey, d)
    {
      var blobKey := BlobKey(manifestKey, digest);
      TwoWrites(Quiet(), manifestKey, digest, fetch == Enqueued(true));
      ghost var status := if fetch.Enqueued? then RowStatus(fetch) else Q.Pending;
      if Sound(rows, digestIndex) {
        if PlainDigest(digest) {
          AddBlob(rows, digestIndex, manifestKey, digest, status);
        } else {
          AddBadBlob(rows, digestIndex, manifestKey, digest, status);
        }
      }
      forall d | Indexed(rows, digestIndex, manifestKey, d)
        ensures Indexed(rows[blobKey := status], digestIndex[digest := blobKey], manifestKey, d)
        ensures Indexed(rows, digestIndex[digest := blobKey], manifestKey, d)
      {
        AddBlobKeeps(rows, digestIndex, manifestKey, digest, d, status);
      }
      if blobKey in rows && rows[blobKey] != Q.Rejected {
        digestIndex := digestIndex[digest := blobKey];
      } else if fetch.Enqueued? {
        rows := rows[blobKey := RowStatus(fetch)];
        digestIndex := digestIndex[digest := blobKey];
      }
    }

    /** Prefetches the blobs of one manifest; the order of the goroutines is that of `blobs`,
        which may be any. */
    method PrefetchBlobsForManifest(manifestKey: string, blobs: seq<string>, fetches: seq<Fetch>)
      requires |fetches| == |blobs|
      requires IsManifestKey(manifestKey)
      modifies this
      ensures old(Sound(rows, digestIndex)) && (forall d :: d in blobs ==> PlainDigest(d)) ==>
                Sound(rows, digestIndex) && (old(Complete(rows, digestIndex)) ==> Complete(rows, digestIndex))
      ensures RowsAdded(old(rows), rows, manifestKey, blobs, fetches, |blobs|)
      ensures IndexAdded(old(rows), old(digestIndex), rows, digestIndex, manifestKey, blobs, fetches, |blobs|)
    {
      for i := 0 to |blobs|
        invariant old(Sound(rows, digestIndex)) && (forall d :: d in blobs ==> PlainDigest(d)) ==>
                    Sound(rows, digestIndex) && (old(Complete(rows, digestIndex)) ==> Complete(rows, digestIndex))
        invariant RowsAdded(old(rows), rows, manifestKey, blobs, fetches, i)
        invariant IndexAdded(old(rows), old(digestIndex), rows, digestIndex, manifestKey, blobs, fetches, i)
      {
        assert blobs[i] in blobs;
        ghost var before, index := rows, digestIndex;
        PrefetchBlob(manifestKey, blobs[i], fetches[i]);
        OneMoreRow(old(rows), before, index, rows, digestIndex, manifestKey, blobs, fetches, i);
        OneMoreEntry(old(rows), old(digestIndex), before, index, rows, digestIndex, manifestKey, blobs, fetches, i);
      }
    }

    /** A row of another artifact, inserted by the registry or by another driver. */
    method EnqueueOther(key: string, status: Q.Status)
      modifies this`rows
      ensures rows == old(rows)[key := status] && Quiet() == Step(old(Quiet()), Other(key, status))
      ensures old(Sound(rows, digestIndex)) ==> Sound(rows, digestIndex)
      ensures old(Sound(rows, digestIndex) && Complete(rows, digestIndex)) ==>
                (Complete(rows, digestIndex) <==> !IsBlobRow(key) || ExtractDigest(key) in digestIndex)
    {
      rows := rows[key := status];
    }

    /** A client's blob request as `Resolve` and the registry treat it: a known digest goes
        to its canonical key, any other blob keeps its own path as key. A failed download or
        validation leaves no row. */
    method RequestBlob(relPath: string, fetch: Fetch) returns (key: string)
      requires IsBlob(relPath)
      modifies this`rows
      ensures key == RequestKey(digestIndex, relPath) && Quiet() == Step(old(Quiet()), Request(relPath, fetch))
      ensures ExtractDigest(relPath) in digestIndex && old(Sound(rows, digestIndex)) ==> rows.Keys == old(rows.Keys)
      ensures old(Sound(rows, digestIndex)) ==> Sound(rows, digestIndex)
      ensures old(Sound(rows, digestIndex) && Complete(rows, digestIndex)) ==>
                (Complete(rows, digestIndex) <==> ExtractDigest(relPath) in digestIndex || !Contains(relPath, MANIFESTS) || fetch.Failed?)
    {
      var digest := ExtractDigest(relPath);
      if Sound(rows, digestIndex) {
        StepKeepsSound(Quiet(), relPath, fetch);
        if Complete(rows, digestIndex) {
          RequestCompletes(Quiet(), relPath, fetch);
        }
      }
      if digest in digestIndex {
        key := digestIndex[digest];
      } else {
        key := "docker/" + relPath;
      }
      if QuarantineDecision(key) == Self && fetch.Enqueued? && (key !in rows || rows[key] == Q.Rejected) {
        rows := rows[key := RowStatus(fetch)];
      }
    }
  }
}
