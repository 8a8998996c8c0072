/** The disk cache: a data file and a metadata file for every key. Get starts a goroutine
    that writes the metadata back later, under no lock. */
module DiskCache {
  import opened Wrappers

  type Bytes = seq<byte>

  // ---------------------------------------------------------------- specification

  /** Times are counted in steps: a Set that is step n creates metadata of time n. */
  datatype Meta = Meta(contentType: string, createdAt: nat)

  /** A file that does not parse is torn. */
  datatype MetaFile = Torn | Whole(meta: Meta)

  datatype Touch = Touch(key: string, meta: Meta)

  datatype State = State(data: map<string, Bytes>, meta: map<string, MetaFile>, touches: seq<Touch>)

  /** How far a Set gets: its data file may not be written, its metadata file may not be
      opened or break off, or come out mangled because a touch was writing to it too. */
  datatype Outcome = NothingWritten | DataOnly | MetaBroken | MetaMangled | Stored

  /** What a touch does to the file: truncate it, rewrite it, leave it torn between two
      writers, or write to a file already deleted. */
  datatype Effect = Truncated | Rewritten | Mangled | Lost

  datatype Event =
    | Set(key: string, data: Bytes, contentType: string, outcome: Outcome)
    | Get(key: string)
    | Delete(key: string)
    | Touched(touch: nat, effect: Effect)

  const INIT := State(map[], map[], [])

  function Lookup(s: State, key: string): Option<(Bytes, Meta)> {
    if key in s.meta && s.meta[key].Whole? && key in s.data then Some((s.data[key], s.meta[key].meta)) else None
  }

  predicate Exists(s: State, key: string) {
    key in s.meta
  }

  predicate Enabled(s: State, ev: Event) {
    ev.Touched? ==> ev.touch < |s.touches|
  }

  function AfterTouch(s: State, i: nat, effect: Effect): State
    requires i < |s.touches|
  {
    var t := s.touches[i];
    var rest := s.touches[..i] + s.touches[i + 1..];
    match effect
    case Truncated => s.(meta := s.meta[t.key := Torn])
    case Rewritten => s.(meta := s.meta[t.key := Whole(t.meta)], touches := rest)
    case Mangled => s.(meta := s.meta[t.key := Torn], touches := rest)
    case Lost => s.(touches := rest)
  }

  function Step(s: State, ev: Event, now: nat): State
    requires Enabled(s, ev)
  {
    match ev
    case Set(key, data, contentType, outcome) =>
      (match outcome
       case NothingWritten => s
       case DataOnly => s.(data := s.data[key := data])
       case MetaBroken => s.(data := s.data[key := data], meta := s.meta[key := Torn])
       case MetaMangled => s.(data := s.data[key := data], meta := s.meta[key := Torn])
       case Stored => s.(data := s.data[key := data], meta := s.meta[key := Whole(Meta(contentType, now))]))
    case Get(key) =>
      (match Lookup(s, key)
       case None => s
       case Some(found) => s.(touches := s.touches + [Touch(key, found.1)]))
    case Delete(key) => s.(data := s.data - {key}, meta := s.meta - {key})
    case Touched(i, effect) => AfterTouch(s, i, effect)
  }

  ghost predicate IsRun(states: seq<State>, events: seq<Event>) {
    && |states| == |events| + 1
    && states[0] == INIT
    && forall n :: 0 <= n < |events| ==> Enabled(states[n], events[n]) && states[n + 1] == Step(states[n], events[n], n)
  }

  /** The last of the first n events that wrote the data of this key, unless a Delete of the
      key came after it. */
  function LatestSet(events: seq<Event>, n: nat, key: string): (r: Option<nat>)
    requires n <= |events|
    ensures r.Some? ==> r.value < n && events[r.value].Set? && events[r.value].key == key
  {
    if n == 0 then None
    else
      match events[n - 1]
      case Set(k, _, _, outcome) => if k == key && outcome != NothingWritten then Some(n - 1) else LatestSet(events, n - 1, key)
      case Delete(k) => if k == key then None else LatestSet(events, n - 1, key)
      case _ => LatestSet(events, n - 1, key)
  }

  /** Whether step m was a Set of this key with the content type of this metadata. */
  predicate Genuine(events: seq<Event>, n: nat, key: string, meta: Meta)
    requires n <= |events|
  {
    meta.createdAt < n && var ev := events[meta.createdAt]; ev.Set? && ev.key == key && ev.contentType == meta.contentType
  }

  predicate MetaGenuine(s: State, events: seq<Event>, n: nat, key: string)
    requires n <= |events|
  {
    key in s.meta && s.meta[key].Whole? ==> Genuine(events, n, key, s.meta[key].meta)
  }

  ghost predicate TouchesGenuine(s: State, events: seq<Event>, n: nat)
    requires n <= |events|
  {
    forall t :: t in s.touches ==> Genuine(events, n, t.key, t.meta)
  }

  /** The data file holds the bytes of the latest Set, and is missing if there is none. */
  predicate DataLatest(s: State, events: seq<Event>, n: nat, key: string)
    requires n <= |events|
  {
    match LatestSet(events, n, key)
    case None => key !in s.data
    case Some(i) => key in s.data && s.data[key] == events[i].data
  }

  lemma StepKeepsData(s: State, events: seq<Event>, n: nat, key: string)
    requires n < |events| && Enabled(s, events[n]) && DataLatest(s, events, n, key)
    ensures DataLatest(Step(s, events[n], n), events, n + 1, key)
  {
  }

  lemma {:induction false} DataIsLatest(states: seq<State>, events: seq<Event>, n: nat, key: string)
    requires IsRun(states, events) && n <= |events|
    ensures DataLatest(states[n], events, n, key)
  {
    if n != 0 {
      DataIsLatest(states, events, n - 1, key);
      StepKeepsData(states[n - 1], events, n - 1, key);
    }
  }

  lemma StepKeepsTouches(s: State, events: seq<Event>, n: nat)
    requires n < |events| && Enabled(s, events[n]) && TouchesGenuine(s, events, n)
    requires events[n].Get? ==> MetaGenuine(s, events, n, events[n].key)
    ensures TouchesGenuine(Step(s, events[n], n), events, n + 1)
  {
  }

  lemma StepKeepsMeta(s: State, events: seq<Event>, n: nat, key: string)
    requires n < |events| && Enabled(s, events[n]) && TouchesGenuine(s, events, n) && MetaGenuine(s, events, n, key)
    ensures MetaGenuine(Step(s, events[n], n), events, n + 1, key)
  {
  }

  lemma {:induction false} MetadataIsGenuine(states: seq<State>, events: seq<Event>, n: nat, key: string)
    requires IsRun(states, events) && n <= |events|
    ensures TouchesGenuine(states[n], events, n) && MetaGenuine(states[n], events, n, key)
  {
    if n != 0 {
      MetadataIsGenuine(states, events, n - 1, key);
      if events[n - 1].Get? {
        MetadataIsGenuine(states, events, n - 1, events[n - 1].key);
      }
      StepKeepsTouches(states[n - 1], events, n - 1);
      StepKeepsMeta(states[n - 1], events, n - 1, key);
    }
  }

  /** In every interleaving, a hit returns the bytes of the latest Set of the key, and a
      content type that some Set of the key gave; a key without a live Set is a miss. */
  lemma HitIsLatest(states: seq<State>, events: seq<Event>, n: nat, key: string)
    requires IsRun(states, events) && n <= |events|
    ensures Lookup(states[n], key).Some? ==>
      && LatestSet(events, n, key).Some?
      && Lookup(states[n], key).value.0 == events[LatestSet(events, n, key).value].data
      && Genuine(events, n, key, Lookup(states[n], key).value.1)
  {
    DataIsLatest(states, events, n, key);
    MetadataIsGenuine(states, events, n, key);
  }

  // ---------------------------------------------------------------- what is stored is found

  /** An event that may change the files of this key: a Set or Delete of it, or the step of a
      touch of it. */
  predicate Concerns(s: State, ev: Event, key: string) {
    match ev
    case Set(k, _, _, outcome) => k == key && outcome != NothingWritten
    case Get(_) => false
    case Delete(k) => k == key
    case Touched(i, _) => i < |s.touches| && s.touches[i].key == key
  }

  ghost predicate LeftAlone(states: seq<State>, events: seq<Event>, i: nat, n: nat, key: string)
    requires n <= |events| < |states|
  {
    forall m :: i < m < n ==> !Concerns(states[m], events[m], key)
  }

  lemma StaysFound(s: State, ev: Event, now: nat, key: string)
    requires Enabled(s, ev) && !Concerns(s, ev, key)
    ensures Lookup(Step(s, ev, now), key) == Lookup(s, key)
  {
  }

  /** What a Set stores is found, with the bytes, the content type and the time of that Set,
      whatever stood there before, until the next event that concerns the key. */
  lemma {:induction false} StoredIsFound(states: seq<State>, events: seq<Event>, i: nat, n: nat, key: string)
    requires IsRun(states, events) && i < n <= |events| && LeftAlone(states, events, i, n, key)
    requires events[i].Set? && events[i].key == key && events[i].outcome == Stored
    ensures Lookup(states[n], key) == Some((events[i].data, Meta(events[i].contentType, i)))
  {
    if n == i + 1 {
      assert states[n] == Step(states[i], events[i], i);
    } else {
      StoredIsFound(states, events, i, n - 1, key);
      StaysFound(states[n - 1], events[n - 1], n - 1, key);
    }
  }

  /** What is deleted is not found. */
  lemma {:induction false} DeletedIsMissed(states: seq<State>, events: seq<Event>, i: nat, n: nat, key: string)
    requires IsRun(states, events) && i < n <= |events| && LeftAlone(states, events, i, n, key) && events[i] == Delete(key)
    ensures Lookup(states[n], key) == None
  {
    if n == i + 1 {
      assert states[n] == Step(states[i], events[i], i);
    } else {
      DeletedIsMissed(states, events, i, n - 1, key);
      StaysFound(states[n - 1], events[n - 1], n - 1, key);
    }
  }

  /** An event that leaves metadata of this key torn: a Set that breaks off or is mangled, or a
      touch that truncates the file or is mangled. */
  predicate Tears(s: State, ev: Event, key: string) {
    match ev
    case Set(k, _, _, outcome) => k == key && (outcome == MetaBroken || outcome == MetaMangled)
    case Touched(i, effect) => i < |s.touches| && s.touches[i].key == key && (effect == Truncated || effect == Mangled)
    case _ => false
  }

  predicate NotTorn(s: State, key: string) {
    key in s.meta ==> s.meta[key].Whole?
  }

  /** Metadata of a key is whole after an event exactly if the event does not tear it, and it
      was whole or is written anew. */
  lemma TornExactly(s: State, ev: Event, now: nat, key: string)
    requires Enabled(s, ev)
    ensures Tears(s, ev, key) ==> !NotTorn(Step(s, ev, now), key)
    ensures !Tears(s, ev, key) && NotTorn(s, key) ==> NotTorn(Step(s, ev, now), key)
    ensures ev.Set? && ev.key == key && ev.outcome == Stored ==> NotTorn(Step(s, ev, now), key)
  {
  }

  ghost predicate NoneTears(states: seq<State>, events: seq<Event>, n: nat, key: string)
    requires n <= |events| < |states|
  {
    forall m :: 0 <= m < n ==> !Tears(states[m], events[m], key)
  }

  lemma {:induction false} NeverTorn(states: seq<State>, events: seq<Event>, n: nat, key: string)
    requires IsRun(states, events) && n <= |events| && NoneTears(states, events, n, key)
    ensures NotTorn(states[n], key)
  {
    if n != 0 {
      NeverTorn(states, events, n - 1, key);
      TornExactly(states[n - 1], events[n - 1], n - 1, key);
    }
  }

  // ---------------------------------------------------------------- late touches

  function LatestType(events: seq<Event>, n: nat, key: string): Option<string>
    requires n <= |events|
  {
    match LatestSet(events, n, key)
    case None => None
    case Some(i) => Some(events[i].contentType)
  }

  /** What a map would answer: the key exists while it has a latest Set, and a hit has that
      Set's content type. (Its bytes it has in any case.) */
  predicate MapLike(s: State, latest: Option<string>, key: string) {
    && (Exists(s, key) <==> latest.Some?)
    && (Lookup(s, key).Some? ==> latest == Some(Lookup(s, key).value.1.contentType))
  }

  /** The touches under way finish or get on, in any order, and nothing else happens. */
  function TouchAll(s: State, ts: seq<(nat, Effect)>): State
    decreases |ts|
  {
    if ts == [] then s
    else TouchAll(if ts[0].0 < |s.touches| then AfterTouch(s, ts[0].0, ts[0].1) else s, ts[1..])
  }

  predicate TouchesAgree(touches: seq<Touch>, key: string, latest: Option<string>) {
    forall t :: t in touches && t.key == key ==> latest == Some(t.meta.contentType)
  }

  /** The metadata file and all touches of the key agree with the latest Set. */
  predicate Settled(s: State, latest: Option<string>, key: string) {
    && (key in s.meta <==> latest.Some?)
    && (key in s.meta && s.meta[key].Whole? ==> latest == Some(s.meta[key].meta.contentType))
    && TouchesAgree(s.touches, key, latest)
  }

  lemma TouchKeepsSettled(s: State, i: nat, effect: Effect, latest: Option<string>, key: string)
    requires i < |s.touches| && Settled(s, latest, key)
    ensures Settled(AfterTouch(s, i, effect), latest, key)
  {
    assert s.touches[i] in s.touches;
  }

  lemma {:induction false} TouchAllSettled(s: State, ts: seq<(nat, Effect)>, latest: Option<string>, key: string)
    requires Settled(s, latest, key)
    ensures MapLike(TouchAll(s, ts), latest, key)
    decreases |ts|
  {
    if ts != [] {
      if ts[0].0 < |s.touches| {
        TouchKeepsSettled(s, ts[0].0, ts[0].1, latest, key);
        TouchAllSettled(AfterTouch(s, ts[0].0, ts[0].1), ts[1..], latest, key);
      } else {
        TouchAllSettled(s, ts[1..], latest, key);
      }
    }
  }

  lemma OneTouch(s: State, i: nat, effect: Effect)
    requires i < |s.touches|
    ensures TouchAll(s, [(i, effect)]) == AfterTouch(s, i, effect)
  {
    assert [(i, effect)][1..] == [];
  }

  /** However the touches under way go on, they leave the cache like a map. */
  ghost predicate StaysMapLike(s: State, latest: Option<string>, key: string) {
    forall ts :: MapLike(TouchAll(s, ts), latest, key)
  }

  /** A state answers like a map however the touches under way go on if and only if it is
      settled. */
  lemma SettledExactly(s: State, latest: Option<string>, key: string)
    requires key in s.data <==> latest.Some?
    ensures Settled(s, latest, key) <==> StaysMapLike(s, latest, key)
  {
    if Settled(s, latest, key) {
      forall ts ensures MapLike(TouchAll(s, ts), latest, key) {
        TouchAllSettled(s, ts, latest, key);
      }
    } else if TouchesAgree(s.touches, key, latest) {
      assert !MapLike(TouchAll(s, []), latest, key);
    } else {
      var i :| 0 <= i < |s.touches| && s.touches[i].key == key && latest != Some(s.touches[i].meta.contentType);
      OneTouch(s, i, Rewritten);
      assert !MapLike(TouchAll(s, [(i, Rewritten)]), latest, key);
    }
  }

  /** What can be checked before a call: a Set meets only touches of its key with its own
      content type (and keeps its old metadata only if that has it too), and a Delete meets no
      touch of its key. */
  predicate Calm(s: State, ev: Event, key: string) {
    match ev
    case Set(k, _, contentType, outcome) =>
      k == key && outcome != NothingWritten ==>
        && TouchesAgree(s.touches, key, Some(contentType))
        && (outcome == DataOnly ==> key in s.meta && (s.meta[key].Whole? ==> s.meta[key].meta.contentType == contentType))
    case Delete(k) => k == key ==> NoTouchOf(s.touches, key)
    case _ => true
  }

  predicate NoTouchOf(touches: seq<Touch>, key: string) {
    forall t :: t in touches ==> t.key != key
  }

  /** An event keeps the state settled exactly if it is calm. */
  lemma CalmExactly(s: State, events: seq<Event>, n: nat, key: string)
    requires n < |events| && Enabled(s, events[n]) && Settled(s, LatestType(events, n, key), key)
    ensures Settled(Step(s, events[n], n), LatestType(events, n + 1, key), key) <==> Calm(s, events[n], key)
  {
    var ev, latest := events[n], LatestType(events, n, key);
    match ev
    case Set(k, _, contentType, outcome) =>
    case Get(k) =>
      GetKeepsSettled(s, k, latest, key, n);
    case Delete(k) =>
    case Touched(i, effect) =>
      TouchKeepsSettled(s, i, effect, latest, key);
  }

  lemma GetKeepsSettled(s: State, k: string, latest: Option<string>, key: string, n: nat)
    requires Settled(s, latest, key)
    ensures Settled(Step(s, Get(k), n), latest, key)
  {
  }

  ghost predicate AllCalm(states: seq<State>, events: seq<Event>, n: nat, key: string)
    requires n <= |events| < |states|
  {
    forall m :: 0 <= m < n ==> Calm(states[m], events[m], key)
  }

  lemma {:induction false} CalmRun(states: seq<State>, events: seq<Event>, n: nat, key: string)
    requires IsRun(states, events) && n <= |events| && AllCalm(states, events, n, key)
    ensures Settled(states[n], LatestType(events, n, key), key)
  {
    if n != 0 {
      CalmRun(states, events, n - 1, key);
      CalmExactly(states[n - 1], events, n - 1, key);
    }
  }

  /** While every event is calm the cache is a map: a key exists exactly while it has a latest
      Set, and a hit returns the bytes and the content type of that Set. */
  lemma CalmCacheIsMap(states: seq<State>, events: seq<Event>, n: nat, key: string)
    requires IsRun(states, events) && n <= |events| && AllCalm(states, events, n, key)
    ensures Exists(states[n], key) <==> LatestSet(events, n, key).Some?
    ensures Lookup(states[n], key).Some? ==>
      var ev := events[LatestSet(events, n, key).value];
      Lookup(states[n], key).value.0 == ev.data && Lookup(states[n], key).value.1.contentType == ev.contentType
  {
    HitIsLatest(states, events, n, key);
    CalmRun(states, events, n, key);
  }

  /** If moreover no event tears its metadata, a key is a hit exactly while it has a latest Set,
      and the hit is that Set's. */
  lemma CalmHitExactly(states: seq<State>, events: seq<Event>, n: nat, key: string)
    requires IsRun(states, events) && n <= |events| && AllCalm(states, events, n, key) && NoneTears(states, events, n, key)
    ensures match LatestSet(events, n, key)
            case None => Lookup(states[n], key) == None
            case Some(i) =>
              var hit := Lookup(states[n], key);
              hit.Some? && hit.value.0 == events[i].data && hit.value.1.contentType == events[i].contentType
  {
    CalmCacheIsMap(states, events, n, key);
    NeverTorn(states, events, n, key);
    DataIsLatest(states, events, n, key);
  }

  /** The exact condition: through a whole run the cache stays like a map, whatever the touches
      under way go on to do, if and only if every event is calm. */
  lemma CacheIsMapExactly(states: seq<State>, events: seq<Event>, n: nat, key: string)
    requires IsRun(states, events) && n <= |events|
    ensures AllCalm(states, events, n, key) <==>
      forall m :: 0 <= m <= n ==> StaysMapLike(states[m], LatestType(events, m, key), key)
  {
    if AllCalm(states, events, n, key) {
      forall m: nat | m <= n ensures StaysMapLike(states[m], LatestType(events, m, key), key) {
        CalmRun(states, events, m, key);
        SettledAt(states, events, m, key);
      }
    } else {
      var m :| 0 <= m < n && !Calm(states[m], events[m], key);
      NotCalm(states, events, m, key);
    }
  }

  lemma SettledAt(states: seq<State>, events: seq<Event>, n: nat, key: string)
    requires IsRun(states, events) && n <= |events|
    ensures StaysMapLike(states[n], LatestType(events, n, key), key) <==> Settled(states[n], LatestType(events, n, key), key)
  {
    DataIsLatest(states, events, n, key);
    SettledExactly(states[n], LatestType(events, n, key), key);
  }

  /** An event that is not calm finds or leaves a state some touches make unlike a map. */
  lemma NotCalm(states: seq<State>, events: seq<Event>, m: nat, key: string)
    requires IsRun(states, events) && m < |events| && !Calm(states[m], events[m], key)
    ensures !StaysMapLike(states[m], LatestType(events, m, key), key) ||
            !StaysMapLike(states[m + 1], LatestType(events, m + 1, key), key)
  {
    SettledAt(states, events, m, key);
    SettledAt(states, events, m + 1, key);
    if Settled(states[m], LatestType(events, m, key), key) {
      CalmExactly(states[m], events, m, key);
    }
  }

  /** A continuation by touches is a run, and does not change what was set last. */
  lemma {:induction false} TouchesContinue(states: seq<State>, events: seq<Event>, ts: seq<(nat, Effect)>, key: string)
    returns (states': seq<State>, events': seq<Event>)
    requires IsRun(states, events)
    ensures IsRun(states', events') && events <= events' && states'[|events'|] == TouchAll(states[|events|], ts)
    ensures LatestType(events', |events'|, key) == LatestType(events, |events|, key)
    decreases |ts|
  {
    var s := states[|events|];
    if ts == [] {
      states', events' := states, events;
    } else if ts[0].0 < |s.touches| {
      var ev := Touched(ts[0].0, ts[0].1);
      ExtendRun(states, events, ev);
      LatestStays(events, ev, |events|, key);
      states', events' := TouchesContinue(states + [Step(s, ev, |events|)], events + [ev], ts[1..], key);
    } else {
      states', events' := TouchesContinue(states, events, ts[1..], key);
    }
  }

  lemma ExtendRun(states: seq<State>, events: seq<Event>, ev: Event)
    requires IsRun(states, events) && Enabled(states[|events|], ev)
    ensures IsRun(states + [Step(states[|events|], ev, |events|)], events + [ev])
  {
  }

  lemma {:induction false} LatestStays(events: seq<Event>, ev: Event, n: nat, key: string)
    requires n <= |events|
    ensures LatestSet(events + [ev], n, key) == LatestSet(events, n, key)
    ensures n == |events| && ev.Touched? ==> LatestSet(events + [ev], n + 1, key) == LatestSet(events, n, key)
    ensures n == |events| && ev.Touched? ==> LatestType(events + [ev], n + 1, key) == LatestType(events, n, key)
  {
    if n != 0 {
      LatestStays(events, ev, n - 1, key);
    }
  }

  /** A late touch makes a deleted key exist again, though it is a miss. */
  lemma LateTouchResurrects(key: string, data: Bytes, contentType: string)
    ensures var events := [Set(key, data, contentType, Stored), Get(key), Delete(key), Touched(0, Rewritten)];
            exists states :: IsRun(states, events) && Exists(states[4], key) && Lookup(states[4], key).None? && LatestSet(events, 4, key).None?
  {
    var events := [Set(key, data, contentType, Stored), Get(key), Delete(key), Touched(0, Rewritten)];
    var s1 := Step(INIT, events[0], 0);
    var s2 := Step(s1, events[1], 1);
    var s3 := Step(s2, events[2], 2);
    var states := [INIT, s1, s2, s3, Step(s3, events[3], 3)];
    assert IsRun(states, events);
    assert LatestSet(events, 4, key) == LatestSet(events, 3, key);
  }

  /** A late touch gives the new bytes the old content type. */
  lemma LateTouchServesOldType(key: string, a: Bytes, old_: string, b: Bytes, new_: string)
    ensures var events := [Set(key, a, old_, Stored), Get(key), Set(key, b, new_, Stored), Touched(0, Rewritten)];
            exists states :: IsRun(states, events) && Lookup(states[4], key) == Some((b, Meta(old_, 0)))
  {
    var events := [Set(key, a, old_, Stored), Get(key), Set(key, b, new_, Stored), Touched(0, Rewritten)];
    var s1 := Step(INIT, events[0], 0);
    var s2 := Step(s1, events[1], 1);
    var s3 := Step(s2, events[2], 2);
    var states := [INIT, s1, s2, s3, Step(s3, events[3], 3)];
    assert IsRun(states, events);
  }

  /** A touch is over once it has done anything but truncate the file, and no other is. */
  lemma TouchEnds(s: State, i: nat, effect: Effect)
    requires i < |s.touches|
    ensures multiset(AfterTouch(s, i, effect).touches) ==
      if effect == Truncated then multiset(s.touches) else multiset(s.touches) - multiset{s.touches[i]}
  {
    assert s.touches == s.touches[..i] + [s.touches[i]] + s.touches[i + 1..];
  }

  /** A touch at work: while it has truncated the file the key is a miss, though it exists and
      has a latest Set; when it has rewritten it, a hit again, and the touch is over. */
  lemma TouchAtWork(key: string, data: Bytes, contentType: string)
    ensures var events := [Set(key, data, contentType, Stored), Get(key), Touched(0, Truncated), Touched(0, Rewritten)];
            exists states: seq<State> :: IsRun(states, events) && Exists(states[3], key) && Lookup(states[3], key) == None && LatestSet(events, 3, key) == Some(0)
                             && Lookup(states[4], key) == Some((data, Meta(contentType, 0))) && states[4].touches == []
  {
    var events := [Set(key, data, contentType, Stored), Get(key), Touched(0, Truncated), Touched(0, Rewritten)];
    var s1 := Step(INIT, events[0], 0);
    var s2 := Step(s1, events[1], 1);
    var s3 := Step(s2, events[2], 2);
    var states := [INIT, s1, s2, s3, Step(s3, events[3], 3)];
    assert IsRun(states, events);
    assert LatestSet(events, 3, key) == LatestSet(events, 2, key) == LatestSet(events, 1, key);
  }

  // ---------------------------------------------------------------- the store

  class DiskStore {
    var data: map<string, Bytes>
    var meta: map<string, MetaFile>
    var touches: seq<Touch>
    var now: nat

    function Abstract(): State
      reads this
    {
      State(data, meta, touches)
    }

    constructor ()
      ensures Abstract() == INIT && now == 0
    {
      data, meta, touches, now := map[], map[], [], 0;
    }

    method Write(key: string, content: Bytes, contentType: string, outcome: Outcome) returns (err: bool)
      modifies this
      ensures Abstract() == Step(old(Abstract()), Set(key, content, contentType, outcome), old(now)) && now == old(now) + 1
      ensures err <==> outcome == NothingWritten || outcome == DataOnly || outcome == MetaBroken
    {
      now := now + 1;
      if outcome == NothingWritten {
        return true;
      }
      data := data[key := content];
      if outcome == DataOnly {
        return true;
      }
      if outcome == MetaBroken {
        meta := meta[key := Torn];
        return true;
      }
      meta := meta[key := if outcome == MetaMangled then Torn else Whole(Meta(contentType, now - 1))];
      return false;
    }

    /** Reads the metadata before the data, and leaves a touch behind after a hit. */
    method Read(key: string) returns (r: Option<(Bytes, string)>)
      modifies this
      ensures Abstract() == Step(old(Abstract()), Get(key), old(now)) && now == old(now) + 1
      ensures r == match Lookup(old(Abstract()), key) case None => None case Some(f) => Some((f.0, f.1.contentType))
    {
      now := now + 1;
      if key !in meta || meta[key].Torn? {
        return None;
      }
      var m := meta[key].meta;
      if key !in data {
        return None;
      }
      touches := touches + [Touch(key, m)];
      return Some((data[key], m.contentType));
    }

    method Remove(key: string)
      modifies this
      ensures Abstract() == Step(old(Abstract()), Delete(key), old(now)) && now == old(now) + 1
    {
      now := now + 1;
      data := data - {key};
      meta := meta - {key};
    }

    /** One step of a goroutine started by a hit. */
    method TouchMeta(i: nat, effect: Effect)
      requires i < |touches|
      modifies this
      ensures Abstract() == Step(old(Abstract()), Touched(i, effect), old(now)) && now == old(now) + 1
    {
      now := now + 1;
      var t := touches[i];
      if effect != Truncated {
        touches := touches[..i] + touches[i + 1..];
      }
      if effect == Rewritten {
        meta := meta[t.key := Whole(t.meta)];
      } else if effect != Lost {
        meta := meta[t.key := Torn];
      }
    }
  }
}
