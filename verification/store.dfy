/** The in-memory intent store and its executor pass
    (RepLen-backend/internal/store/intent_store.go, incoming side of the
    merge, and RepLen-backend/internal/store/executor.go). Every operation
    holds the store's mutex for its whole body, so each is one atomic step
    here; the wall clock becomes the parameter `now`. */
module Store {

  import opened Wrappers
  import opened Intent

  /** A time.Duration counts nanoseconds. */
  const Second: int := 1_000_000_000

  /** The executor cadence a new store starts with: 5 * time.Second. */
  const DefaultTickInterval: int := 5 * Second

  type IntentMap = map<string, LenIntent>

  /** Go's `int(d.Seconds())` for the store's tick interval: the whole
      seconds in `d`, truncated toward zero. Go converts through float64,
      which agrees with this for every duration below 2^24 seconds. */
  function WholeSeconds(d: int): (r: int)
    ensures 0 <= d ==> 0 <= r && r * Second <= d < (r + 1) * Second
    ensures d <= 0 ==> r <= 0 && (r - 1) * Second < d <= r * Second
  {
    if d >= 0 then d / Second else -((-d) / Second)
  }

  /** Still PENDING, and its execution time is not after `now`. */
  predicate IsDue(i: LenIntent, now: int)
  {
    i.status == Pending && i.executeAt <= now
  }

  /** The keys among `keys` whose intents are due at `now`. */
  ghost function DueAmong(m: IntentMap, now: int, keys: set<string>): set<string>
  {
    set id | id in keys && id in m && IsDue(m[id], now)
  }

  /** The keys whose intents are due at `now`. */
  ghost function DueIds(m: IntentMap, now: int): set<string>
  {
    DueAmong(m, now, m.Keys)
  }

  /** The keys among `keys` whose intents have been executed. */
  ghost function ExecutedAmong(m: IntentMap, keys: set<string>): set<string>
  {
    set id | id in keys && id in m && m[id].status == Executed
  }

  /** The keys whose intents have been executed. */
  ghost function ExecutedIds(m: IntentMap): set<string>
  {
    ExecutedAmong(m, m.Keys)
  }

  lemma DueAmongGrows(m: IntentMap, now: int, keys: set<string>, id: string)
    requires id !in keys
    ensures id in m && IsDue(m[id], now) ==> DueAmong(m, now, keys + {id}) == DueAmong(m, now, keys) + {id}
    ensures !(id in m && IsDue(m[id], now)) ==> DueAmong(m, now, keys + {id}) == DueAmong(m, now, keys)
    ensures id !in DueAmong(m, now, keys)
  {
  }

  lemma ExecutedAmongGrows(m: IntentMap, keys: set<string>, id: string)
    requires id !in keys
    ensures id in m && m[id].status == Executed ==> ExecutedAmong(m, keys + {id}) == ExecutedAmong(m, keys) + {id}
    ensures !(id in m && m[id].status == Executed) ==> ExecutedAmong(m, keys + {id}) == ExecutedAmong(m, keys)
    ensures id !in ExecutedAmong(m, keys)
  {
  }

  /** The store keys every intent by its own ID. */
  predicate KeyedById(m: IntentMap)
  {
    forall id :: id in m ==> m[id].id == id
  }

  /** Every stored intent keeps the record's consistency rule. */
  predicate AllStampedIffExecuted(m: IntentMap)
  {
    forall id :: id in m ==> StampedIffExecuted(m[id])
  }

  lemma StatusCountsBounded(m: IntentMap, now: int)
    ensures |DueIds(m, now)| + |ExecutedIds(m)| <= |m|
  {
    var d, e := DueIds(m, now), ExecutedIds(m);
    assert d !! e;
    assert |d + e| == |d| + |e|;
    assert d + e <= m.Keys;
    SubsetCardinality(d + e, m.Keys);
  }

  lemma SubsetCardinality(a: set<string>, b: set<string>)
    requires a <= b
    ensures |a| <= |b|
  {
    assert b == a + (b - a);
  }

  /** What the executor does to one intent at time `now`. */
  function Execute(i: LenIntent, now: int): LenIntent
  {
    if IsDue(i, now) then i.(status := Executed, executedAt := Some(now)) else i
  }

  /** The store's map after one executor pass at `now`. */
  function ExecutePass(m: IntentMap, now: int): (r: IntentMap)
    ensures r.Keys == m.Keys
    ensures forall id :: id in m ==> SameRequest(m[id], r[id])
    ensures forall id :: id in m && !IsDue(m[id], now) ==> r[id] == m[id]
    ensures forall id :: id in m && IsDue(m[id], now) ==>
              r[id].status == Executed && r[id].executedAt == Some(now)
  {
    map id | id in m :: Execute(m[id], now)
  }

  /** The map part-way through a pass: the keys in `done` have been visited. */
  function ExecuteAmong(m: IntentMap, now: int, done: set<string>): IntentMap
  {
    map id | id in m :: if id in done then Execute(m[id], now) else m[id]
  }

  lemma ExecuteAmongGrows(m: IntentMap, now: int, done: set<string>, id: string)
    requires id in m
    ensures ExecuteAmong(m, now, done + {id}) == ExecuteAmong(m, now, done)[id := Execute(m[id], now)]
  {
  }

  lemma ExecuteAmongEnds(m: IntentMap, now: int)
    ensures ExecuteAmong(m, now, {}) == m
    ensures ExecuteAmong(m, now, m.Keys) == ExecutePass(m, now)
  {
  }

  lemma ExecutePassIdempotent(m: IntentMap, now: int)
    ensures ExecutePass(ExecutePass(m, now), now) == ExecutePass(m, now)
  {
  }

  lemma NothingDueAfterPass(m: IntentMap, now: int)
    ensures DueIds(ExecutePass(m, now), now) == {}
  {
  }

  lemma ExecutePassKeepsConsistency(m: IntentMap, now: int)
    requires KeyedById(m) && AllStampedIffExecuted(m)
    ensures KeyedById(ExecutePass(m, now)) && AllStampedIffExecuted(ExecutePass(m, now))
  {
  }

  lemma ExecutedCountAfterPass(m: IntentMap, now: int)
    ensures ExecutedIds(ExecutePass(m, now)) == ExecutedIds(m) + DueIds(m, now)
    ensures |ExecutedIds(ExecutePass(m, now))| == |ExecutedIds(m)| + |DueIds(m, now)|
  {

  }

  /** Read under the literal test of intent_store.go:130-131: PENDING, with
      the execution-time pointer compared against `now`. */
  predicate ReadyAsWritten(i: LenIntent, now: int)
  {
    i.status == Pending && i.executedAt.Some? && i.executedAt.value <= now
  }

  /** That test dereferences a nil `ExecutedAt` when it meets a PENDING
      intent that has none. */
  ghost predicate ReadyDereferencesNil(m: IntentMap)
  {
    exists id :: id in m && m[id].status == Pending && m[id].executedAt.None?
  }

  lemma FreshIntentBreaksReadyAsWritten(i: LenIntent, now: int)
    requires i.status == Pending && StampedIffExecuted(i) && i.executeAt <= now
    ensures ReadyDereferencesNil(map[i.id := i])
    ensures i.id in DueIds(map[i.id := i], now)
  {
    var m := map[i.id := i];
    assert m[i.id].status == Pending && m[i.id].executedAt.None?;
  }

  lemma ReadyAsWrittenNeverReturnsAnything(m: IntentMap, now: int)
    requires AllStampedIffExecuted(m)
    ensures forall id :: id in m ==> !ReadyAsWritten(m[id], now)
    ensures DueIds(m, now) != {} ==> ReadyDereferencesNil(m)
  {

  }

  /** The status map returned by ExecutorStatus, as a record. */
  datatype ExecutorReport = ExecutorReport(
    running: bool,
    tickIntervalSeconds: int,
    pendingIntents: nat,
    executedIntents: nat,
    lastCheckedAt: Option<int>)

  /** The outcome of the as-written ready read: a list, or a nil dereference. */
  datatype ReadyOutcome = Ready(intents: seq<LenIntent>) | NilDereference

  class IntentStore {
    var intents: IntentMap
    var executorRunning: bool
    /** None stands for Go's zero time.Time: never stamped. */
    var lastCheckedAt: Option<int>
    /** In nanoseconds, as a time.Duration. */
    var tickInterval: int

    ghost predicate Valid()
      reads this
    {
      KeyedById(intents)
    }

    constructor ()
      ensures Valid()
      ensures intents == map[] && !executorRunning
      ensures tickInterval == DefaultTickInterval && WholeSeconds(tickInterval) == 5
      ensures lastCheckedAt == None
    {
      intents := map[];
      executorRunning := false;
      tickInterval := DefaultTickInterval;
      lastCheckedAt := None;
    }

    /** Upsert: `i` is stored under its own ID, replacing any earlier intent. */
    method Add(i: LenIntent)
      requires Valid()
      modifies this`intents
      ensures Valid()
      ensures intents == old(intents)[i.id := i]
      ensures AllStampedIffExecuted(old(intents)) && StampedIffExecuted(i) ==> AllStampedIffExecuted(intents)
    {
      intents := intents[i.id := i];
    }

    /** Every stored intent, once each, in the map's (unspecified) order. */
    method GetAll() returns (r: seq<LenIntent>)
      requires Valid()
      ensures |r| == |intents|
      ensures forall k :: 0 <= k < |r| ==> r[k].id in intents && intents[r[k].id] == r[k]
      ensures forall id :: id in intents ==> intents[id] in r
      ensures forall j, k :: 0 <= j < k < |r| ==> r[j].id != r[k].id
    {
      r := [];
      var todo := intents.Keys;
      while todo != {}
        invariant todo <= intents.Keys
        invariant |r| + |todo| == |intents.Keys|
        invariant forall k :: 0 <= k < |r| ==>
                    r[k].id in intents && r[k].id !in todo && intents[r[k].id] == r[k]
        invariant forall id :: id in intents && id !in todo ==> intents[id] in r
        invariant forall j, k :: 0 <= j < k < |r| ==> r[j].id != r[k].id
        decreases |todo|
      {
        var id :| id in todo;
        r := r + [intents[id]];
        todo := todo - {id};
      }
    }

    /** The intents due at `now`, once each. Tests the due time on
        `ExecuteAt`, as ExecutorStatus and the executor do. */
    method GetReadyIntents(now: int) returns (r: seq<LenIntent>)
      requires Valid()
      ensures forall k :: 0 <= k < |r| ==>
                r[k].id in intents && intents[r[k].id] == r[k] && IsDue(r[k], now)
      ensures forall id :: id in intents && IsDue(intents[id], now) ==> intents[id] in r
      ensures forall j, k :: 0 <= j < k < |r| ==> r[j].id != r[k].id
    {
      r := [];
      var todo := intents.Keys;
      while todo != {}
        invariant todo <= intents.Keys
        invariant forall k :: 0 <= k < |r| ==>
                    r[k].id in intents && r[k].id !in todo && intents[r[k].id] == r[k] && IsDue(r[k], now)
        invariant forall id :: id in intents && id !in todo && IsDue(intents[id], now) ==> intents[id] in r
        invariant forall j, k :: 0 <= j < k < |r| ==> r[j].id != r[k].id
        decreases |todo|
      {
        var id :| id in todo;
        var i := intents[id];
        if i.status == Pending && i.executeAt <= now {
          r := r + [i];
        }
        todo := todo - {id};
      }
    }

    /** The ready read as intent_store.go:127-136 writes it: the due test
        reads the `ExecutedAt` pointer, which is nil for a PENDING intent. */
    method GetReadyIntentsAsWritten(now: int) returns (r: ReadyOutcome)
      requires Valid()
      ensures r.NilDereference? <==> ReadyDereferencesNil(intents)
      ensures r.Ready? ==> forall k :: 0 <= k < |r.intents| ==>
                r.intents[k].id in intents && intents[r.intents[k].id] == r.intents[k] &&
                ReadyAsWritten(r.intents[k], now)
      ensures r.Ready? ==> forall id :: id in intents && ReadyAsWritten(intents[id], now) ==>
                intents[id] in r.intents
      ensures r.Ready? ==> forall j, k :: 0 <= j < k < |r.intents| ==> r.intents[j].id != r.intents[k].id
    {
      var ready: seq<LenIntent> := [];
      var todo := intents.Keys;
      while todo != {}
        invariant todo <= intents.Keys
        invariant forall id :: id in intents && id !in todo ==>
                    !(intents[id].status == Pending && intents[id].executedAt.None?)
        invariant forall k :: 0 <= k < |ready| ==>
                    ready[k].id in intents && ready[k].id !in todo && intents[ready[k].id] == ready[k] && ReadyAsWritten(ready[k], now)
        invariant forall id :: id in intents && id !in todo && ReadyAsWritten(intents[id], now) ==>
                    intents[id] in ready
        invariant forall j, k :: 0 <= j < k < |ready| ==> ready[j].id != ready[k].id
        decreases |todo|
      {
        var id :| id in todo;
        var i := intents[id];
        if i.status == Pending {
          if i.executedAt.None? {
            return NilDereference;
          }
          if i.executedAt.value <= now {
            ready := ready + [i];
          }
        }
        todo := todo - {id};
      }
      r := Ready(ready);
    }

    /** The executor's status report at `now`. */
    method ExecutorStatus(now: int) returns (rep: ExecutorReport)
      ensures rep.running == executorRunning
      ensures rep.tickIntervalSeconds == WholeSeconds(tickInterval)
      ensures rep.pendingIntents == |DueIds(intents, now)|
      ensures rep.executedIntents == |ExecutedIds(intents)|
      ensures rep.pendingIntents + rep.executedIntents <= |intents|
      ensures rep.lastCheckedAt == lastCheckedAt
    {
      var pending, executed := 0, 0;
      var todo := intents.Keys;
      ghost var done: set<string> := {};
      while todo != {}
        invariant todo <= intents.Keys && done == intents.Keys - todo
        invariant pending == |DueAmong(intents, now, done)|
        invariant executed == |ExecutedAmong(intents, done)|
        decreases todo
      {
        var id :| id in todo;
        var i := intents[id];
        DueAmongGrows(intents, now, done, id);
        ExecutedAmongGrows(intents, done, id);
        if i.status == Pending && i.executeAt <= now {
          pending := pending + 1;
        }
        if i.status == Executed {
          executed := executed + 1;
        }
        todo := todo - {id};
        done := done + {id};
      }
      assert done == intents.Keys;
      StatusCountsBounded(intents, now);
      rep := ExecutorReport(executorRunning, WholeSeconds(tickInterval), pending, executed, lastCheckedAt);
    }

    /** One executor pass at `now`, the unexported `executeReadyIntents` of
        executor.go (not the HEAD-side `ExecuteReadyIntents` of the merge
        conflict): every due intent becomes EXECUTED, stamped with `now`;
        `lastCheckedAt` moves only if one did. */
    method ExecuteReadyIntents(now: int)
      requires Valid()
      modifies this`intents, this`lastCheckedAt
      ensures Valid()
      ensures intents == ExecutePass(old(intents), now)
      ensures lastCheckedAt == if DueIds(old(intents), now) == {} then old(lastCheckedAt) else Some(now)
      ensures executorRunning == old(executorRunning) && tickInterval == old(tickInterval)
    {
      ghost var m0 := intents;
      ghost var done: set<string> := {};
      ExecuteAmongEnds(m0, now);
      var todo := intents.Keys;
      while todo != {}
        invariant todo <= m0.Keys && done == m0.Keys - todo
        invariant intents == ExecuteAmong(m0, now, done)
        invariant lastCheckedAt == if DueAmong(m0, now, done) == {} then old(lastCheckedAt) else Some(now)
        decreases todo
      {
        var id :| id in todo;
        DueAmongGrows(m0, now, done, id);
        ExecuteAmongGrows(m0, now, done, id);
        var intent := intents[id];
        assert intent == m0[id];
        if intent.status != Pending {
          assert intents == intents[id := Execute(intent, now)];
          todo, done := todo - {id}, done + {id};
          continue;
        }
        if intent.executeAt <= now {
          intent := intent.(status := Executed);
          lastCheckedAt := Some(now);
          intent := intent.(executedAt := Some(now));
          assert intent == Execute(m0[id], now);
          intents := intents[id := intent];
        } else {
          assert intents == intents[id := Execute(intent, now)];
        }
        todo, done := todo - {id}, done + {id};
      }
    }
  }

}
