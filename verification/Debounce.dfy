/** The debounce buffer of desktop notifications. Times are milliseconds of a monotonic clock. */
module Debounce {
  import opened Common

  datatype Kind = Complete | Gate | Failure

  datatype Key = Key(featureId: string, kind: Kind)

  datatype Entry = Entry(key: Key, at: nat)

  const WINDOW: nat := 500

  /** Elapsed time, which saturates at zero. */
  function Since(now: nat, at: nat): nat {
    if now >= at then now - at else 0
  }

  function Sweep(entries: seq<Entry>, now: nat): (r: seq<Entry>)
    ensures forall e :: e in r <==> e in entries && Since(now, e.at) < WINDOW
  {
    if entries == [] then []
    else (if Since(now, entries[0].at) < WINDOW then [entries[0]] else []) + Sweep(entries[1..], now)
  }

  predicate Hit(entries: seq<Entry>, key: Key, now: nat) {
    exists i :: 0 <= i < |entries| && entries[i].key == key && Since(now, entries[i].at) < WINDOW
  }

  function AfterCall(entries: seq<Entry>, key: Key, now: nat): seq<Entry> {
    var kept := Sweep(entries, now);
    if Hit(kept, key, now) then kept else kept + [Entry(key, now)]
  }

  /** What became of a notification. */
  datatype Outcome = Disabled | Debounced | Shown | FellBack

  class NotificationState {
    var entries: seq<Entry>

    constructor ()
      ensures entries == []
    {
      entries := [];
    }

    /** Sweep, look for the key, and record the call when it is not there. */
    method ObserveAndDebounce(key: Key, now: nat) returns (suppressed: bool)
      modifies this
      ensures suppressed == Hit(Sweep(old(entries), now), key, now)
      ensures entries == AfterCall(old(entries), key, now)
    {
      entries := Sweep(entries, now);
      for i := 0 to |entries|
        invariant entries == Sweep(old(entries), now)
        invariant forall j :: 0 <= j < i ==> !(entries[j].key == key && Since(now, entries[j].at) < WINDOW)
      {
        if entries[i].key == key && Since(now, entries[i].at) < WINDOW {
          return true;
        }
      }
      entries := entries + [Entry(key, now)];
      suppressed := false;
    }

    /** A kind that is switched off leaves no trace; one that fails to show still counts as seen. */
    method NotifyWithFallback(enabled: bool, key: Key, now: nat, shows: bool) returns (outcome: Outcome)
      modifies this
      ensures !enabled ==> outcome == Disabled && entries == old(entries)
      ensures enabled ==> entries == AfterCall(old(entries), key, now)
      ensures enabled ==> outcome == if Hit(Sweep(old(entries), now), key, now) then Debounced
                                     else if shows then Shown else FellBack
    {
      if !enabled {
        return Disabled;
      }
      var suppressed := ObserveAndDebounce(key, now);
      if suppressed {
        return Debounced;
      }
      outcome := if shows then Shown else FellBack;
    }
  }

  /* ---- Runs of calls, and the plain map they refine ---- */

  datatype Call = Call(key: Key, now: nat)

  predicate InOrder(calls: seq<Call>) {
    forall i, j :: 0 <= i < j < |calls| ==> calls[i].now <= calls[j].now
  }

  /** For each call of a run, whether the buffer lets it through. */
  function Admitted(entries: seq<Entry>, calls: seq<Call>): (r: seq<bool>)
    ensures |r| == |calls|
    decreases |calls|
  {
    if calls == [] then []
    else [!Hit(Sweep(entries, calls[0].now), calls[0].key, calls[0].now)]
         + Admitted(AfterCall(entries, calls[0].key, calls[0].now), calls[1..])
  }

  predicate Recent(last: map<Key, nat>, key: Key, now: nat) {
    key in last && Since(now, last[key]) < WINDOW
  }

  /** The same decided by the last time that a call of the key was let through. */
  function AdmittedByMap(last: map<Key, nat>, calls: seq<Call>): (r: seq<bool>)
    ensures |r| == |calls|
    decreases |calls|
  {
    if calls == [] then []
    else if Recent(last, calls[0].key, calls[0].now) then [false] + AdmittedByMap(last, calls[1..])
    else [true] + AdmittedByMap(last[calls[0].key := calls[0].now], calls[1..])
  }

  predicate OnePerKey(entries: seq<Entry>) {
    forall i, j :: 0 <= i < j < |entries| ==> entries[i].key != entries[j].key
  }

  /** The buffer holds the last admitted times that are still recent at `now`, and nothing that is not one. */
  ghost predicate Refines(entries: seq<Entry>, last: map<Key, nat>, now: nat) {
    && OnePerKey(entries)
    && (forall e :: e in entries ==> e.key in last && last[e.key] == e.at)
    && (forall k :: Recent(last, k, now) ==> Entry(k, last[k]) in entries)
    && (forall k :: k in last ==> last[k] <= now)
  }

  lemma {:induction false} SweepOnePerKey(entries: seq<Entry>, now: nat)
    requires OnePerKey(entries)
    ensures OnePerKey(Sweep(entries, now))
  {
    if entries != [] {
      SweepOnePerKey(entries[1..], now);
      var rest := Sweep(entries[1..], now);
      forall j | 0 <= j < |rest| ensures rest[j].key != entries[0].key {
        assert rest[j] in entries[1..];
      }
    }
  }

  /** One call: buffer and map agree whether it is let through, and go on agreeing. */
  lemma {:induction false} CallRefines(entries: seq<Entry>, last: map<Key, nat>, since: nat, key: Key, now: nat)
    requires Refines(entries, last, since) && since <= now
    ensures Hit(Sweep(entries, now), key, now) <==> Recent(last, key, now)
    ensures Refines(AfterCall(entries, key, now), if Recent(last, key, now) then last else last[key := now], now)
  {
    var kept := Sweep(entries, now);
    SweepOnePerKey(entries, now);
    forall k | Recent(last, k, now) ensures Entry(k, last[k]) in kept {
      assert Recent(last, k, since);
    }
    if Recent(last, key, now) {
      var i :| 0 <= i < |kept| && kept[i] == Entry(key, last[key]);
      assert Hit(kept, key, now);
    } else {
      forall j | 0 <= j < |kept| ensures kept[j].key != key {
        assert kept[j] in kept;
      }
    }
  }

  /** Over any calls in the order of time the swept buffer decides as the plain map does. */
  lemma {:induction false} BufferRefinesMap(entries: seq<Entry>, last: map<Key, nat>, since: nat, calls: seq<Call>)
    requires Refines(entries, last, since) && InOrder(calls) && (calls != [] ==> since <= calls[0].now)
    ensures Admitted(entries, calls) == AdmittedByMap(last, calls)
    decreases |calls|
  {
    if calls != [] {
      var c := calls[0];
      CallRefines(entries, last, since, c.key, c.now);
      BufferRefinesMap(AfterCall(entries, c.key, c.now), if Recent(last, c.key, c.now) then last else last[c.key := c.now],
                       c.now, calls[1..]);
    }
  }

  function Contents(entries: seq<Entry>, calls: seq<Call>): seq<Entry>
    decreases |calls|
  {
    if calls == [] then entries else Contents(AfterCall(entries, calls[0].key, calls[0].now), calls[1..])
  }

  /** The buffer never holds two entries of one key. */
  lemma {:induction false} BufferStaysSmall(entries: seq<Entry>, last: map<Key, nat>, since: nat, calls: seq<Call>)
    requires Refines(entries, last, since) && InOrder(calls) && (calls != [] ==> since <= calls[0].now)
    ensures OnePerKey(Contents(entries, calls))
    decreases |calls|
  {
    if calls != [] {
      var c := calls[0];
      CallRefines(entries, last, since, c.key, c.now);
      BufferStaysSmall(AfterCall(entries, c.key, c.now), if Recent(last, c.key, c.now) then last else last[c.key := c.now],
                       c.now, calls[1..]);
    }
  }

  /** The last admitted times after the first n calls. */
  function LastAdmitted(last: map<Key, nat>, calls: seq<Call>, n: nat): map<Key, nat>
    requires n <= |calls|
  {
    if n == 0 then last
    else
      var before := LastAdmitted(last, calls, n - 1);
      if Recent(before, calls[n - 1].key, calls[n - 1].now) then before
      else before[calls[n - 1].key := calls[n - 1].now]
  }

  lemma {:induction false} AdmittedAt(last: map<Key, nat>, calls: seq<Call>, n: nat)
    requires n < |calls|
    ensures AdmittedByMap(last, calls)[n] <==> !Recent(LastAdmitted(last, calls, n), calls[n].key, calls[n].now)
    decreases |calls|
  {
    if n > 0 {
      var next := if Recent(last, calls[0].key, calls[0].now) then last else last[calls[0].key := calls[0].now];
      AdmittedAt(next, calls[1..], n - 1);
      LastAdmittedShift(last, calls, n);
    }
  }

  lemma {:induction false} LastAdmittedShift(last: map<Key, nat>, calls: seq<Call>, n: nat)
    requires 0 < n <= |calls|
    ensures var next := if Recent(last, calls[0].key, calls[0].now) then last else last[calls[0].key := calls[0].now];
            LastAdmitted(last, calls, n) == LastAdmitted(next, calls[1..], n - 1)
  {
    if n > 1 {
      LastAdmittedShift(last, calls, n - 1);
    }
  }

  /** What the map remembers of a key: the time of its last admitted call among the first n. */
  lemma {:induction false} LastIsLatest(calls: seq<Call>, n: nat, key: Key)
    requires n <= |calls| && InOrder(calls)
    ensures var last := LastAdmitted(map[], calls, n);
            && (key in last ==> exists i :: 0 <= i < n && calls[i].key == key && AdmittedByMap(map[], calls)[i]
                                            && calls[i].now == last[key])
            && forall i :: 0 <= i < n && calls[i].key == key && AdmittedByMap(map[], calls)[i]
                 ==> key in last && calls[i].now <= last[key]
  {
    if n > 0 {
      LastIsLatest(calls, n - 1, key);
      AdmittedAt(map[], calls, n - 1);
    }
  }

  /** A call is let through exactly when no call of its key was let through less than half a second before;
      so admitted calls of one key are at least that far apart. */
  lemma {:induction false} AdmittedExactly(calls: seq<Call>, n: nat)
    requires n < |calls| && InOrder(calls)
    ensures Admitted([], calls)[n]
            <==> !exists i :: 0 <= i < n && calls[i].key == calls[n].key && Admitted([], calls)[i]
                              && calls[n].now - calls[i].now < 500
  {
    BufferRefinesMap([], map[], 0, calls);
    LastIsLatest(calls, n, calls[n].key);
    AdmittedAt(map[], calls, n);
  }
}
