/**
 * Idempotent delivery to sinks (sohara-runtime/src/walker.rs,
 * sohara-runtime/src/persist.rs): a marker in the state store suppresses a
 * record whose key was delivered before under the same run id.
 */
module Delivery {
  import opened Json
  import opened Payload

  /** A marker: run id and the record's idempotency key. The sink is not part of it. */
  datatype Key = Key(run: string, id: string)

  /** The key of a record: its metadata, or a hash of its payload. */
  function KeyOf(run: string, record: Record, hash: Value -> string): Key {
    Key(run, if "idempotency_key" in record.metadata then record.metadata["idempotency_key"] else hash(record.payload))
  }

  /** What happens between a successful send and its marker. */
  datatype Ending = Marked | MarkFailed | Crashed

  /** One record reaching a sink, with what the store and the sink answered. */
  datatype Attempt = Attempt(key: Key, record: Record, loads: bool, sends: bool, ending: Ending)

  /** The attempt is one to deliver this record in this run. */
  ghost predicate Offers(a: Attempt, run: string, record: Record, hash: Value -> string) {
    a.record == record && a.key == KeyOf(run, record, hash)
  }

  /** Every attempt has the key of its record. */
  ghost predicate Keyed(log: seq<Attempt>, hash: Value -> string) {
    forall i :: 0 <= i < |log| ==> Offers(log[i], log[i].key.run, log[i].record, hash)
  }

  /** The markers in the store, and the keys of all successful sends. */
  datatype Deliveries = Deliveries(marked: set<Key>, sent: seq<Key>)

  predicate Suppressed(s: Deliveries, a: Attempt) { a.loads && a.key in s.marked }

  predicate Sent(s: Deliveries, a: Attempt) { !Suppressed(s, a) && a.sends }

  function Step(s: Deliveries, a: Attempt): Deliveries {
    if !Sent(s, a) then s
    else Deliveries(if a.ending == Marked then s.marked + {a.key} else s.marked, s.sent + [a.key])
  }

  const START := Deliveries({}, [])

  function Run(log: seq<Attempt>): Deliveries {
    if log == [] then START else Step(Run(log[..|log| - 1]), log[|log| - 1])
  }

  function Count(keys: seq<Key>, key: Key): nat { multiset(keys)[key] }

  /** A send that leaves no marker, or that an existing marker should have suppressed. */
  predicate Slips(s: Deliveries, a: Attempt, key: Key) {
    a.key == key && Sent(s, a) && (a.ending != Marked || key in s.marked)
  }

  function SlipCount(log: seq<Attempt>, key: Key): nat {
    if log == [] then 0
    else
      var k := |log| - 1;
      SlipCount(log[..k], key) + if Slips(Run(log[..k]), log[k], key) then 1 else 0
  }

  /**
   * Over every sequence of runs, crashes and resumes, the sends of a key are
   * exactly those that slipped, by a crash or a failed mark or past a marker
   * that could not be loaded, and one more if the key is marked.
   */
  lemma {:induction false} SentExactly(log: seq<Attempt>, key: Key)
    ensures Count(Run(log).sent, key) == SlipCount(log, key) + if key in Run(log).marked then 1 else 0
  {
    if log != [] { SentExactly(log[..|log| - 1], key); }
  }

  /** A send slips past a marker exactly when the marker could not be loaded. */
  lemma SlipsPastMarker(s: Deliveries, a: Attempt, key: Key)
    requires a.key == key && key in s.marked && a.sends
    ensures Slips(s, a, key) <==> !a.loads
  {
  }

  /** So a key is sent at most once if no send of it slips, and a record can be sent twice if one does. */
  lemma SentTwice(key: Key, record: Record, ending: Ending, loads: bool)
    requires ending != Marked || !loads
    ensures var log := [Attempt(key, record, true, true, ending), Attempt(key, record, loads, true, Marked)];
            Run(log).sent == [key, key] && SlipCount(log, key) == 1
  {
    var first, second := Attempt(key, record, true, true, ending), Attempt(key, record, loads, true, Marked);
    assert [first, second][..1] == [first] && [first][..0] == [];
    assert Run([first]) == Deliveries(if ending == Marked then {key} else {}, [] + [key]);
    assert SlipCount([first], key) == if ending != Marked then 1 else 0;
    SentExactly([first, second], key);
    assert [key] + [key] == [key, key];
  }

  /** The k-th attempt is one of this key, and its send did not fail. */
  ghost predicate Unfailed(log: seq<Attempt>, k: nat, key: Key) {
    k < |log| && log[k].key == key && (log[k].sends || Suppressed(Run(log[..k]), log[k]))
  }

  /** A record that reaches a sink without a send error has its key sent at least once. */
  lemma SentAtLeastOnce(log: seq<Attempt>, k: nat, key: Key)
    requires Unfailed(log, k, key)
    ensures Count(Run(log).sent, key) >= 1
  {
    MarkedWasSent(log[..k], key);
    assert log[..k + 1][..k] == log[..k];
    SentGrows(log, k + 1, key);
  }

  lemma {:induction false} MarkedWasSent(log: seq<Attempt>, key: Key)
    ensures key in Run(log).marked ==> Count(Run(log).sent, key) >= 1
  {
    if log != [] { MarkedWasSent(log[..|log| - 1], key); }
  }

  lemma {:induction false} SentGrows(log: seq<Attempt>, k: nat, key: Key)
    requires k <= |log|
    ensures Count(Run(log[..k]).sent, key) <= Count(Run(log).sent, key)
    decreases |log| - k
  {
    if k == |log| {
      assert log[..k] == log;
    } else {
      assert log[..k + 1][..k] == log[..k];
      SentGrows(log, k + 1, key);
    }
  }

  // ---------- which records share a key ----------

  /**
   * Two records share a key exactly if they are delivered under one run id and
   * have the same explicit idempotency key, or the same payload hash where
   * neither has one; and where only one has one, if it spells the other's hash.
   */
  lemma SameKeyIff(run: string, a: Record, other: string, b: Record, hash: Value -> string)
    ensures run != other ==> KeyOf(run, a, hash) != KeyOf(other, b, hash)
    ensures "idempotency_key" in a.metadata && "idempotency_key" in b.metadata ==>
              (KeyOf(run, a, hash) == KeyOf(other, b, hash) <==>
                 run == other && a.metadata["idempotency_key"] == b.metadata["idempotency_key"])
    ensures "idempotency_key" !in a.metadata && "idempotency_key" !in b.metadata ==>
              (KeyOf(run, a, hash) == KeyOf(other, b, hash) <==> run == other && hash(a.payload) == hash(b.payload))
    ensures "idempotency_key" in a.metadata && "idempotency_key" !in b.metadata ==>
              (KeyOf(run, a, hash) == KeyOf(other, b, hash) <==>
                 run == other && a.metadata["idempotency_key"] == hash(b.payload))
  {
  }

  /** The identity a record is delivered under: same explicit key, or same hash. */
  predicate SameIdentity(a: Record, b: Record, hash: Value -> string) {
    if "idempotency_key" in a.metadata then
      if "idempotency_key" in b.metadata then a.metadata["idempotency_key"] == b.metadata["idempotency_key"]
      else a.metadata["idempotency_key"] == hash(b.payload)
    else if "idempotency_key" in b.metadata then hash(a.payload) == b.metadata["idempotency_key"]
    else hash(a.payload) == hash(b.payload)
  }

  /** The k-th attempt sent a record of the same identity in the same run, and left a marker. */
  ghost predicate LeftMarker(log: seq<Attempt>, k: nat, run: string, record: Record, hash: Value -> string) {
    && k < |log| && log[k].sends && log[k].ending == Marked
    && log[k].key.run == run && SameIdentity(log[k].record, record, hash)
  }

  /** A marker was left by a send. */
  lemma {:induction false} MarkerWasLeft(log: seq<Attempt>, key: Key) returns (k: nat)
    requires key in Run(log).marked
    ensures k < |log| && log[k].key == key && log[k].sends && log[k].ending == Marked
  {
    var n := |log| - 1;
    if key in Run(log[..n]).marked {
      k := MarkerWasLeft(log[..n], key);
    } else {
      k := n;
    }
  }

  /**
   * A record is suppressed only because one of the same identity was sent and
   * marked before under the same run id.
   */
  lemma SuppressedByTwin(log: seq<Attempt>, run: string, record: Record, hash: Value -> string)
    requires Keyed(log, hash) && KeyOf(run, record, hash) in Run(log).marked
    ensures exists k: nat :: LeftMarker(log, k, run, record, hash)
  {
    var k := MarkerWasLeft(log, KeyOf(run, record, hash));
    SameKeyIff(log[k].key.run, log[k].record, run, record, hash);
    SameKeyIff(run, record, log[k].key.run, log[k].record, hash);
    assert LeftMarker(log, k, run, record, hash);
  }

  lemma SuppressedHasTwin(log: seq<Attempt>, hash: Value -> string, i: nat)
    requires Keyed(log, hash) && i < |log| && Suppressed(Run(log[..i]), log[i])
    ensures exists k: nat :: k < i && LeftMarker(log, k, log[i].key.run, log[i].record, hash)
  {
    assert Offers(log[i], log[i].key.run, log[i].record, hash);
    assert Keyed(log[..i], hash) by {
      forall j | 0 <= j < i ensures Offers(log[..i][j], log[..i][j].key.run, log[..i][j].record, hash) {
        assert Offers(log[j], log[j].key.run, log[j].record, hash);
      }
    }
    SuppressedByTwin(log[..i], log[i].key.run, log[i].record, hash);
    var k: nat :| LeftMarker(log[..i], k, log[i].key.run, log[i].record, hash);
    assert LeftMarker(log, k, log[i].key.run, log[i].record, hash);
  }

  // ---------- run ids ----------

  /** The run id a start uses and leaves in the store: the saved one on resume, else a new one. */
  function ResolveRunId(saved: Option<string>, resume: bool, loads: bool, saves: bool, newId: string)
    : (string, Option<string>)
  {
    if resume && loads && saved.Some? then (saved.value, saved)
    else (newId, if saves then Some(newId) else saved)
  }

  datatype Start = Start(resume: bool, loads: bool, saves: bool, newId: string)

  /** Resumed starts whose loads succeed keep the run id of the start before them. */
  lemma {:induction false} ResumesKeepRunId(first: Start, resumes: seq<Start>, saved: Option<string>)
    requires first.saves && forall i :: 0 <= i < |resumes| ==> resumes[i].resume && resumes[i].loads
    ensures var (id, kept) := ResolveRunId(saved, first.resume, first.loads, first.saves, first.newId);
            forall i :: 0 <= i < |resumes| ==> RunIdAt(kept, resumes, i) == id
  {
    var (id, kept) := ResolveRunId(saved, first.resume, first.loads, first.saves, first.newId);
    forall i | 0 <= i < |resumes| ensures RunIdAt(kept, resumes, i) == id { ResumeKeepsRunId(kept, resumes, i); }
  }

  function SavedAfter(saved: Option<string>, starts: seq<Start>, n: nat): Option<string>
    requires n <= |starts|
  {
    if n == 0 then saved
    else
      var s := starts[n - 1];
      ResolveRunId(SavedAfter(saved, starts, n - 1), s.resume, s.loads, s.saves, s.newId).1
  }

  function RunIdAt(saved: Option<string>, starts: seq<Start>, i: nat): string
    requires i < |starts|
  {
    ResolveRunId(SavedAfter(saved, starts, i), starts[i].resume, starts[i].loads, starts[i].saves, starts[i].newId).0
  }

  lemma {:induction false} ResumeKeepsRunId(saved: Option<string>, starts: seq<Start>, n: nat)
    requires saved.Some? && n <= |starts| && forall i :: 0 <= i < |starts| ==> starts[i].resume && starts[i].loads
    ensures SavedAfter(saved, starts, n) == saved
    ensures n < |starts| ==> RunIdAt(saved, starts, n) == saved.value
  {
    if n > 0 { ResumeKeepsRunId(saved, starts, n - 1); }
  }
}
