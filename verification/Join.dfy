/** Join nodes: correlation groups and merging (sohara-runtime/src/control.rs, sohara-runtime/src/buffers.rs). */
module Join {
  import opened Json
  import opened Payload
  import opened Flow
  import opened Numbers

  datatype Arrival = Arrival(correlation: string, record: Record)

  datatype Group = Group(correlation: string, records: seq<Record>)

  /** The open groups of a join node, and everything it has released. */
  datatype JoinState = JoinState(groups: map<string, seq<Record>>, released: seq<Group>)

  /** How many arrivals of a correlation make a group. */
  function Threshold(mode: JoinMode, n: nat, expected: nat): (t: nat)
    ensures t >= 1
  {
    match mode
    case Any => 1
    case All => if expected == 0 then 1 else expected
    case N => if n == 0 then 1 else n
  }

  function OpenGroup(groups: map<string, seq<Record>>, c: string): seq<Record> {
    if c in groups then groups[c] else []
  }

  function Arrive(s: JoinState, t: nat, a: Arrival): JoinState {
    var group := OpenGroup(s.groups, a.correlation) + [a.record];
    if |group| >= t then JoinState(s.groups[a.correlation := []], s.released + [Group(a.correlation, group)])
    else JoinState(s.groups[a.correlation := group], s.released)
  }

  function JoinRun(t: nat, log: seq<Arrival>): JoinState {
    if log == [] then JoinState(map[], []) else Arrive(JoinRun(t, log[..|log| - 1]), t, log[|log| - 1])
  }

  // ---------- groups ----------

  /** The arrivals of one correlation, in order. */
  function Of(log: seq<Arrival>, c: string): seq<Record> {
    if log == [] then []
    else
      var k := |log| - 1;
      Of(log[..k], c) + if log[k].correlation == c then [log[k].record] else []
  }

  function GroupsOf(released: seq<Group>, c: string): seq<seq<Record>> {
    if released == [] then []
    else
      var k := |released| - 1;
      GroupsOf(released[..k], c) + if released[k].correlation == c then [released[k].records] else []
  }

  function Flatten<T>(groups: seq<seq<T>>): seq<T> {
    if groups == [] then [] else Flatten(groups[..|groups| - 1]) + groups[|groups| - 1]
  }

  lemma FlattenSnoc<T>(groups: seq<seq<T>>, last: seq<T>)
    ensures Flatten(groups + [last]) == Flatten(groups) + last
  {
    assert (groups + [last])[..|groups|] == groups;
  }

  /** `arrivals` cut into consecutive groups of `t` with fewer than `t` left over. */
  ghost predicate Chunked(arrivals: seq<Record>, groups: seq<seq<Record>>, open: seq<Record>, t: nat) {
    && Flatten(groups) + open == arrivals
    && (forall i :: 0 <= i < |groups| ==> |groups[i]| == t)
    && |open| < t
  }

  lemma ChunkedStep(arrivals: seq<Record>, groups: seq<seq<Record>>, open: seq<Record>, t: nat, r: Record)
    requires Chunked(arrivals, groups, open, t)
    ensures if |open| + 1 >= t then Chunked(arrivals + [r], groups + [open + [r]], [], t)
            else Chunked(arrivals + [r], groups, open + [r], t)
  {
    FlattenSnoc(groups, open + [r]);
    assert Flatten(groups) + (open + [r]) == arrivals + [r];
  }

  /** For every correlation the arrivals are released in order, `t` at a time. */
  lemma {:induction false} JoinChunks(t: nat, log: seq<Arrival>, c: string)
    requires t >= 1
    ensures var s := JoinRun(t, log);
            Chunked(Of(log, c), GroupsOf(s.released, c), OpenGroup(s.groups, c), t)
  {
    if log != [] {
      var k := |log| - 1;
      JoinChunks(t, log[..k], c);
      var s, a := JoinRun(t, log[..k]), log[k];
      ChunkedStep(Of(log[..k], c), GroupsOf(s.released, c), OpenGroup(s.groups, c), t, a.record);
      var s' := Arrive(s, t, a);
      if s'.released != s.released {
        assert s'.released[..|s'.released| - 1] == s.released;
      }
      assert Of(log[..k], c) + [] == Of(log[..k], c) && GroupsOf(s.released, c) + [] == GroupsOf(s.released, c);
    }
  }

  lemma {:induction false} FlattenLength(groups: seq<seq<Record>>, t: nat)
    requires forall i :: 0 <= i < |groups| ==> |groups[i]| == t
    ensures |Flatten(groups)| == |groups| * t
  {
    if groups != [] {
      var k := |groups| - 1;
      FlattenLength(groups[..k], t);
      assert |groups| * t == k * t + t;
    }
  }

  /** k arrivals of a correlation release exactly k / t groups and leave k % t waiting. */
  lemma JoinCounts(t: nat, log: seq<Arrival>, c: string)
    requires t >= 1
    ensures var s := JoinRun(t, log);
            && |GroupsOf(s.released, c)| == |Of(log, c)| / t
            && |OpenGroup(s.groups, c)| == |Of(log, c)| % t
  {
    var s := JoinRun(t, log);
    JoinChunks(t, log, c);
    FlattenLength(GroupsOf(s.released, c), t);
    DivideExactly(|Of(log, c)|, |GroupsOf(s.released, c)|, t, |OpenGroup(s.groups, c)|);
  }

  /**
   * The b arrivals of a correlation at a join of incoming count b make exactly
   * one group, of those records in order of arrival, whatever else arrives in
   * between.
   */
  lemma ParallelJoinsOnce(n: nat, b: nat, log: seq<Arrival>, c: string)
    requires b >= 1 && |Of(log, c)| == b
    ensures var s := JoinRun(Threshold(All, n, b), log);
            GroupsOf(s.released, c) == [Of(log, c)] && OpenGroup(s.groups, c) == []
  {
    var s := JoinRun(b, log);
    JoinChunks(b, log, c);
    JoinCounts(b, log, c);
    DivideExactly(b, 1, b, 0);
    var groups := GroupsOf(s.released, c);
    assert groups[..0] == [] && groups == [groups[0]];
    assert Flatten(groups) == Flatten(groups[..0]) + groups[0] == groups[0];
    assert Flatten(groups) + [] == Flatten(groups);
  }

  /** A join that waits for any record sends each on alone. */
  lemma {:induction false} AnyReleasesEach(n: nat, expected: nat, log: seq<Arrival>)
    ensures var released := JoinRun(Threshold(Any, n, expected), log).released;
            && |released| == |log|
            && forall i :: 0 <= i < |log| ==> released[i] == Group(log[i].correlation, [log[i].record])
  {
    if log != [] {
      AnyReleasesEach(n, expected, log[..|log| - 1]);
      AnyLeavesNone(n, expected, log[..|log| - 1], log[|log| - 1].correlation);
    }
  }

  lemma AnyLeavesNone(n: nat, expected: nat, log: seq<Arrival>, c: string)
    ensures OpenGroup(JoinRun(Threshold(Any, n, expected), log).groups, c) == []
  {
    JoinChunks(1, log, c);
  }

  /** One that waits for n, or for all its incoming routes, sends on a group for every so many records. */
  lemma ModesRelease(n: nat, expected: nat, log: seq<Arrival>, c: string)
    ensures n >= 1 ==> |GroupsOf(JoinRun(Threshold(N, n, expected), log).released, c)| == |Of(log, c)| / n
    ensures expected >= 1 ==>
              |GroupsOf(JoinRun(Threshold(All, n, expected), log).released, c)| == |Of(log, c)| / expected
  {
    if n >= 1 { JoinCounts(n, log, c); }
    if expected >= 1 { JoinCounts(expected, log, c); }
  }

  function Copies<T>(x: T, n: nat): (r: seq<T>)
    ensures |r| == n
  {
    seq(n, i => x)
  }

  /** What is waiting, filled up with copies of one record. */
  function Filled(open: seq<Record>, r: Record, t: nat): seq<Record> {
    open + Copies(r, if |open| < t then t - |open| else 0)
  }

  lemma OneMoreCopy<T>(x: T, n: nat)
    ensures Copies(x, n + 1) == Copies(x, n) + [x]
  {
  }

  lemma JoinRunCopies(t: nat, log: seq<Arrival>, a: Arrival, n: nat)
    ensures JoinRun(t, log + Copies(a, n + 1)) == Arrive(JoinRun(t, log + Copies(a, n)), t, a)
  {
    OneMoreCopy(a, n);
    var longer := log + Copies(a, n + 1);
    assert longer[..|longer| - 1] == log + Copies(a, n);
  }

  /** The state after `n` copies, fewer than would fill a second group. */
  ghost predicate Filling(s: JoinState, s': JoinState, t: nat, c: string, r: Record, n: nat) {
    var open := OpenGroup(s.groups, c);
    if |open| + n < t then s'.released == s.released && OpenGroup(s'.groups, c) == open + Copies(r, n)
    else
      && s'.released == s.released + [Group(c, Filled(open, r, t))]
      && |OpenGroup(s'.groups, c)| == |open| + n - t
  }

  lemma FillingStep(s: JoinState, s': JoinState, t: nat, c: string, r: Record, n: nat)
    requires Filling(s, s', t, c, r, n) && |OpenGroup(s.groups, c)| < t && |OpenGroup(s.groups, c)| + n + 1 < 2 * t
    ensures Filling(s, Arrive(s', t, Arrival(c, r)), t, c, r, n + 1)
  {
    OneMoreCopy(r, n);
    var open := OpenGroup(s.groups, c);
    assert open + Copies(r, n) + [r] == open + Copies(r, n + 1);
  }

  lemma {:induction false} CopiesFill(t: nat, log: seq<Arrival>, c: string, r: Record, n: nat)
    requires var open := OpenGroup(JoinRun(t, log).groups, c);
             |open| < t && |open| + n < 2 * t
    ensures Filling(JoinRun(t, log), JoinRun(t, log + Copies(Arrival(c, r), n)), t, c, r, n)
    decreases n
  {
    if n == 0 {
      assert log + Copies(Arrival(c, r), n) == log;
    } else {
      CopiesFill(t, log, c, r, n - 1);
      JoinRunCopies(t, log, Arrival(c, r), n - 1);
      FillingStep(JoinRun(t, log), JoinRun(t, log + Copies(Arrival(c, r), n - 1)), t, c, r, n - 1);
    }
  }

  /** As many copies of one arrival as the threshold complete exactly one group. */
  lemma CopiesJoinOnce(t: nat, log: seq<Arrival>, c: string, r: Record)
    requires t >= 1
    ensures var s := JoinRun(t, log);
            JoinRun(t, log + Copies(Arrival(c, r), t)).released
              == s.released + [Group(c, Filled(OpenGroup(s.groups, c), r, t))]
  {
    JoinChunks(t, log, c);
    CopiesFill(t, log, c, r, t);
  }

  // ---------- merging ----------

  /** Fields of a later object overwrite; anything that is not an object is ignored. */
  function MergeOne(target: Record, other: Record): Record {
    if target.payload.Obj? && other.payload.Obj?
    then target.(payload := Obj(target.payload.fields + other.payload.fields))
    else target
  }

  function Merge(records: seq<Record>): Record {
    if records == [] then Record(Obj(map[]), map[])
    else if |records| == 1 then records[0]
    else MergeOne(Merge(records[..|records| - 1]), records[|records| - 1])
  }

  method MergeRecords(records: seq<Record>) returns (merged: Record)
    ensures merged == Merge(records)
  {
    if records == [] { return Record(Obj(map[]), map[]); }
    merged := records[0];
    assert records[..1] == [records[0]];
    for i := 1 to |records|
      invariant merged == Merge(records[..i])
    {
      assert records[..i + 1][..i] == records[..i];
      if merged.payload.Obj? && records[i].payload.Obj? {
        var fields := InsertAll(merged.payload.fields, records[i].payload.fields);
        merged := merged.(payload := Obj(fields));
      }
    }
    assert records[..|records|] == records;
  }

  /** Insert every entry of `source`, in some order. */
  method InsertAll(target0: map<string, Value>, source: map<string, Value>) returns (target: map<string, Value>)
    ensures target == target0 + source
  {
    target := target0;
    var todo := source.Keys;
    while todo != {}
      invariant todo <= source.Keys
      invariant target == target0 + map k | k in source && k !in todo :: source[k]
    {
      var key :| key in todo;
      todo := todo - {key};
      target := target[key := source[key]];
    }
  }

  ghost predicate Holds(r: Record, key: string) { r.payload.Obj? && key in r.payload.fields }

  /** `i` is the last record that holds the field. */
  ghost predicate LastHolder(records: seq<Record>, key: string, i: nat) {
    && i < |records| && Holds(records[i], key)
    && forall j :: i < j < |records| ==> !Holds(records[j], key)
  }

  /** Both hold the field, with the same value. */
  ghost predicate FieldFrom(merged: Record, r: Record, key: string) {
    Holds(merged, key) && Holds(r, key) && merged.payload.fields[key] == r.payload.fields[key]
  }

  /**
   * If the first record is an object, the merged one has exactly the fields some
   * record holds, each from the last record holding it; otherwise it is the first.
   * Either way it keeps the first record's metadata.
   */
  lemma {:induction false} MergedFields(records: seq<Record>, key: string)
    requires records != []
    ensures Merge(records).metadata == records[0].metadata
    ensures !records[0].payload.Obj? ==> Merge(records) == records[0]
    ensures records[0].payload.Obj? ==> Merge(records).payload.Obj?
    ensures records[0].payload.Obj? && Holds(Merge(records), key) ==>
              exists i: nat :: LastHolder(records, key, i) && FieldFrom(Merge(records), records[i], key)
    ensures records[0].payload.Obj? && !Holds(Merge(records), key) ==>
              forall i :: 0 <= i < |records| ==> !Holds(records[i], key)
  {
    if |records| == 1 {
      if Holds(records[0], key) { assert LastHolder(records, key, 0); }
    } else {
      var k := |records| - 1;
      MergedFields(records[..k], key);
      if Holds(records[k], key) {
        assert LastHolder(records, key, k);
      } else if records[0].payload.Obj? && Holds(Merge(records), key) {
        var i: nat :| LastHolder(records[..k], key, i) && FieldFrom(Merge(records[..k]), records[..k][i], key);
        assert LastHolder(records, key, i);
      }
    }
  }
}
