/**
 * The accumulated state of a node (sohara-runtime/src/control.rs,
 * sohara-runtime/src/persist.rs): kept in memory, saved after every update, and
 * read back when a run is resumed under the same run id.
 */
module StepState {
  import opened Json
  import opened Payload
  import opened Eval
  import opened Flow

  /** One node's entry in memory, and its entry in the store for the run id. */
  datatype Cell = Cell(memory: Option<Value>, saved: Option<Value>)

  /** A payload reaching the step, and the moments at which its expressions are evaluated. */
  datatype Input = Input(payload: Value, clock: seq<Moment>)

  /** What expressions see: the payload alone, or with the state beside it. */
  function Visible(memory: Option<Value>, payload: Value): Value {
    if memory.None? then payload else Obj(map["record" := payload, "state" := memory.value])
  }

  function Current(memory: Option<Value>): Value { if memory.None? then Obj(map[]) else memory.value }

  /** The context of the next evaluation, when `clock` holds the moments of those to come. */
  function Now(ctx: Context, clock: seq<Moment>): Context { if clock == [] then ctx else At(ctx, clock[0]) }

  function Later(clock: seq<Moment>): seq<Moment> { if clock == [] then [] else clock[1..] }

  /** All expressions read the state before the step, each at its own moment; a failing one abandons it. */
  function ApplyUpdates(updates: seq<Update>, seen: Value, state: Value, ctx: Context,
                        clock: seq<Moment>): Option<Value>
    decreases |updates|
  {
    if updates == [] then Some(state)
    else
      var x := Evaluate(updates[0].expr, seen, Now(ctx, clock));
      if x.None? then None
      else
        ApplyUpdates(updates[1..], seen,
                     if state.Obj? then Obj(state.fields[updates[0].field := x.value]) else state, ctx, Later(clock))
  }

  function NewState(updates: seq<Update>, memory: Option<Value>, ctx: Context, arrival: Input): Option<Value> {
    ApplyUpdates(updates, Visible(memory, arrival.payload), Current(memory), ctx, arrival.clock)
  }

  method ComputeState(updates: seq<Update>, memory: Option<Value>, ctx: Context, arrival: Input)
    returns (r: Option<Value>)
    ensures r == NewState(updates, memory, ctx, arrival)
  {
    var seen := Visible(memory, arrival.payload);
    var state := Current(memory);
    var clock := arrival.clock;
    assert updates[0..] == updates;
    for i := 0 to |updates|
      invariant NewState(updates, memory, ctx, arrival) == ApplyUpdates(updates[i..], seen, state, ctx, clock)
    {
      assert updates[i..][1..] == updates[i + 1..];
      var value := Evaluate(updates[i].expr, seen, Now(ctx, clock));
      if value.None? { return None; }
      clock := Later(clock);
      if state.Obj? { state := Obj(state.fields[updates[i].field := value.value]); }
    }
    assert updates[|updates|..] == [];
    return Some(state);
  }

  predicate SteadyUpdates(updates: seq<Update>) { forall i :: 0 <= i < |updates| ==> Steady(updates[i].expr) }

  /** Steady updates do not depend on when they are made. */
  lemma {:induction false} SteadyNewState(updates: seq<Update>, seen: Value, state: Value, ctx: Context,
                                          clock: seq<Moment>)
    requires SteadyUpdates(updates)
    ensures ApplyUpdates(updates, seen, state, ctx, clock) == ApplyUpdates(updates, seen, state, ctx, [])
    decreases |updates|
  {
    if updates != [] {
      if clock != [] { SteadyEvaluates(updates[0].expr, seen, ctx, clock[0]); }
      var x := Evaluate(updates[0].expr, seen, ctx);
      if x.Some? {
        var next := if state.Obj? then Obj(state.fields[updates[0].field := x.value]) else state;
        SteadyNewState(updates[1..], seen, next, ctx, Later(clock));
      }
    }
  }

  // ---------- runs ----------

  datatype StateEvent =
    | Arrives(arrival: Input, saves: bool)
    | Checkpoint(saves: bool)
    | Resume(loads: bool)

  /** The memory a run starts with: only nodes that declare state have one. */
  function Initial(declared: Option<Value>, saved: Option<Value>, loads: bool): Option<Value> {
    if declared.None? then None
    else if loads && saved.Some? then saved
    else declared
  }

  function Step(c: Cell, declared: Option<Value>, updates: seq<Update>, ctx: Context, ev: StateEvent): Cell {
    match ev
    case Arrives(arrival, saves) =>
      var next := NewState(updates, c.memory, ctx, arrival);
      if next.None? then c else Cell(next, if saves then next else c.saved)
    case Checkpoint(saves) => if saves && c.memory.Some? then c.(saved := c.memory) else c
    case Resume(loads) => c.(memory := Initial(declared, c.saved, loads))
  }

  function Run(declared: Option<Value>, updates: seq<Update>, ctx: Context, log: seq<StateEvent>): Cell {
    if log == [] then Cell(Initial(declared, None, true), None)
    else Step(Run(declared, updates, ctx, log[..|log| - 1]), declared, updates, ctx, log[|log| - 1])
  }

  /** The state after the given arrivals, from the declared one; a failing step changes nothing. */
  function Fold(declared: Value, updates: seq<Update>, ctx: Context, arrivals: seq<Input>): Value {
    if arrivals == [] then declared
    else
      var before := Fold(declared, updates, ctx, arrivals[..|arrivals| - 1]);
      var next := NewState(updates, Some(before), ctx, arrivals[|arrivals| - 1]);
      if next.None? then before else next.value
  }

  /** The updates in memory, and the updates in the store (None: never saved). */
  datatype History = History(live: seq<Input>, durable: Option<seq<Input>>)

  function HistoryStep(h: History, completes: bool, ev: StateEvent): History {
    match ev
    case Arrives(arrival, saves) =>
      if !completes then h
      else History(h.live + [arrival], if saves then Some(h.live + [arrival]) else h.durable)
    case Checkpoint(saves) => if saves then h.(durable := Some(h.live)) else h
    case Resume(loads) => h.(live := if loads && h.durable.Some? then h.durable.value else [])
  }

  /** Whether an arrival's expressions all have a value. */
  predicate Completes(c: Cell, updates: seq<Update>, ctx: Context, ev: StateEvent) {
    ev.Arrives? && NewState(updates, c.memory, ctx, ev.arrival).Some?
  }

  function HistoryOf(declared: Option<Value>, updates: seq<Update>, ctx: Context, log: seq<StateEvent>): History {
    if log == [] then History([], None)
    else
      var k := |log| - 1;
      var c := Run(declared, updates, ctx, log[..k]);
      HistoryStep(HistoryOf(declared, updates, ctx, log[..k]), Completes(c, updates, ctx, log[k]), log[k])
  }

  ghost predicate Agrees(c: Cell, h: History, declared: Value, updates: seq<Update>, ctx: Context) {
    && c.memory == Some(Fold(declared, updates, ctx, h.live))
    && c.saved == if h.durable.None? then None else Some(Fold(declared, updates, ctx, h.durable.value))
  }

  lemma FoldSnoc(declared: Value, updates: seq<Update>, ctx: Context, arrivals: seq<Input>, a: Input)
    ensures var before := Fold(declared, updates, ctx, arrivals);
            var next := NewState(updates, Some(before), ctx, a);
            Fold(declared, updates, ctx, arrivals + [a]) == if next.None? then before else next.value
  {
    assert (arrivals + [a])[..|arrivals|] == arrivals;
  }

  lemma StepAgrees(c: Cell, h: History, declared: Value, updates: seq<Update>, ctx: Context, ev: StateEvent)
    requires Agrees(c, h, declared, updates, ctx)
    ensures Agrees(Step(c, Some(declared), updates, ctx, ev), HistoryStep(h, Completes(c, updates, ctx, ev), ev),
                   declared, updates, ctx)
  {
    match ev
    case Arrives(arrival, saves) => FoldSnoc(declared, updates, ctx, h.live, arrival);
    case Checkpoint(saves) =>
    case Resume(loads) => assert Fold(declared, updates, ctx, []) == declared;
  }

  /**
   * For a node that declares state, memory and store are at all times the fold
   * of the state step over the updates they hold, from the declared value, over
   * every run of arrivals, failed saves and loads, checkpoints and resumes. Each
   * arrival brings its own clock readings.
   */
  lemma {:induction false} StateIsFold(declared: Value, updates: seq<Update>, ctx: Context, log: seq<StateEvent>)
    ensures Agrees(Run(Some(declared), updates, ctx, log), HistoryOf(Some(declared), updates, ctx, log),
                   declared, updates, ctx)
  {
    if log != [] {
      var k := |log| - 1;
      StateIsFold(declared, updates, ctx, log[..k]);
      StepAgrees(Run(Some(declared), updates, ctx, log[..k]), HistoryOf(Some(declared), updates, ctx, log[..k]),
                 declared, updates, ctx, log[k]);
    }
  }

  predicate StoreWorks(log: seq<StateEvent>) {
    forall i :: 0 <= i < |log| ==>
      match log[i] { case Arrives(_, saves) => saves case Checkpoint(saves) => saves case Resume(loads) => loads }
  }

  /** The arrivals of all updates that completed, in order. */
  function Completed(declared: Option<Value>, updates: seq<Update>, ctx: Context, log: seq<StateEvent>): seq<Input> {
    if log == [] then []
    else
      var k := |log| - 1;
      var c := Run(declared, updates, ctx, log[..k]);
      Completed(declared, updates, ctx, log[..k]) + if Completes(c, updates, ctx, log[k]) then [log[k].arrival] else []
  }

  /** While the store works, no completed update is ever lost, however often the run is resumed. */
  lemma {:induction false} ResumesLoseNothing(declared: Value, updates: seq<Update>, ctx: Context, log: seq<StateEvent>)
    requires StoreWorks(log)
    ensures Run(Some(declared), updates, ctx, log).memory
         == Some(Fold(declared, updates, ctx, Completed(Some(declared), updates, ctx, log)))
  {
    StateIsFold(declared, updates, ctx, log);
    LiveIsCompleted(declared, updates, ctx, log);
  }

  lemma {:induction false} LiveIsCompleted(declared: Value, updates: seq<Update>, ctx: Context, log: seq<StateEvent>)
    requires StoreWorks(log)
    ensures var h := HistoryOf(Some(declared), updates, ctx, log);
            && h.live == Completed(Some(declared), updates, ctx, log)
            && (if h.durable.None? then h.live == [] else h.durable.value == h.live)
  {
    if log != [] {
      var k := |log| - 1;
      LiveIsCompleted(declared, updates, ctx, log[..k]);
      assert StoreWorks([log[k]]) by { assert [log[k]][0] == log[k]; }
      var done := Completed(Some(declared), updates, ctx, log[..k]);
      assert done + [] == done;
    }
  }

  // ---------- within one run ----------

  /** What arrived, in order. */
  function ArrivalsIn(log: seq<StateEvent>): seq<Input> {
    if log == [] then []
    else
      var k := |log| - 1;
      ArrivalsIn(log[..k]) + if log[k].Arrives? then [log[k].arrival] else []
  }

  lemma ArrivalsInSnoc(log: seq<StateEvent>, ev: StateEvent)
    ensures ArrivalsIn(log + [ev]) == ArrivalsIn(log) + if ev.Arrives? then [ev.arrival] else []
  {
    assert (log + [ev])[..|log|] == log;
  }

  /** The run was not resumed in between. */
  predicate OneRun(log: seq<StateEvent>) { forall i :: 0 <= i < |log| ==> !log[i].Resume? }

  /** The memory after the given arrivals, from the given one; a failing step changes nothing. */
  function FoldFrom(memory: Option<Value>, updates: seq<Update>, ctx: Context, arrivals: seq<Input>): Option<Value> {
    if arrivals == [] then memory
    else
      var before := FoldFrom(memory, updates, ctx, arrivals[..|arrivals| - 1]);
      var next := NewState(updates, before, ctx, arrivals[|arrivals| - 1]);
      if next.None? then before else next
  }

  lemma FoldFromSnoc(memory: Option<Value>, updates: seq<Update>, ctx: Context, arrivals: seq<Input>, a: Input)
    ensures var before := FoldFrom(memory, updates, ctx, arrivals);
            var next := NewState(updates, before, ctx, a);
            FoldFrom(memory, updates, ctx, arrivals + [a]) == if next.None? then before else next
  {
    assert (arrivals + [a])[..|arrivals|] == arrivals;
  }

  /** Within a run, memory is the fold of what arrived, declared or not, whatever is saved meanwhile. */
  lemma {:induction false} MemoryIsFold(declared: Option<Value>, updates: seq<Update>, ctx: Context,
                                        begun: seq<StateEvent>, since: seq<StateEvent>)
    requires OneRun(since)
    ensures Run(declared, updates, ctx, begun + since).memory
         == FoldFrom(Run(declared, updates, ctx, begun).memory, updates, ctx, ArrivalsIn(since))
    decreases |since|
  {
    if since == [] {
      assert begun + since == begun;
    } else {
      var k := |since| - 1;
      MemoryIsFold(declared, updates, ctx, begun, since[..k]);
      assert since[..k] + [since[k]] == since && begun + since == (begun + since[..k]) + [since[k]];
      FoldsOn(declared, updates, ctx, begun + since[..k], Run(declared, updates, ctx, begun).memory, since[..k],
              since[k]);
    }
  }

  lemma FoldsOn(declared: Option<Value>, updates: seq<Update>, ctx: Context, log: seq<StateEvent>,
                memory: Option<Value>, since: seq<StateEvent>, ev: StateEvent)
    requires !ev.Resume?
    requires Run(declared, updates, ctx, log).memory == FoldFrom(memory, updates, ctx, ArrivalsIn(since))
    ensures Run(declared, updates, ctx, log + [ev]).memory
         == FoldFrom(memory, updates, ctx, ArrivalsIn(since + [ev]))
  {
    assert (log + [ev])[..|log|] == log;
    ArrivalsInSnoc(since, ev);
    if ev.Arrives? {
      FoldFromSnoc(memory, updates, ctx, ArrivalsIn(since), ev.arrival);
    } else {
      assert ArrivalsIn(since) + [] == ArrivalsIn(since);
    }
  }

  /** A node that declares no state forgets it on every resume. */
  lemma UndeclaredForgets(updates: seq<Update>, ctx: Context, log: seq<StateEvent>, loads: bool)
    ensures Run(None, updates, ctx, log + [Resume(loads)]).memory == None
  {
    assert (log + [Resume(loads)])[..|log|] == log;
  }

  // ---------- what expressions see, and what an update does ----------

  /** Beside a state, `record` is the payload and `state` the state; without one, the payload is seen itself. */
  lemma VisibleMeans(state: Value, payload: Value, path: seq<string>)
    ensures Get(Visible(Some(state), payload), ["record"] + path) == Get(payload, path)
    ensures Get(Visible(Some(state), payload), ["state"] + path) == Get(state, path)
    ensures Get(Visible(None, payload), path) == Get(payload, path)
  {
    assert (["record"] + path)[1..] == path && (["state"] + path)[1..] == path;
  }

  /** A step without a state starts from an empty object, and one whose state is no object leaves it alone. */
  lemma NewStateFrom(updates: seq<Update>, memory: Option<Value>, ctx: Context, arrival: Input)
    ensures NewState(updates, memory, ctx, arrival)
         == ApplyUpdates(updates, Visible(memory, arrival.payload),
                         if memory.Some? then memory.value else Obj(map[]), ctx, arrival.clock)
  {
  }

  lemma {:induction false} NoObjectStays(updates: seq<Update>, seen: Value, state: Value, ctx: Context,
                                         clock: seq<Moment>)
    requires !state.Obj? && ApplyUpdates(updates, seen, state, ctx, clock).Some?
    ensures ApplyUpdates(updates, seen, state, ctx, clock) == Some(state)
    decreases |updates|
  {
    if updates != [] { NoObjectStays(updates[1..], seen, state, ctx, Later(clock)); }
  }

  /** The value of the i-th update's expression on what is seen before the step, at its own moment. */
  function UpdateValue(updates: seq<Update>, seen: Value, ctx: Context, clock: seq<Moment>, i: nat): Option<Value>
    requires i < |updates|
  {
    Evaluate(updates[i].expr, seen, if i < |clock| then At(ctx, clock[i]) else ctx)
  }

  lemma UpdateValueTail(updates: seq<Update>, seen: Value, ctx: Context, clock: seq<Moment>, i: nat)
    requires 1 <= i < |updates|
    ensures UpdateValue(updates[1..], seen, ctx, Later(clock), i - 1) == UpdateValue(updates, seen, ctx, clock, i)
  {
  }

  /** An update step succeeds exactly if all its expressions have a value on the state before the step. */
  lemma {:induction false} UpdatesSucceed(updates: seq<Update>, seen: Value, state: Value, ctx: Context,
                                          clock: seq<Moment>)
    ensures ApplyUpdates(updates, seen, state, ctx, clock).Some? <==>
              forall i :: 0 <= i < |updates| ==> UpdateValue(updates, seen, ctx, clock, i).Some?
    decreases |updates|
  {
    if updates != [] {
      var x := UpdateValue(updates, seen, ctx, clock, 0);
      if x.Some? {
        var next := if state.Obj? then Obj(state.fields[updates[0].field := x.value]) else state;
        UpdatesSucceed(updates[1..], seen, next, ctx, Later(clock));
        forall i | 1 <= i < |updates|
          ensures UpdateValue(updates[1..], seen, ctx, Later(clock), i - 1) == UpdateValue(updates, seen, ctx, clock, i)
        {
          UpdateValueTail(updates, seen, ctx, clock, i);
        }
        forall j | 0 <= j < |updates| - 1
          ensures UpdateValue(updates[1..], seen, ctx, Later(clock), j)
               == UpdateValue(updates, seen, ctx, clock, j + 1)
        {
          UpdateValueTail(updates, seen, ctx, clock, j + 1);
        }
      }
    }
  }

  /** The last update of a field gives it its value; fields that are not updated keep theirs. */
  lemma {:induction false} UpdatesSetFields(updates: seq<Update>, seen: Value, fields: map<string, Value>, ctx: Context,
                                            clock: seq<Moment>, field: string)
    requires ApplyUpdates(updates, seen, Obj(fields), ctx, clock).Some?
    ensures var after := ApplyUpdates(updates, seen, Obj(fields), ctx, clock).value;
            && after.Obj?
            && ((forall i :: 0 <= i < |updates| ==> updates[i].field != field) ==>
                  (field in after.fields <==> field in fields)
                  && (field in fields ==> after.fields[field] == fields[field]))
            && (forall i :: 0 <= i < |updates| && updates[i].field == field
                            && (forall j :: i < j < |updates| ==> updates[j].field != field) ==>
                  field in after.fields && Some(after.fields[field]) == UpdateValue(updates, seen, ctx, clock, i))
    decreases |updates|
  {
    if updates != [] {
      var rest := updates[1..];
      var next := fields[updates[0].field := UpdateValue(updates, seen, ctx, clock, 0).value];
      UpdatesSetFields(rest, seen, next, ctx, Later(clock), field);
      var after := ApplyUpdates(updates, seen, Obj(fields), ctx, clock).value;
      assert forall j :: 0 <= j < |rest| ==> rest[j] == updates[j + 1];
      forall i | 0 <= i < |updates| && updates[i].field == field
                 && (forall j :: i < j < |updates| ==> updates[j].field != field)
        ensures field in after.fields && Some(after.fields[field]) == UpdateValue(updates, seen, ctx, clock, i)
      {
        if i > 0 {
          assert rest[i - 1].field == field;
          UpdateValueTail(updates, seen, ctx, clock, i);
        }
      }
    }
  }
}
