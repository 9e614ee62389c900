/**
 * The relay mailbox of the plane (sohara-plane/src/relay_api.rs) and the bridge
 * that pulls from it (sohara-triggers/src/relay.rs).
 *
 * `PublishTo` and `PullAll` say what one publish and one pull do to the mailbox.
 * The classes do it in place, with the program's loops. The theorems are about
 * every run of publishes, pulls, lost responses and bridge restarts within one
 * lifetime of the plane.
 */
module Relay {
  import opened Json
  import opened Numbers

  const RELAY_CAP: nat := 1000
  const RELAY_BATCH: nat := 100

  datatype Entry = Entry(num: nat, payload: Value)
  datatype Queue = Queue(last: nat, buffer: seq<Entry>)
  datatype Message = Message(topic: string, num: nat, payload: Value)
  datatype Subscription = Subscription(topic: string, after: nat)

  datatype Mail = Mail(relay: map<string, Queue>, cursors: map<string, map<string, nat>>)

  datatype Pulled = Pulled(mail: Mail, messages: seq<Message>, next: seq<Subscription>)

  // ---------- one publish, one pull ----------

  function QueueOf(mail: Mail, topic: string): Queue {
    if topic in mail.relay then mail.relay[topic] else Queue(0, [])
  }

  function Floor(mail: Mail, subscriber: string, topic: string): nat {
    if subscriber in mail.cursors && topic in mail.cursors[subscriber] then mail.cursors[subscriber][topic] else 0
  }

  function Append(q: Queue, payload: Value): Queue {
    var longer := q.buffer + [Entry(q.last + 1, payload)];
    Queue(q.last + 1, if |longer| > RELAY_CAP then longer[1..] else longer)
  }

  function PublishTo(mail: Mail, topic: string, payload: Value): Mail {
    mail.(relay := mail.relay[topic := Append(QueueOf(mail, topic), payload)])
  }

  /** The entries one pull takes from a buffer: newer than the cursor, at most a batch. */
  function Drain(buffer: seq<Entry>, cursor: nat, taken: nat): seq<Entry> {
    if buffer == [] then []
    else if buffer[0].num <= cursor || taken >= RELAY_BATCH then Drain(buffer[1..], cursor, taken)
    else [buffer[0]] + Drain(buffer[1..], buffer[0].num, taken + 1)
  }

  function LastNum(entries: seq<Entry>, cursor: nat): nat {
    if entries == [] then cursor else entries[|entries| - 1].num
  }

  function Label(topic: string, entries: seq<Entry>): (ms: seq<Message>)
    ensures |ms| == |entries|
    ensures forall i :: 0 <= i < |ms| ==> ms[i] == Message(topic, entries[i].num, entries[i].payload)
  {
    seq(|entries|, i requires 0 <= i < |entries| => Message(topic, entries[i].num, entries[i].payload))
  }

  function SetFloor(mail: Mail, subscriber: string, topic: string, cursor: nat): Mail {
    var mine := if subscriber in mail.cursors then mail.cursors[subscriber] else map[];
    mail.(cursors := mail.cursors[subscriber := mine[topic := cursor]])
  }

  function PullOne(mail: Mail, subscriber: string, sub: Subscription): Pulled {
    if sub.topic !in mail.relay then Pulled(mail, [], [])
    else
      var start := Max(sub.after, Floor(mail, subscriber, sub.topic));
      var taken := Drain(mail.relay[sub.topic].buffer, start, 0);
      var cursor := LastNum(taken, start);
      Pulled(SetFloor(mail, subscriber, sub.topic, cursor), Label(sub.topic, taken), [Subscription(sub.topic, cursor)])
  }

  function PullAll(mail: Mail, subscriber: string, subs: seq<Subscription>): Pulled {
    if subs == [] then Pulled(mail, [], [])
    else
      var before := PullAll(mail, subscriber, subs[..|subs| - 1]);
      var last := PullOne(before.mail, subscriber, subs[|subs| - 1]);
      Pulled(last.mail, before.messages + last.messages, before.next + last.next)
  }

  // ---------- the mailbox in place ----------

  class Mailbox {
    var relay: map<string, Queue>
    var cursors: map<string, map<string, nat>>

    constructor ()
      ensures State() == Mail(map[], map[])
    {
      relay, cursors := map[], map[];
    }

    ghost function State(): Mail
      reads this
    {
      Mail(relay, cursors)
    }

    method Publish(topic: string, payload: Value)
      modifies this
      ensures State() == PublishTo(old(State()), topic, payload)
    {
      var queue := if topic in relay then relay[topic] else Queue(0, []);
      var num := queue.last + 1;
      var buffer := queue.buffer + [Entry(num, payload)];
      if |buffer| > RELAY_CAP { buffer := buffer[1..]; }
      relay := relay[topic := Queue(num, buffer)];
    }

    method Pull(subscriber: string, subs: seq<Subscription>)
      returns (messages: seq<Message>, next: seq<Subscription>)
      modifies this
      ensures var pulled := PullAll(old(State()), subscriber, subs);
              State() == pulled.mail && messages == pulled.messages && next == pulled.next
    {
      messages, next := [], [];
      for k := 0 to |subs|
        invariant Pulled(State(), messages, next) == PullAll(old(State()), subscriber, subs[..k])
      {
        assert subs[..k + 1][..k] == subs[..k];
        var topic, after := subs[k].topic, subs[k].after;
        ghost var here := State();
        if topic !in relay {
          assert messages + [] == messages && next + [] == next;
          continue;
        }
        var floor := if subscriber in cursors && topic in cursors[subscriber] then cursors[subscriber][topic] else 0;
        var taken, cursor := TakeNewer(relay[topic].buffer, Max(after, floor));
        messages := messages + Label(topic, taken);
        var mine := if subscriber in cursors then cursors[subscriber] else map[];
        cursors := cursors[subscriber := mine[topic := cursor]];
        next := next + [Subscription(topic, cursor)];
      }
      assert subs[..|subs|] == subs;
    }
  }

  /** The inner loop of a pull, which moves the cursor with every entry it takes. */
  method TakeNewer(buffer: seq<Entry>, start: nat) returns (taken: seq<Entry>, cursor: nat)
    ensures taken == Drain(buffer, start, 0) && cursor == LastNum(taken, start)
  {
    taken, cursor := [], start;
    var delivered := 0;
    assert [] + Drain(buffer, start, 0) == Drain(buffer, start, 0) && buffer[0..] == buffer;
    for i := 0 to |buffer|
      invariant delivered == |taken| && cursor == LastNum(taken, start)
      invariant Drain(buffer, start, 0) == taken + Drain(buffer[i..], cursor, delivered)
    {
      assert buffer[i..][1..] == buffer[i + 1..];
      if buffer[i].num <= cursor || delivered >= RELAY_BATCH {
        continue;
      }
      assert taken + ([buffer[i]] + Drain(buffer[i + 1..], buffer[i].num, delivered + 1))
          == taken + [buffer[i]] + Drain(buffer[i + 1..], buffer[i].num, delivered + 1);
      taken := taken + [buffer[i]];
      cursor := buffer[i].num;
      delivered := delivered + 1;
    }
    assert buffer[|buffer|..] == [] && taken + [] == taken;
  }

  // ---------- what a buffer holds ----------

  /** How many messages of a topic have been dropped. */
  function Evicted(q: Queue): int { q.last - |q.buffer| }

  /** The buffer is the last min(last, RELAY_CAP) messages of `history`, in order. */
  ghost predicate Retains(q: Queue, history: seq<Value>) {
    && q.last == |history|
    && |q.buffer| == (if q.last < RELAY_CAP then q.last else RELAY_CAP)
    && forall i :: 0 <= i < |q.buffer| ==> q.buffer[i] == Entry(Evicted(q) + 1 + i, history[Evicted(q) + i])
  }

  lemma AppendRetains(q: Queue, history: seq<Value>, payload: Value)
    requires Retains(q, history)
    ensures Retains(Append(q, payload), history + [payload])
    ensures Evicted(Append(q, payload)) >= Evicted(q)
  {
    var longer, full := q.buffer + [Entry(q.last + 1, payload)], history + [payload];
    forall i | 0 <= i < |longer| ensures longer[i] == Entry(Evicted(q) + 1 + i, full[Evicted(q) + i]) {
      if i < |q.buffer| { assert full[Evicted(q) + i] == history[Evicted(q) + i]; }
    }
    var next := Append(q, payload);
    forall i | 0 <= i < |next.buffer|
      ensures next.buffer[i] == Entry(Evicted(next) + 1 + i, full[Evicted(next) + i])
    {
      assert next.buffer[i] == longer[i + Evicted(next) - Evicted(q)];
    }
  }

  function Clamp(x: int, hi: nat): nat { if x < 0 then 0 else if x <= hi then x else hi }

  lemma TailSlice(buffer: seq<Entry>, lo: nat, hi: nat)
    requires 1 <= lo <= hi <= |buffer|
    ensures buffer[1..][lo - 1..hi - 1] == buffer[lo..hi]
  {
  }

  lemma HeadSlice(buffer: seq<Entry>, hi: nat)
    requires 1 <= hi <= |buffer|
    ensures [buffer[0]] + buffer[1..][0..hi - 1] == buffer[0..hi]
  {
  }

  /** Nothing more is taken once the batch is full. */
  lemma {:induction false} DrainFull(buffer: seq<Entry>, cursor: nat, taken: nat)
    requires taken >= RELAY_BATCH
    ensures Drain(buffer, cursor, taken) == []
  {
    if buffer != [] { DrainFull(buffer[1..], cursor, taken); }
  }

  /** Over consecutive entries, a pull takes one consecutive run starting right after the cursor. */
  lemma {:induction false} DrainIsSlice(buffer: seq<Entry>, base: nat, cursor: nat, taken: nat)
    requires forall i :: 0 <= i < |buffer| ==> buffer[i].num == base + 1 + i
    requires taken <= RELAY_BATCH
    ensures var lo := Clamp(cursor - base, |buffer|);
            Drain(buffer, cursor, taken) == buffer[lo..Clamp(lo + RELAY_BATCH - taken, |buffer|)]
    decreases |buffer|
  {
    if taken == RELAY_BATCH {
      DrainFull(buffer, cursor, taken);
    } else if buffer != [] {
      var lo := Clamp(cursor - base, |buffer|);
      var hi := Clamp(lo + RELAY_BATCH - taken, |buffer|);
      if buffer[0].num <= cursor {
        DrainIsSlice(buffer[1..], base + 1, cursor, taken);
        TailSlice(buffer, lo, hi);
      } else {
        DrainIsSlice(buffer[1..], base + 1, buffer[0].num, taken + 1);
        HeadSlice(buffer, hi);
      }
    }
  }

  // ---------- runs ----------

  datatype Delivery = Delivery(subscriber: string, message: Message)

  datatype Publication = Publication(topic: string, payload: Value)

  /** The mailbox with everything that was ever published and delivered. */
  datatype World = World(mail: Mail, published: seq<Publication>, delivered: seq<Delivery>)

  datatype Event =
    | Publish(topic: string, payload: Value)
    | Pull(subscriber: string, subs: seq<Subscription>)

  function Deliveries(subscriber: string, messages: seq<Message>): seq<Delivery> {
    seq(|messages|, i requires 0 <= i < |messages| => Delivery(subscriber, messages[i]))
  }

  function Step(w: World, ev: Event): World {
    match ev
    case Publish(topic, payload) =>
      w.(mail := PublishTo(w.mail, topic, payload), published := w.published + [Publication(topic, payload)])
    case Pull(subscriber, subs) =>
      var pulled := PullAll(w.mail, subscriber, subs);
      w.(mail := pulled.mail, delivered := w.delivered + Deliveries(subscriber, pulled.messages))
  }

  const START := World(Mail(map[], map[]), [], [])

  function Run(events: seq<Event>): World {
    if events == [] then START else Step(Run(events[..|events| - 1]), events[|events| - 1])
  }

  /** What was published on a topic. */
  function History(published: seq<Publication>, topic: string): seq<Value> {
    if published == [] then []
    else
      var before := History(published[..|published| - 1], topic);
      var last := published[|published| - 1];
      if last.topic == topic then before + [last.payload] else before
  }

  /** The messages on a topic, in order. */
  function OnTopic(messages: seq<Message>, topic: string): seq<Message> {
    if messages == [] then []
    else
      var before := OnTopic(messages[..|messages| - 1], topic);
      var last := messages[|messages| - 1];
      if last.topic == topic then before + [last] else before
  }

  /** Everything a subscriber has received, in order. */
  function Inbox(delivered: seq<Delivery>, subscriber: string): seq<Message> {
    if delivered == [] then []
    else
      var before := Inbox(delivered[..|delivered| - 1], subscriber);
      var last := delivered[|delivered| - 1];
      if last.subscriber == subscriber then before + [last.message] else before
  }

  function Received(w: World, subscriber: string, topic: string): seq<Message> {
    OnTopic(Inbox(w.delivered, subscriber), topic)
  }

  /** Sequence numbers rise strictly and lie in (lo, hi]. */
  ghost predicate Ascending(ms: seq<Message>, lo: nat, hi: nat) {
    && (forall i :: 0 <= i < |ms| ==> lo < ms[i].num <= hi)
    && (forall i, j :: 0 <= i < j < |ms| ==> ms[i].num < ms[j].num)
  }

  /** Every message carries the payload published under its sequence number. */
  ghost predicate Genuine(ms: seq<Message>, topic: string, history: seq<Value>) {
    forall i :: 0 <= i < |ms| ==>
                  ms[i].topic == topic && 1 <= ms[i].num <= |history| && ms[i].payload == history[ms[i].num - 1]
  }

  ghost predicate Buffered(w: World) {
    forall topic :: Retains(QueueOf(w.mail, topic), History(w.published, topic))
  }

  /** In order, at most once, never above the cursor, and as published. */
  ghost predicate InOrderFor(w: World, s: string, t: string) {
    Ascending(Received(w, s, t), 0, Floor(w.mail, s, t)) && Genuine(Received(w, s, t), t, History(w.published, t))
  }

  ghost predicate InOrder(w: World) {
    forall s, t :: InOrderFor(w, s, t)
  }

  ghost predicate Has(ms: seq<Message>, num: nat) { exists i :: 0 <= i < |ms| && ms[i].num == num }

  /** Every number up to `floor` was received or has been dropped from the queue. */
  ghost predicate Covers(ms: seq<Message>, floor: nat, q: Queue) {
    floor <= q.last && forall n: nat :: 1 <= n <= floor && !Has(ms, n) ==> n <= Evicted(q)
  }

  /** What a cursor has passed was delivered or had already been dropped. */
  ghost predicate Complete(w: World, s: string, t: string) {
    Covers(Received(w, s, t), Floor(w.mail, s, t), QueueOf(w.mail, t))
  }

  // ---------- concatenation laws of the logs ----------

  lemma {:induction false} OnTopicConcat(a: seq<Message>, b: seq<Message>, t: string)
    ensures OnTopic(a + b, t) == OnTopic(a, t) + OnTopic(b, t)
  {
    if b == [] {
      assert a + b == a;
    } else {
      var k := |b| - 1;
      assert (a + b)[..|a + b| - 1] == a + b[..k];
      OnTopicConcat(a, b[..k], t);
    }
  }

  lemma {:induction false} OnTopicUniform(ms: seq<Message>, topic: string, t: string)
    requires forall i :: 0 <= i < |ms| ==> ms[i].topic == topic
    ensures OnTopic(ms, t) == if t == topic then ms else []
  {
    if ms != [] {
      OnTopicUniform(ms[..|ms| - 1], topic, t);
      assert ms[..|ms| - 1] + [ms[|ms| - 1]] == ms;
    }
  }

  lemma {:induction false} InboxConcat(a: seq<Delivery>, subscriber: string, ms: seq<Message>, s: string)
    ensures Inbox(a + Deliveries(subscriber, ms), s) == Inbox(a, s) + if s == subscriber then ms else []
    decreases |ms|
  {
    var whole := a + Deliveries(subscriber, ms);
    if ms == [] {
      assert whole == a;
    } else {
      var k := |ms| - 1;
      assert whole[..|whole| - 1] == a + Deliveries(subscriber, ms[..k]);
      InboxConcat(a, subscriber, ms[..k], s);
      assert ms[..k] + [ms[k]] == ms;
    }
  }

  lemma AscendingConcat(a: seq<Message>, b: seq<Message>, lo: nat, mid: nat, hi: nat)
    requires Ascending(a, lo, mid) && Ascending(b, mid, hi) && lo <= mid <= hi
    ensures Ascending(a + b, lo, hi)
  {
  }

  lemma GenuineConcat(a: seq<Message>, b: seq<Message>, t: string, history: seq<Value>)
    requires Genuine(a, t, history) && Genuine(b, t, history)
    ensures Genuine(a + b, t, history)
  {
  }

  // ---------- one pull ----------

  ghost predicate Fresh(before: Mail, pulled: Pulled, s: string, t: string, history: seq<Value>) {
    && Ascending(OnTopic(pulled.messages, t), Floor(before, s, t), Floor(pulled.mail, s, t))
    && Floor(before, s, t) <= Floor(pulled.mail, s, t)
    && Genuine(OnTopic(pulled.messages, t), t, history)
  }

  /** The entries a pull takes are the published messages numbered from right above the cursor. */
  lemma TakenEntry(q: Queue, history: seq<Value>, start: nat, i: nat)
    requires Retains(q, history) && i < |Drain(q.buffer, start, 0)|
    ensures var base := Max(start, Evicted(q));
            base + i < |history| && Drain(q.buffer, start, 0)[i] == Entry(base + i + 1, history[base + i])
  {
    DrainIsSlice(q.buffer, Evicted(q), start, 0);
    var lo := Clamp(start - Evicted(q), |q.buffer|);
    assert Drain(q.buffer, start, 0)[i] == q.buffer[lo + i];
  }

  lemma TakenEntries(q: Queue, history: seq<Value>, start: nat)
    requires Retains(q, history)
    ensures var taken, base := Drain(q.buffer, start, 0), Max(start, Evicted(q));
            |taken| == Clamp(|history| - base, RELAY_BATCH) &&
            forall i :: 0 <= i < |taken| ==>
                          base + i < |history| && taken[i] == Entry(base + i + 1, history[base + i])
  {
    DrainIsSlice(q.buffer, Evicted(q), start, 0);
    var taken, base := Drain(q.buffer, start, 0), Max(start, Evicted(q));
    forall i | 0 <= i < |taken|
      ensures base + i < |history| && taken[i] == Entry(base + i + 1, history[base + i])
    {
      TakenEntry(q, history, start, i);
    }
  }

  /** What one pull of a topic takes lies right above the cursor and ends at the new one. */
  lemma TakenFromBuffer(q: Queue, history: seq<Value>, topic: string, start: nat)
    requires Retains(q, history)
    ensures var taken := Drain(q.buffer, start, 0);
            && Ascending(Label(topic, taken), start, LastNum(taken, start))
            && start <= LastNum(taken, start)
            && Genuine(Label(topic, taken), topic, history)
  {
    TakenEntries(q, history, start);
  }

  lemma PullOneOwnTopic(mail: Mail, s: string, sub: Subscription, history: seq<Value>)
    requires sub.topic in mail.relay && Retains(mail.relay[sub.topic], history)
    ensures Fresh(mail, PullOne(mail, s, sub), s, sub.topic, history)
  {
    var t, pulled := sub.topic, PullOne(mail, s, sub);
    var start := Max(sub.after, Floor(mail, s, t));
    var taken := Drain(mail.relay[t].buffer, start, 0);
    PulledOwnTopic(mail, s, sub);
    TakenFromBuffer(mail.relay[t], history, t, start);
    AscendingFrom(OnTopic(pulled.messages, t), Floor(mail, s, t), start, LastNum(taken, start));
  }

  lemma PulledOwnTopic(mail: Mail, s: string, sub: Subscription)
    requires sub.topic in mail.relay
    ensures var start := Max(sub.after, Floor(mail, s, sub.topic));
            var taken := Drain(mail.relay[sub.topic].buffer, start, 0);
            var pulled := PullOne(mail, s, sub);
            && OnTopic(pulled.messages, sub.topic) == Label(sub.topic, taken)
            && Floor(pulled.mail, s, sub.topic) == LastNum(taken, start)
  {
    OnTopicUniform(PullOne(mail, s, sub).messages, sub.topic, sub.topic);
  }

  lemma AscendingFrom(ms: seq<Message>, lo: nat, start: nat, hi: nat)
    requires lo <= start && Ascending(ms, start, hi)
    ensures Ascending(ms, lo, hi)
  {
  }

  lemma PullOneFresh(mail: Mail, s: string, sub: Subscription, t: string, history: seq<Value>)
    requires Retains(QueueOf(mail, t), history)
    ensures Fresh(mail, PullOne(mail, s, sub), s, t, history)
  {
    if sub.topic in mail.relay && t == sub.topic {
      PullOneOwnTopic(mail, s, sub, history);
    } else {
      OnTopicUniform(PullOne(mail, s, sub).messages, sub.topic, t);
    }
  }

  lemma {:induction false} PullAllFresh(mail: Mail, s: string, subs: seq<Subscription>, t: string, history: seq<Value>)
    requires Retains(QueueOf(mail, t), history)
    ensures var pulled := PullAll(mail, s, subs);
            pulled.mail.relay == mail.relay && Fresh(mail, pulled, s, t, history)
  {
    if subs != [] {
      var k := |subs| - 1;
      PullAllFresh(mail, s, subs[..k], t, history);
      var before := PullAll(mail, s, subs[..k]);
      var last := PullOne(before.mail, s, subs[k]);
      PullOneFresh(before.mail, s, subs[k], t, history);
      FreshThen(mail, before, last, s, t, history);
    }
  }

  lemma FreshThen(mail: Mail, before: Pulled, last: Pulled, s: string, t: string, history: seq<Value>)
    requires Fresh(mail, before, s, t, history) && Fresh(before.mail, last, s, t, history)
    ensures Fresh(mail, Pulled(last.mail, before.messages + last.messages, before.next + last.next), s, t, history)
  {
    OnTopicConcat(before.messages, last.messages, t);
    AscendingConcat(OnTopic(before.messages, t), OnTopic(last.messages, t),
                    Floor(mail, s, t), Floor(before.mail, s, t), Floor(last.mail, s, t));
    GenuineConcat(OnTopic(before.messages, t), OnTopic(last.messages, t), t, history);
  }

  lemma {:induction false} PullAllOthers(mail: Mail, s: string, subs: seq<Subscription>, other: string, t: string)
    requires s != other
    ensures Floor(PullAll(mail, s, subs).mail, other, t) == Floor(mail, other, t)
  {
    if subs != [] { PullAllOthers(mail, s, subs[..|subs| - 1], other, t); }
  }

  // ---------- every run ----------

  lemma StepKeepsBuffered(w: World, ev: Event)
    requires Buffered(w)
    ensures Buffered(Step(w, ev))
  {
    var w' := Step(w, ev);
    forall t ensures Retains(QueueOf(w'.mail, t), History(w'.published, t)) {
      match ev
      case Publish(topic, payload) =>
        AppendRetains(QueueOf(w.mail, t), History(w.published, t), payload);
        assert w'.published[..|w'.published| - 1] == w.published;
      case Pull(s, subs) =>
        PullAllFresh(w.mail, s, subs, t, History(w.published, t));
    }
  }

  lemma PullKeepsInOrder(w: World, subscriber: string, subs: seq<Subscription>, s: string, t: string)
    requires Retains(QueueOf(w.mail, t), History(w.published, t)) && InOrderFor(w, s, t)
    ensures InOrderFor(Step(w, Pull(subscriber, subs)), s, t)
  {
    var pulled := PullAll(w.mail, subscriber, subs);
    ReceivedAfterPull(w, subscriber, subs, s, t);
    if s == subscriber {
      PullAllFresh(w.mail, s, subs, t, History(w.published, t));
      AscendingConcat(Received(w, s, t), OnTopic(pulled.messages, t), 0, Floor(w.mail, s, t), Floor(pulled.mail, s, t));
      GenuineConcat(Received(w, s, t), OnTopic(pulled.messages, t), t, History(w.published, t));
    } else {
      PullAllOthers(w.mail, subscriber, subs, s, t);
    }
  }

  lemma StepKeepsInOrder(w: World, ev: Event)
    requires Buffered(w) && InOrder(w)
    ensures InOrder(Step(w, ev))
  {
    var w' := Step(w, ev);
    forall s, t ensures InOrderFor(w', s, t) {
      assert InOrderFor(w, s, t);
      match ev
      case Publish(topic, payload) =>
        assert w'.published[..|w'.published| - 1] == w.published;
      case Pull(subscriber, subs) =>
        PullKeepsInOrder(w, subscriber, subs, s, t);
    }
  }

  lemma ReceivedAfterPull(w: World, subscriber: string, subs: seq<Subscription>, s: string, t: string)
    ensures Received(Step(w, Pull(subscriber, subs)), s, t)
         == Received(w, s, t) + if s == subscriber then OnTopic(PullAll(w.mail, subscriber, subs).messages, t) else []
  {
    var messages := PullAll(w.mail, subscriber, subs).messages;
    InboxConcat(w.delivered, subscriber, messages, s);
    OnTopicConcat(Inbox(w.delivered, s), if s == subscriber then messages else [], t);
  }

  /**
   * Over every run each topic holds exactly its last messages, and each
   * subscriber receives each topic in strictly increasing order, whatever
   * `after` it asks for and however often it repeats a topic.
   */
  lemma {:induction false} RunInOrder(events: seq<Event>)
    ensures Buffered(Run(events)) && InOrder(Run(events))
  {
    if events != [] {
      var k := |events| - 1;
      RunInOrder(events[..k]);
      StepKeepsBuffered(Run(events[..k]), events[k]);
      StepKeepsInOrder(Run(events[..k]), events[k]);
    }
  }

  // ---------- nothing is skipped silently ----------

  /** No cursor of `subs` is above the subscriber's floor. */
  ghost predicate Below(subs: seq<Subscription>, mail: Mail, s: string) {
    forall k :: 0 <= k < |subs| ==> subs[k].after <= Floor(mail, s, subs[k].topic)
  }

  lemma HasConcat(a: seq<Message>, b: seq<Message>, n: nat)
    ensures Has(a + b, n) <==> Has(a, n) || Has(b, n)
  {
    if Has(a, n) {
      var i :| 0 <= i < |a| && a[i].num == n;
      assert (a + b)[i].num == n;
    }
    if Has(b, n) {
      var i :| 0 <= i < |b| && b[i].num == n;
      assert (a + b)[|a| + i].num == n;
    }
  }

  lemma TakenCovers(q: Queue, history: seq<Value>, topic: string, floor: nat, ms: seq<Message>)
    requires Retains(q, history) && Covers(ms, floor, q)
    ensures var taken := Drain(q.buffer, floor, 0);
            Covers(ms + Label(topic, taken), LastNum(taken, floor), q)
  {
    TakenEntries(q, history, floor);
    var taken, base := Drain(q.buffer, floor, 0), Max(floor, Evicted(q));
    var more := Label(topic, taken);
    forall n: nat | 1 <= n <= LastNum(taken, floor) && n > Evicted(q) ensures Has(ms + more, n) {
      HasConcat(ms, more, n);
      if n > floor { assert more[n - base - 1].num == n; }
    }
  }

  lemma PullOneCovers(mail: Mail, s: string, sub: Subscription, t: string, history: seq<Value>, ms: seq<Message>)
    requires Retains(QueueOf(mail, t), history) && Covers(ms, Floor(mail, s, t), QueueOf(mail, t))
    requires sub.after <= Floor(mail, s, sub.topic)
    ensures var pulled := PullOne(mail, s, sub);
            Covers(ms + OnTopic(pulled.messages, t), Floor(pulled.mail, s, t), QueueOf(mail, t))
  {
    var pulled := PullOne(mail, s, sub);
    OnTopicUniform(pulled.messages, sub.topic, t);
    if sub.topic in mail.relay && sub.topic == t {
      TakenCovers(mail.relay[t], history, t, Floor(mail, s, t), ms);
    } else {
      assert ms + [] == ms;
    }
  }

  lemma {:induction false} PullAllCovers(mail: Mail, s: string, subs: seq<Subscription>, t: string,
                                         history: seq<Value>, ms: seq<Message>)
    requires Retains(QueueOf(mail, t), history) && Covers(ms, Floor(mail, s, t), QueueOf(mail, t))
    requires Below(subs, mail, s)
    ensures var pulled := PullAll(mail, s, subs);
            Covers(ms + OnTopic(pulled.messages, t), Floor(pulled.mail, s, t), QueueOf(mail, t))
  {
    if subs == [] {
      assert ms + [] == ms;
    } else {
      var k := |subs| - 1;
      PullAllCovers(mail, s, subs[..k], t, history, ms);
      PullAllFresh(mail, s, subs[..k], t, history);
      var before := PullAll(mail, s, subs[..k]);
      var last := PullOne(before.mail, s, subs[k]);
      FloorsRise(mail, s, subs[..k], subs[k].topic);
      PullOneCovers(before.mail, s, subs[k], t, history, ms + OnTopic(before.messages, t));
      OnTopicConcat(before.messages, last.messages, t);
      assert ms + OnTopic(before.messages, t) + OnTopic(last.messages, t)
          == ms + (OnTopic(before.messages, t) + OnTopic(last.messages, t));
    }
  }

  lemma PullOneRises(mail: Mail, s: string, sub: Subscription, t: string)
    ensures Floor(mail, s, t) <= Floor(PullOne(mail, s, sub).mail, s, t)
  {
    if sub.topic in mail.relay {
      DrainRises(mail.relay[sub.topic].buffer, Max(sub.after, Floor(mail, s, sub.topic)), 0);
    }
  }

  lemma {:induction false} FloorsRise(mail: Mail, s: string, subs: seq<Subscription>, t: string)
    ensures var pulled := PullAll(mail, s, subs);
            pulled.mail.relay == mail.relay && Floor(mail, s, t) <= Floor(pulled.mail, s, t)
  {
    if subs != [] {
      var k := |subs| - 1;
      FloorsRise(mail, s, subs[..k], t);
      PullOneRises(PullAll(mail, s, subs[..k]).mail, s, subs[k], t);
    }
  }

  /** A pull never moves a cursor back. */
  lemma {:induction false} DrainRises(buffer: seq<Entry>, cursor: nat, taken: nat)
    ensures cursor <= LastNum(Drain(buffer, cursor, taken), cursor)
    decreases |buffer|
  {
    if buffer != [] {
      if buffer[0].num <= cursor || taken >= RELAY_BATCH {
        DrainRises(buffer[1..], cursor, taken);
      } else {
        DrainRises(buffer[1..], buffer[0].num, taken + 1);
      }
    }
  }

  /** The event does not make `s` skip ahead of its floor. */
  ghost predicate ModestFor(w: World, ev: Event, s: string) {
    ev.Pull? && ev.subscriber == s ==> Below(ev.subs, w.mail, s)
  }

  lemma StepKeepsComplete(w: World, ev: Event, s: string, t: string)
    requires Buffered(w) && Complete(w, s, t) && ModestFor(w, ev, s)
    ensures Complete(Step(w, ev), s, t)
  {
    match ev
    case Publish(topic, payload) =>
      AppendRetains(QueueOf(w.mail, t), History(w.published, t), payload);
    case Pull(subscriber, subs) =>
      ReceivedAfterPull(w, subscriber, subs, s, t);
      FloorsRise(w.mail, subscriber, subs, t);
      if s == subscriber {
        PullAllCovers(w.mail, s, subs, t, History(w.published, t), Received(w, s, t));
      } else {
        PullAllOthers(w.mail, subscriber, subs, s, t);
        assert Received(w, s, t) + [] == Received(w, s, t);
      }
  }

  /** If a subscriber never asks above its floor, a number its cursor passed is received or dropped. */
  lemma {:induction false} RunComplete(events: seq<Event>, s: string, t: string)
    requires forall k :: 0 <= k < |events| ==> ModestFor(Run(events[..k]), events[k], s)
    ensures Complete(Run(events), s, t)
  {
    if events != [] {
      var k := |events| - 1;
      forall j | 0 <= j < k ensures ModestFor(Run(events[..k][..j]), events[..k][j], s) {
        assert events[..k][..j] == events[..j];
      }
      RunComplete(events[..k], s, t);
      RunInOrder(events[..k]);
      StepKeepsComplete(Run(events[..k]), events[k], s, t);
    }
  }

  // ---------- the bridge ----------

  function CursorOf(cursors: map<string, nat>, topic: string): nat {
    if topic in cursors then cursors[topic] else 0
  }

  function SubscriptionsFor(cursors: map<string, nat>, topics: seq<string>): (subs: seq<Subscription>)
    ensures |subs| == |topics|
    ensures forall i :: 0 <= i < |subs| ==> subs[i] == Subscription(topics[i], CursorOf(cursors, topics[i]))
  {
    seq(|topics|, i requires 0 <= i < |topics| => Subscription(topics[i], CursorOf(cursors, topics[i])))
  }

  function Advance(cursors: map<string, nat>, next: seq<Subscription>): map<string, nat> {
    if next == [] then cursors
    else Advance(cursors, next[..|next| - 1])[next[|next| - 1].topic := next[|next| - 1].after]
  }

  /** Answer by answer, the cursor of the answered topic moves to where it says, and no other. */
  lemma AdvanceIs(cursors: map<string, nat>, next: seq<Subscription>, last: Subscription, topic: string)
    ensures Advance(cursors, []) == cursors
    ensures CursorOf(Advance(cursors, next + [last]), topic) ==
              if topic == last.topic then last.after else CursorOf(Advance(cursors, next), topic)
  {
    assert (next + [last])[..|next|] == next;
  }

  /** A pull of one topic answers the number of the last message it takes, and the plane keeps it as the floor. */
  lemma PullOneAnswers(mail: Mail, s: string, sub: Subscription)
    ensures var pulled := PullOne(mail, s, sub);
            if sub.topic !in mail.relay then pulled.next == [] && pulled.messages == [] && pulled.mail == mail
            else
              && |pulled.next| == 1 && pulled.next[0].topic == sub.topic
              && pulled.next[0].after == Floor(pulled.mail, s, sub.topic)
              && pulled.next[0].after == (if pulled.messages == [] then Max(sub.after, Floor(mail, s, sub.topic))
                                          else pulled.messages[|pulled.messages| - 1].num)
  {
  }

  /** The pulling side: it publishes what it gets on the local bus and keeps the cursors it is told. */
  class Bridge {
    const subscriber: string
    var cursors: map<string, nat>
    var injected: seq<Message>

    constructor (subscriber: string)
      ensures this.subscriber == subscriber && cursors == map[] && injected == []
    {
      this.subscriber := subscriber;
      cursors, injected := map[], [];
    }

    method RequestPull(topics: seq<string>) returns (subs: seq<Subscription>)
      ensures subs == SubscriptionsFor(cursors, topics)
    {
      subs := [];
      for i := 0 to |topics|
        invariant subs == SubscriptionsFor(cursors, topics[..i])
      {
        subs := subs + [Subscription(topics[i], if topics[i] in cursors then cursors[topics[i]] else 0)];
      }
      assert topics[..|topics|] == topics;
    }

    method ApplyResponse(messages: seq<Message>, next: seq<Subscription>)
      modifies this
      ensures injected == old(injected) + messages && cursors == Advance(old(cursors), next)
    {
      for i := 0 to |messages|
        invariant injected == old(injected) + messages[..i] && cursors == old(cursors)
      {
        injected := injected + [messages[i]];
      }
      for i := 0 to |next|
        invariant injected == old(injected) + messages && cursors == Advance(old(cursors), next[..i])
      {
        assert next[..i + 1][..i] == next[..i];
        cursors := cursors[next[i].topic := next[i].after];
      }
      assert next[..|next|] == next;
    }
  }

  datatype System = System(world: World, cursors: map<string, nat>, injected: seq<Message>)

  datatype Action =
    | Other(event: Event)
    | BridgePull(topics: seq<string>, lost: bool)
    | BridgeRestart

  /** One action of a plane with a bridge named `id`; a lost response reaches the plane but not the bridge. */
  function Act(sys: System, id: string, action: Action): System {
    match action
    case Other(event) => sys.(world := Step(sys.world, event))
    case BridgeRestart => sys.(cursors := map[])
    case BridgePull(topics, lost) =>
      var subs := SubscriptionsFor(sys.cursors, topics);
      var pulled := PullAll(sys.world.mail, id, subs);
      var world := Step(sys.world, Pull(id, subs));
      if lost then sys.(world := world)
      else System(world, Advance(sys.cursors, pulled.next), sys.injected + pulled.messages)
  }

  function Acts(id: string, actions: seq<Action>): System {
    if actions == [] then System(START, map[], [])
    else Act(Acts(id, actions[..|actions| - 1]), id, actions[|actions| - 1])
  }

  ghost predicate BridgeInv(sys: System, id: string) {
    && Buffered(sys.world)
    && (forall t :: CursorOf(sys.cursors, t) <= Floor(sys.world.mail, id, t))
    && (forall t :: Ascending(OnTopic(sys.injected, t), 0, Floor(sys.world.mail, id, t)))
    && (forall t :: Genuine(OnTopic(sys.injected, t), t, History(sys.world.published, t)))
  }

  lemma {:induction false} AdvanceBelow(cursors: map<string, nat>, next: seq<Subscription>, mail: Mail, s: string)
    requires forall t :: CursorOf(cursors, t) <= Floor(mail, s, t)
    requires Below(next, mail, s)
    ensures forall t :: CursorOf(Advance(cursors, next), t) <= Floor(mail, s, t)
  {
    if next != [] { AdvanceBelow(cursors, next[..|next| - 1], mail, s); }
  }

  lemma {:induction false} NextBelow(mail: Mail, s: string, subs: seq<Subscription>)
    ensures Below(PullAll(mail, s, subs).next, PullAll(mail, s, subs).mail, s)
  {
    if subs != [] {
      var j := |subs| - 1;
      NextBelow(mail, s, subs[..j]);
      var before := PullAll(mail, s, subs[..j]);
      var last := PullOne(before.mail, s, subs[j]);
      var next := before.next + last.next;
      forall k | 0 <= k < |next| ensures next[k].after <= Floor(last.mail, s, next[k].topic) {
        if k < |before.next| {
          assert next[k] == before.next[k];
          PullOneRises(before.mail, s, subs[j], next[k].topic);
        } else {
          assert next[k] == last.next[k - |before.next|];
        }
      }
    }
  }

  lemma ActKeepsBridge(sys: System, id: string, action: Action)
    requires BridgeInv(sys, id)
    ensures BridgeInv(Act(sys, id, action), id)
  {
    match action
    case BridgeRestart =>
    case Other(event) => EventKeepsBridge(sys, id, event);
    case BridgePull(topics, lost) =>
      var subs := SubscriptionsFor(sys.cursors, topics);
      EventKeepsBridge(sys, id, Pull(id, subs));
      if !lost { ResponseKeepsBridge(sys, id, subs); }
  }

  lemma EventKeepsBridge(sys: System, id: string, event: Event)
    requires BridgeInv(sys, id)
    ensures BridgeInv(sys.(world := Step(sys.world, event)), id)
  {
    var world := Step(sys.world, event);
    StepKeepsBuffered(sys.world, event);
    forall t
      ensures Floor(sys.world.mail, id, t) <= Floor(world.mail, id, t)
      ensures Genuine(OnTopic(sys.injected, t), t, History(world.published, t))
    {
      FloorRises(sys.world, event, id, t);
      if event.Publish? { assert world.published[..|world.published| - 1] == sys.world.published; }
    }
  }

  lemma ResponseKeepsBridge(sys: System, id: string, subs: seq<Subscription>)
    requires BridgeInv(sys, id)
    ensures var pulled := PullAll(sys.world.mail, id, subs);
            BridgeInv(System(Step(sys.world, Pull(id, subs)), Advance(sys.cursors, pulled.next),
                             sys.injected + pulled.messages), id)
  {
    var pulled := PullAll(sys.world.mail, id, subs);
    StepKeepsBuffered(sys.world, Pull(id, subs));
    forall t
      ensures CursorOf(sys.cursors, t) <= Floor(pulled.mail, id, t)
      ensures Ascending(OnTopic(sys.injected + pulled.messages, t), 0, Floor(pulled.mail, id, t))
      ensures Genuine(OnTopic(sys.injected + pulled.messages, t), t, History(sys.world.published, t))
    {
      PullAllFresh(sys.world.mail, id, subs, t, History(sys.world.published, t));
      OnTopicConcat(sys.injected, pulled.messages, t);
      assert CursorOf(sys.cursors, t) <= Floor(sys.world.mail, id, t) <= Floor(pulled.mail, id, t);
      AscendingConcat(OnTopic(sys.injected, t), OnTopic(pulled.messages, t),
                      0, Floor(sys.world.mail, id, t), Floor(pulled.mail, id, t));
      GenuineConcat(OnTopic(sys.injected, t), OnTopic(pulled.messages, t), t, History(sys.world.published, t));
    }
    NextBelow(sys.world.mail, id, subs);
    assert forall t :: CursorOf(sys.cursors, t) <= Floor(pulled.mail, id, t);
    AdvanceBelow(sys.cursors, pulled.next, pulled.mail, id);
  }

  /**
   * In every run with lost responses, restarts and other subscribers, the bridge
   * puts each message on the local bus at most once, in order and as published.
   */
  lemma {:induction false} BridgeInjectsOnce(id: string, actions: seq<Action>)
    ensures BridgeInv(Acts(id, actions), id)
  {
    if actions != [] {
      var k := |actions| - 1;
      BridgeInjectsOnce(id, actions[..k]);
      ActKeepsBridge(Acts(id, actions[..k]), id, actions[k]);
    }
  }

  /** Nobody but the bridge pulls under its name. */
  ghost predicate Owned(id: string, action: Action) {
    !(action.Other? && action.event.Pull? && action.event.subscriber == id)
  }

  /** What the plane answers to a pull of the bridge. */
  function Answer(sys: System, id: string, topics: seq<string>): seq<Message> {
    PullAll(sys.world.mail, id, SubscriptionsFor(sys.cursors, topics)).messages
  }

  /** What it answers to the k-th action, a pull of the bridge. */
  function AnswerAt(id: string, actions: seq<Action>, k: nat): seq<Message>
    requires k < |actions| && actions[k].BridgePull?
  {
    Answer(Acts(id, actions[..k]), id, actions[k].topics)
  }

  /** How many messages were in responses that got lost. */
  function LostMessages(id: string, actions: seq<Action>): nat {
    if actions == [] then 0
    else
      var k := |actions| - 1;
      LostMessages(id, actions[..k]) +
      if actions[k].BridgePull? && actions[k].lost then |AnswerAt(id, actions, k)| else 0
  }

  /**
   * A bridge that alone uses its name never skips a message that is still
   * buffered. It has put everything the plane delivered to it on the local bus
   * if and only if no lost response carried a message.
   */
  lemma BridgeMissesNothing(id: string, actions: seq<Action>, t: string)
    requires forall k :: 0 <= k < |actions| ==> Owned(id, actions[k])
    ensures Complete(Acts(id, actions).world, id, t)
    ensures Inbox(Acts(id, actions).world.delivered, id) == Acts(id, actions).injected <==>
              LostMessages(id, actions) == 0
  {
    OwnedComplete(id, actions, t);
    LostIsTheRest(id, actions);
  }

  lemma {:induction false} OwnedComplete(id: string, actions: seq<Action>, t: string)
    requires forall k :: 0 <= k < |actions| ==> Owned(id, actions[k])
    ensures Complete(Acts(id, actions).world, id, t)
  {
    if actions != [] {
      var k := |actions| - 1;
      OwnedComplete(id, actions[..k], t);
      BridgeInjectsOnce(id, actions[..k]);
      var sys := Acts(id, actions[..k]);
      match actions[k]
      case BridgeRestart =>
      case Other(event) => StepKeepsComplete(sys.world, event, id, t);
      case BridgePull(topics, _) =>
        StepKeepsComplete(sys.world, Pull(id, SubscriptionsFor(sys.cursors, topics)), id, t);
    }
  }

  /** What was delivered and not put on the local bus is what was lost. */
  lemma {:induction false} LostIsTheRest(id: string, actions: seq<Action>)
    requires forall k :: 0 <= k < |actions| ==> Owned(id, actions[k])
    ensures var inbox := Inbox(Acts(id, actions).world.delivered, id);
            && |inbox| == |Acts(id, actions).injected| + LostMessages(id, actions)
            && (LostMessages(id, actions) == 0 ==> inbox == Acts(id, actions).injected)
  {
    if actions != [] {
      var k := |actions| - 1;
      LostIsTheRest(id, actions[..k]);
      var sys := Acts(id, actions[..k]);
      match actions[k]
      case BridgeRestart =>
      case Other(event) =>
        if event.Pull? {
          InboxConcat(sys.world.delivered, event.subscriber,
                      PullAll(sys.world.mail, event.subscriber, event.subs).messages, id);
        }
      case BridgePull(topics, lost) => InboxConcat(sys.world.delivered, id, Answer(sys, id, topics), id);
    }
  }

  lemma FloorRises(w: World, event: Event, id: string, t: string)
    ensures Floor(w.mail, id, t) <= Floor(Step(w, event).mail, id, t)
  {
    if event.Pull? {
      if event.subscriber == id {
        FloorsRise(w.mail, id, event.subs, t);
      } else {
        PullAllOthers(w.mail, event.subscriber, event.subs, id, t);
      }
    }
  }

  /** The bridge has not put the message on the local bus, and will not be sent it any more. */
  ghost predicate Gone(sys: System, id: string, t: string, num: nat) {
    !Has(OnTopic(sys.injected, t), num) && Floor(sys.world.mail, id, t) >= num
  }

  lemma LosesNow(sys: System, id: string, topics: seq<string>, t: string, num: nat)
    requires BridgeInv(sys, id) && Has(OnTopic(Answer(sys, id, topics), t), num)
    ensures Gone(Act(sys, id, BridgePull(topics, true)), id, t, num)
  {
    PullAllFresh(sys.world.mail, id, SubscriptionsFor(sys.cursors, topics), t, History(sys.world.published, t));
  }

  lemma StaysGone(sys: System, id: string, action: Action, t: string, num: nat)
    requires BridgeInv(sys, id) && Gone(sys, id, t, num)
    ensures Gone(Act(sys, id, action), id, t, num)
  {
    match action
    case BridgeRestart =>
    case Other(event) => FloorRises(sys.world, event, id, t);
    case BridgePull(topics, lost) =>
      FloorRises(sys.world, Pull(id, SubscriptionsFor(sys.cursors, topics)), id, t);
      if !lost { AnswersNewer(sys, id, topics, t, num); }
  }

  lemma AnswersNewer(sys: System, id: string, topics: seq<string>, t: string, num: nat)
    requires BridgeInv(sys, id) && Gone(sys, id, t, num)
    ensures !Has(OnTopic(sys.injected + Answer(sys, id, topics), t), num)
  {
    PullAllFresh(sys.world.mail, id, SubscriptionsFor(sys.cursors, topics), t, History(sys.world.published, t));
    OnTopicConcat(sys.injected, Answer(sys, id, topics), t);
    var had, got := OnTopic(sys.injected, t), OnTopic(Answer(sys, id, topics), t);
    var both: seq<Message> := had + got;
    forall i | 0 <= i < |both| ensures both[i].num != num {
      if i < |had| { assert had[i].num != num; } else { assert got[i - |had|].num > num; }
    }
  }

  /** The k-th action is a pull whose response carries the message and is lost. */
  ghost predicate LosesAt(id: string, actions: seq<Action>, k: nat, t: string, num: nat) {
    && k < |actions| && actions[k].BridgePull? && actions[k].lost
    && Has(OnTopic(AnswerAt(id, actions, k), t), num)
  }

  lemma LosesAtPrefix(id: string, actions: seq<Action>, j: nat, k: nat, t: string, num: nat)
    requires LosesAt(id, actions, k, t, num) && k < j <= |actions|
    ensures LosesAt(id, actions[..j], k, t, num)
  {
    assert actions[..j][..k] == actions[..k];
  }

  lemma LosesAtLast(id: string, actions: seq<Action>, k: nat, t: string, num: nat)
    requires LosesAt(id, actions, k, t, num) && k == |actions| - 1
    ensures Gone(Acts(id, actions), id, t, num)
  {
    BridgeInjectsOnce(id, actions[..k]);
    LosesNow(Acts(id, actions[..k]), id, actions[k].topics, t, num);
  }

  /** A message in a lost response never reaches the local bus, whatever happens before and afterwards. */
  lemma {:induction false} LostForGood(id: string, actions: seq<Action>, k: nat, t: string, num: nat)
    requires LosesAt(id, actions, k, t, num)
    ensures Gone(Acts(id, actions), id, t, num)
    decreases |actions|
  {
    var j := |actions| - 1;
    if k == j {
      LosesAtLast(id, actions, k, t, num);
    } else {
      LosesAtPrefix(id, actions, j, k, t, num);
      LostForGood(id, actions[..j], k, t, num);
      BridgeInjectsOnce(id, actions[..j]);
      StaysGone(Acts(id, actions[..j]), id, actions[j], t, num);
    }
  }

  /** A pull of a topic with one message, by a subscriber that has none. */
  lemma PullsOne(mail: Mail, id: string, topic: string, payload: Value)
    requires topic in mail.relay && mail.relay[topic].buffer == [Entry(1, payload)] && Floor(mail, id, topic) == 0
    ensures PullAll(mail, id, SubscriptionsFor(map[], [topic])).messages == [Message(topic, 1, payload)]
  {
    var buffer, subs := mail.relay[topic].buffer, SubscriptionsFor(map[], [topic]);
    assert buffer[1..] == [] && Drain(buffer[1..], 1, 1) == [] && Drain(buffer, 0, 0) == buffer;
    assert subs[..0] == [] && PullAll(mail, id, subs[..0]) == Pulled(mail, [], []);
    assert PullOne(mail, id, subs[0]).messages == [Message(topic, 1, payload)];
  }

  /** Such a run: one message is published, and the response that carries it is lost. */
  lemma ResponseLost(id: string, topic: string, payload: Value) returns (actions: seq<Action>)
    ensures forall k :: 0 <= k < |actions| ==> Owned(id, actions[k])
    ensures LostMessages(id, actions) == 1 && Acts(id, actions).injected == []
    ensures Inbox(Acts(id, actions).world.delivered, id) == [Message(topic, 1, payload)]
  {
    var publish, pull := Other(Publish(topic, payload)), BridgePull([topic], true);
    actions := [publish, pull];
    assert actions[..1] == [publish] && [publish][..0] == [];
    var sys := Act(System(START, map[], []), id, publish);
    assert Acts(id, []) == System(START, map[], []) && LostMessages(id, []) == 0;
    assert Acts(id, [publish]) == sys && LostMessages(id, [publish]) == 0;
    PullsOne(sys.world.mail, id, topic, payload);
    var answer := [Message(topic, 1, payload)];
    assert AnswerAt(id, actions, 1) == answer;
    InboxConcat([], id, answer, id);
    assert [] + answer == answer && [] + Deliveries(id, answer) == Deliveries(id, answer);
  }
}
