/** The broadcast broker: clients subscribe and leave under the write lock, broadcasts walk the client
    set under the read lock and drop a message when a client's queue is full, clients receive from
    their own queue, and a leaving client closes its channel after giving the lock back. */
module Broker {

  const CAPACITY := 100

  type Client = nat
  type Message = string

  /** Ghost record: broadcast `b`, numbered in the order they begin, was offered to a client while
      `waiting` messages stood in its queue. */
  datatype Offer = Offer(b: nat, message: Message, waiting: nat)

  /** Ghost record of a broadcast: its message, the clients subscribed when it began and the
      broadcasts under way at that moment. */
  datatype Began = Began(message: Message, audience: set<Client>, overlapping: set<nat>)

  /** `active` maps a broadcast under way to the clients it has still to visit. */
  datatype World = World(
    clients: set<Client>, leaving: set<Client>, closed: set<Client>,
    queues: map<Client, seq<Message>>, received: map<Client, seq<Message>>,
    active: map<nat, set<Client>>, panicked: bool,
    began: seq<Began>, offers: map<Client, seq<Offer>>)

  const INITIAL := World({}, {}, {}, map[], map[], map[], false, [], map[])

  datatype Step =
    | Subscribe(c: Client)
    | Begin(message: Message)
    | Send(b: nat, c: Client)
    | End(b: nat)
    | Receive(c: Client)
    | Leave(c: Client)
    | Close(c: Client)

  /** Subscribing and leaving take the write lock, so they wait until no broadcast is under way. */
  predicate Enabled(w: World, step: Step) {
    match step
    case Subscribe(c) => w.active == map[] && c !in w.queues
    case Begin(_) => true
    case Send(b, c) => b in w.active && c in w.active[b] && c in w.queues && c in w.offers
    case End(b) => b in w.active && w.active[b] == {}
    case Receive(c) => c in w.clients && c in w.queues && c in w.received && w.queues[c] != []
    case Leave(c) => w.active == map[] && c in w.clients
    case Close(c) => c in w.leaving
  }

  /** A send on a closed channel panics. A send on a full queue is dropped. */
  function Apply(w: World, step: Step): World
    requires Enabled(w, step)
  {
    match step
    case Subscribe(c) =>
      w.(clients := w.clients + {c}, queues := w.queues[c := []], received := w.received[c := []],
         offers := w.offers[c := []])
    case Begin(message) =>
      w.(active := w.active[|w.began| := w.clients],
         began := w.began + [Began(message, w.clients, w.active.Keys)])
    case Send(b, c) =>
      var message := if b < |w.began| then w.began[b].message else "";
      var visited := w.(active := w.active[b := w.active[b] - {c}],
                        offers := w.offers[c := w.offers[c] + [Offer(b, message, |w.queues[c]|)]]);
      if c in w.closed then visited.(panicked := true)
      else if |w.queues[c]| < CAPACITY then visited.(queues := w.queues[c := w.queues[c] + [message]])
      else visited
    case End(b) => w.(active := w.active - {b})
    case Receive(c) =>
      w.(queues := w.queues[c := w.queues[c][1..]], received := w.received[c := w.received[c] + [w.queues[c][0]]])
    case Leave(c) => w.(clients := w.clients - {c}, leaving := w.leaving + {c})
    case Close(c) => w.(leaving := w.leaving - {c}, closed := w.closed + {c})
  }

  ghost predicate Execution(run: seq<Step>, trace: seq<World>) {
    && |trace| == |run| + 1
    && forall i :: 0 <= i < |run| ==> Enabled(trace[i], run[i]) && trace[i + 1] == Apply(trace[i], run[i])
  }

  // ---------------------------------------------------------------------------------------------
  // Safety
  // ---------------------------------------------------------------------------------------------

  /** While a broadcast is under way everyone it has to visit is still subscribed, and nobody who is
      subscribed has closed the channel. */
  ghost predicate Safe(w: World) {
    && !w.panicked
    && w.clients !! w.leaving !! w.closed
    && (forall b :: b in w.active ==> b < |w.began| && w.active[b] <= w.clients)
    && w.clients + w.leaving + w.closed <= w.queues.Keys
    && w.queues.Keys == w.received.Keys == w.offers.Keys
    && (forall c :: c in w.queues ==> |w.queues[c]| <= CAPACITY)
  }

  /** Each step keeps it: in particular no send reaches a closed channel and no queue overflows. */
  lemma StepKeepsSafe(w: World, step: Step)
    requires Safe(w) && Enabled(w, step)
    ensures Safe(Apply(w, step))
  {
  }

  // ---------------------------------------------------------------------------------------------
  // What a client gets
  // ---------------------------------------------------------------------------------------------

  /** The messages offered while there was room in the queue, in order. */
  function Delivered(offers: seq<Offer>): seq<Message> {
    if offers == [] then []
    else
      var o := offers[|offers| - 1];
      if o.waiting < 100 then Delivered(offers[..|offers| - 1]) + [o.message]
      else Delivered(offers[..|offers| - 1])
  }

  /** What a client has received and what waits in its queue is what was offered to it, with gaps
      only where its queue was full. */
  ghost predicate Conserved(w: World) {
    forall c :: c in w.queues && c in w.received && c in w.offers ==>
      w.received[c] + w.queues[c] == Delivered(w.offers[c])
  }

  lemma DeliveredStep(offers: seq<Offer>, o: Offer)
    ensures Delivered(offers + [o]) ==
            if o.waiting < CAPACITY then Delivered(offers) + [o.message] else Delivered(offers)
  {
    assert (offers + [o])[..|offers + [o]| - 1] == offers;
  }

  lemma SendKeepsConserved(w: World, b: nat, c: Client)
    requires Safe(w) && Conserved(w) && Enabled(w, Send(b, c))
    ensures Conserved(Apply(w, Send(b, c)))
  {
    var message := w.began[b].message;
    DeliveredStep(w.offers[c], Offer(b, message, |w.queues[c]|));
    assert w.received[c] + (w.queues[c] + [message]) == Delivered(w.offers[c]) + [message];
  }

  lemma StepKeepsConserved(w: World, step: Step)
    requires Safe(w) && Conserved(w) && Enabled(w, step)
    ensures Conserved(Apply(w, step))
  {
    match step
    case Send(b, c) => SendKeepsConserved(w, b, c);
    case Receive(c) =>
      assert w.received[c] + [w.queues[c][0]] + w.queues[c][1..] == w.received[c] + w.queues[c];
    case _ =>
  }

  /** A send to a subscribed client is dropped exactly when its queue is full. */
  lemma DroppedIffFull(w: World, b: nat, c: Client)
    requires Safe(w) && Enabled(w, Send(b, c))
    ensures var t := Apply(w, Send(b, c));
            && t.offers[c] == w.offers[c] + [Offer(b, w.began[b].message, |w.queues[c]|)]
            && (t.queues[c] == w.queues[c] <==> |w.queues[c]| == CAPACITY)
  {
  }

  ghost predicate OfferedTo(w: World, c: Client, b: nat) {
    c in w.offers && exists i :: 0 <= i < |w.offers[c]| && w.offers[c][i].b == b
  }

  ghost predicate Pending(w: World, c: Client, b: nat) {
    b in w.active && c in w.active[b]
  }

  ghost predicate InAudience(w: World, c: Client, b: nat) {
    b < |w.began| && c in w.began[b].audience
  }

  /** What a client is offered began while it was subscribed, carries its own message, and is over and
      done with for this client. */
  ghost predicate Sound(w: World) {
    && (forall c, i :: c in w.offers && 0 <= i < |w.offers[c]| ==>
          var o := w.offers[c][i];
          InAudience(w, c, o.b) && o.message == w.began[o.b].message && !Pending(w, c, o.b))
    && (forall c, b: nat :: Pending(w, c, b) ==> InAudience(w, c, b))
    && (forall c, b: nat :: InAudience(w, c, b) ==> c in w.offers)
  }

  ghost predicate OnceEach(w: World) {
    forall c, i, j :: c in w.offers && 0 <= i < j < |w.offers[c]| ==> w.offers[c][i].b != w.offers[c][j].b
  }

  /** A broadcast that began while a client was subscribed is offered to it or will be. */
  ghost predicate Total(w: World) {
    forall c, b: nat :: InAudience(w, c, b) ==> Pending(w, c, b) || OfferedTo(w, c, b)
  }

  /** Broadcasts are offered in the order they began, except to each other when they overlap. */
  ghost predicate InOrder(w: World) {
    && (forall b, x :: b in w.active && b < x < |w.began| ==> b in w.began[x].overlapping)
    && (forall c, i, j :: c in w.offers && 0 <= i < j < |w.offers[c]| ==>
          var x, y := w.offers[c][i].b, w.offers[c][j].b;
          x < y || (x < |w.began| && y in w.began[x].overlapping))
  }

  lemma StepKeepsSound(w: World, step: Step)
    requires Safe(w) && Sound(w) && OnceEach(w) && Enabled(w, step)
    ensures Sound(Apply(w, step)) && OnceEach(Apply(w, step))
  {
    var t := Apply(w, step);
    forall c, b: nat | InAudience(t, c, b)
      ensures c in t.offers
    {
      if !InAudience(w, c, b) {
        assert step.Begin? && c in w.clients;
      }
    }
    assert forall c, b: nat :: InAudience(w, c, b) ==> InAudience(t, c, b);
    forall c, b: nat | Pending(t, c, b)
      ensures InAudience(t, c, b)
    {
      assert Pending(w, c, b) || step.Begin?;
    }
    if step.Send? {
      SendKeepsSound(w, step.b, step.c);
    }
  }

  lemma SendKeepsSound(w: World, b: nat, c: Client)
    requires Safe(w) && Sound(w) && OnceEach(w) && Enabled(w, Send(b, c))
    ensures Sound(Apply(w, Send(b, c))) && OnceEach(Apply(w, Send(b, c)))
  {
    var t := Apply(w, Send(b, c));
    DroppedIffFull(w, b, c);
    assert Pending(w, c, b) && InAudience(w, c, b);
    forall d, i | d in t.offers && 0 <= i < |t.offers[d]|
      ensures var o := t.offers[d][i];
              InAudience(t, d, o.b) && o.message == t.began[o.b].message && !Pending(t, d, o.b)
    {
      if d != c || i < |w.offers[c]| {
        assert t.offers[d][i] == w.offers[d][i];
        assert InAudience(w, d, w.offers[d][i].b);
      }
    }
    forall d, x: nat | Pending(t, d, x)
      ensures InAudience(t, d, x)
    {
      assert Pending(w, d, x);
    }
    forall d, x: nat | InAudience(t, d, x)
      ensures d in t.offers
    {
      assert InAudience(w, d, x);
    }
  }

  lemma StepKeepsTotal(w: World, step: Step)
    requires Safe(w) && Sound(w) && Total(w) && Enabled(w, step)
    ensures Total(Apply(w, step))
  {
    var t := Apply(w, step);
    forall c, b: nat | InAudience(t, c, b)
      ensures Pending(t, c, b) || OfferedTo(t, c, b)
    {
      if step.Begin? && b == |w.began| {
        assert Pending(t, c, b);
      } else {
        assert InAudience(w, c, b);
        if OfferedTo(w, c, b) {
          var i :| 0 <= i < |w.offers[c]| && w.offers[c][i].b == b;
          assert c in w.queues;
          assert t.offers[c][i].b == b;
        } else if step.Send? && step.b == b && step.c == c {
          DroppedIffFull(w, b, c);
          assert t.offers[c][|w.offers[c]|].b == b;
        }
      }
    }
  }

  lemma StepKeepsInOrder(w: World, step: Step)
    requires Safe(w) && Sound(w) && InOrder(w) && Enabled(w, step)
    ensures InOrder(Apply(w, step))
  {
    var t := Apply(w, step);
    if step.Send? {
      var b, c := step.b, step.c;
      DroppedIffFull(w, b, c);
      forall i | 0 <= i < |w.offers[c]|
        ensures var x := w.offers[c][i].b; x < b || (x < |w.began| && b in w.began[x].overlapping)
      {
        assert Pending(w, c, b) && !Pending(w, c, w.offers[c][i].b) && InAudience(w, c, w.offers[c][i].b);
      }
    }
  }

  lemma {:induction false} ExecutionKeeps(run: seq<Step>, trace: seq<World>, n: nat)
    requires Execution(run, trace) && trace[0] == INITIAL && n <= |run|
    ensures Safe(trace[n]) && Conserved(trace[n]) && Sound(trace[n]) && OnceEach(trace[n])
    ensures Total(trace[n]) && InOrder(trace[n])
  {
    if n > 0 {
      var w, step := trace[n - 1], run[n - 1];
      ExecutionKeeps(run, trace, n - 1);
      StepKeepsSafe(w, step);
      StepKeepsConserved(w, step);
      StepKeepsSound(w, step);
      StepKeepsTotal(w, step);
      StepKeepsInOrder(w, step);
    }
  }

  // ---------------------------------------------------------------------------------------------
  // Main results
  // ---------------------------------------------------------------------------------------------

  /** In every interleaving no send reaches a closed channel, each queue stays within its capacity, and
      a client's received messages followed by its queued ones are those offered to it, in order, minus
      the ones that met a full queue; once nothing is pending for it, it was offered precisely the
      broadcasts that began while it was subscribed, each once. */
  lemma ClientStream(run: seq<Step>, trace: seq<World>, n: nat, c: Client)
    requires Execution(run, trace) && trace[0] == INITIAL && n <= |run| && c in trace[n].queues
    ensures var w := trace[n];
            && !w.panicked && |w.queues[c]| <= 100
            && c in w.received && c in w.offers
            && w.received[c] + w.queues[c] == Delivered(w.offers[c])
            && (forall b: nat :: !Pending(w, c, b) ==> (OfferedTo(w, c, b) <==> InAudience(w, c, b)))
            && OnceEach(w)
  {
    ExecutionKeeps(run, trace, n);
  }

  /** Two broadcasts are offered to a client out of order only if they overlapped: the one offered
      second was under way when the one offered first began. */
  lemma OutOfOrderOnlyIfOverlapping(run: seq<Step>, trace: seq<World>, n: nat, c: Client, i: nat, j: nat)
    requires Execution(run, trace) && trace[0] == INITIAL && n <= |run|
    requires c in trace[n].offers && i < j < |trace[n].offers[c]|
    ensures var first, second := trace[n].offers[c][i].b, trace[n].offers[c][j].b;
            && first < |trace[n].began|
            && (first < second || (second < first && second in trace[n].began[first].overlapping))
  {
    ExecutionKeeps(run, trace, n);
    assert InAudience(trace[n], c, trace[n].offers[c][i].b);
  }

  /** In particular broadcasts that never overlap reach every client in the order they began. */
  lemma SerialBroadcastsKeepOrder(run: seq<Step>, trace: seq<World>, n: nat, c: Client, i: nat, j: nat)
    requires Execution(run, trace) && trace[0] == INITIAL && n <= |run|
    requires forall x :: 0 <= x < |trace[n].began| ==> trace[n].began[x].overlapping == {}
    requires c in trace[n].offers && i < j < |trace[n].offers[c]|
    ensures trace[n].offers[c][i].b < trace[n].offers[c][j].b
  {
    OutOfOrderOnlyIfOverlapping(run, trace, n, c, i, j);
  }

  /** Two clients are subscribed and two broadcasts are under way, `left` still to be served. */
  function TwoUnderWay(x: Message, y: Message, left: map<nat, set<Client>>, offers: map<Client, seq<Offer>>,
                       queues: map<Client, seq<Message>>): World
  {
    World({0, 1}, {}, {}, queues, map[0 := [], 1 := []], left, false,
          [Began(x, {0, 1}, {}), Began(y, {0, 1}, {0})], offers)
  }

  lemma BothBegin(x: Message, y: Message, run: seq<Step>) returns (trace: seq<World>)
    requires run == [Subscribe(0), Subscribe(1), Begin(x), Begin(y)]
    ensures Execution(run, trace) && trace[0] == INITIAL
    ensures trace[4] == TwoUnderWay(x, y, map[0 := {0, 1}, 1 := {0, 1}], map[0 := [], 1 := []], map[0 := [], 1 := []])
  {
    var one := Apply(INITIAL, run[0]);
    var two := Apply(one, run[1]);
    assert two.clients == {0, 1} && two.active == map[] && two.active.Keys == {};
    assert two.queues == map[0 := [], 1 := []] && two.received == two.queues;
    assert two.offers == map[0 := [], 1 := []];
    var three := Apply(two, run[2]);
    assert three.active == map[0 := {0, 1}] && three.active.Keys == {0};
    var four := Apply(three, run[3]);
    assert four.active == map[0 := {0, 1}, 1 := {0, 1}];
    assert four.began == [Began(x, {0, 1}, {}), Began(y, {0, 1}, {0})];
    trace := [INITIAL, one, two, three, four];
  }

  lemma SentOneEach(x: Message, y: Message, run: seq<Step>, w: World) returns (trace: seq<World>)
    requires run == [Send(0, 0), Send(1, 1)]
    requires w == TwoUnderWay(x, y, map[0 := {0, 1}, 1 := {0, 1}], map[0 := [], 1 := []], map[0 := [], 1 := []])
    ensures Execution(run, trace) && trace[0] == w
    ensures OneEach(trace[2], x, y)
  {
    var one := Apply(w, run[0]);
    assert one.queues[0] == [x] && one.queues[1] == [] && one.active[0] == {1} && one.active[1] == {0, 1};
    var two := Apply(one, run[1]);
    assert two.queues[0] == [x] && two.queues[1] == [y] && two.active[0] == {1} && two.active[1] == {0};
    assert two.queues == map[0 := [x], 1 := [y]] && two.active == map[0 := {1}, 1 := {0}];
    assert two.offers.Keys == {0, 1};
    trace := [w, one, two];
  }

  /** Each client has the message that the other one is still to get. */
  predicate OneEach(w: World, x: Message, y: Message) {
    && w.closed == {} && w.queues == map[0 := [x], 1 := [y]] && w.active == map[0 := {1}, 1 := {0}]
    && w.began == [Began(x, {0, 1}, {}), Began(y, {0, 1}, {0})] && w.offers.Keys == {0, 1}
  }

  lemma SentTheOther(x: Message, y: Message, run: seq<Step>, w: World) returns (trace: seq<World>)
    requires run == [Send(1, 0), Send(0, 1)] && OneEach(w, x, y)
    ensures Execution(run, trace) && trace[0] == w
    ensures trace[2].queues == map[0 := [x, y], 1 := [y, x]]
  {
    var one := Apply(w, run[0]);
    assert w.queues[0] + [y] == [x, y] && w.queues[1] + [x] == [y, x];
    assert one.queues == map[0 := [x, y], 1 := [y]] && one.active[0] == {1};
    var two := Apply(one, run[1]);
    assert two.queues == map[0 := [x, y], 1 := [y, x]];
    trace := [w, one, two];
  }

  lemma Joined(run: seq<Step>, trace: seq<World>, more: seq<Step>, rest: seq<World>)
    requires Execution(run, trace) && Execution(more, rest) && trace[|run|] == rest[0]
    ensures Execution(run + more, trace + rest[1..])
  {
    var steps, worlds := run + more, trace + rest[1..];
    forall i | 0 <= i < |steps|
      ensures Enabled(worlds[i], steps[i]) && worlds[i + 1] == Apply(worlds[i], steps[i])
    {
      if i < |run| {
        assert worlds[i] == trace[i] && worlds[i + 1] == trace[i + 1];
      } else {
        assert worlds[i] == rest[i - |run|] && worlds[i + 1] == rest[i - |run| + 1];
      }
    }
  }

  /** Overlapping broadcasts can reach two clients in opposite orders, so the condition is needed. */
  lemma OverlappingBroadcastsMayDisagree(x: Message, y: Message)
    ensures exists run: seq<Step>, trace: seq<World> ::
              && Execution(run, trace) && trace[0] == INITIAL
              && trace[|run|].queues == map[0 := [x, y], 1 := [y, x]]
  {
    var begin, each, other := [Subscribe(0), Subscribe(1), Begin(x), Begin(y)], [Send(0, 0), Send(1, 1)],
                              [Send(1, 0), Send(0, 1)];
    var first := BothBegin(x, y, begin);
    var second := SentOneEach(x, y, each, first[4]);
    var third := SentTheOther(x, y, other, second[2]);
    Joined(begin, first, each, second);
    var run, trace := begin + each, first + second[1..];
    assert trace[|run|] == third[0];
    Joined(run, trace, other, third);
    assert (trace + third[1..])[|run + other|] == third[2];
  }
}
