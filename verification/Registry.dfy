/** Fan-out of the upstream stream to websocket clients over a bounded broadcast ring. */
module Registry {
  import opened Wrappers
  import opened Arithmetic

  type Message = string

  datatype Cause = Closed | Lagged | SendFailed | Disconnected

  /** What happens around one client: the upstream sends or goes away, the client's receive branch is
      picked (and the websocket write succeeds or not), or its reader signals a disconnect. */
  datatype Event = Upstream(m: Message) | UpstreamGone | Ready(writes: bool) | ReaderGone

  // ---- The ring ----

  datatype Received = Got(m: Message) | Pending | Ended | Missed

  class Broadcast {
    const slots: array<Message>
    var tail: nat
    var closed: bool
    ghost var sent: seq<Message>

    /** The ring holds the last slots.Length messages, message p in slot p modulo the capacity. */
    ghost predicate Valid()
      reads this, slots
    {
      && slots.Length > 0
      && tail == |sent|
      && forall p | 0 <= p < tail && tail - slots.Length <= p :: slots[p % slots.Length] == sent[p]
    }

    constructor (capacity: nat)
      requires capacity > 0
      ensures Valid() && sent == [] && !closed && slots.Length == capacity && fresh(slots)
    {
      slots := new Message[capacity](_ => "");
      tail, closed, sent := 0, false, [];
    }

    /** Overwrites the oldest message once the ring is full; after close nothing is sent. */
    method Send(m: Message)
      requires Valid()
      modifies this, slots
      ensures Valid() && closed == old(closed)
      ensures sent == if closed then old(sent) else old(sent) + [m]
    {
      if !closed {
        forall p | 0 <= p < tail && tail + 1 - slots.Length <= p
          ensures p % slots.Length != tail % slots.Length
        {
          SameSlot(p, tail, slots.Length);
        }
        slots[tail % slots.Length] := m;
        tail := tail + 1;
        sent := sent + [m];
      }
    }

    method Close()
      requires Valid()
      modifies this`closed
      ensures Valid() && closed
    {
      closed := true;
    }

    /** What a receiver at position next sees. */
    method Receive(next: nat) returns (r: Received)
      requires Valid() && next <= tail
      ensures r == ReceiveAt(slots.Length, sent, closed, next)
    {
      if next == tail {
        r := if closed then Ended else Pending;
      } else if tail - next > slots.Length {
        r := Missed;
      } else {
        r := Got(slots[next % slots.Length]);
      }
    }
  }

  /** Two positions less than a ring apart never share a slot. */
  lemma SameSlot(p: nat, q: nat, n: nat)
    requires n > 0 && p < q && q - p < n
    ensures p % n != q % n
  {
    var k, r := p / n, p % n + (q - p);
    DivMod(p, n);
    assert q == k * n + r;
    if r < n {
      Remainder(q, n, k, r);
    } else {
      NextMultiple(k, n);
      Remainder(q, n, k + 1, r - n);
    }
  }

  /** The same, from the whole stream and without a ring. */
  function ReceiveAt(capacity: nat, sent: seq<Message>, closed: bool, next: nat): Received
    requires next <= |sent|
  {
    if next == |sent| then if closed then Ended else Pending
    else if |sent| - next > capacity then Missed
    else Got(sent[next])
  }

  // ---- One client's session ----

  datatype Session = Session(
    sent: seq<Message>,
    closed: bool,
    next: nat,
    delivered: seq<Message>,
    ended: Option<Cause>)

  function Subscribed(sent: seq<Message>, closed: bool): Session {
    Session(sent, closed, |sent|, [], None)
  }

  function React(capacity: nat, s: Session, e: Event): (t: Session)
    requires s.next <= |s.sent|
    ensures t.next <= |t.sent|
  {
    match e
    case Upstream(m) => if s.closed then s else s.(sent := s.sent + [m])
    case UpstreamGone => s.(closed := true)
    case ReaderGone => if s.ended.Some? then s else s.(ended := Some(Disconnected))
    case Ready(writes) =>
      if s.ended.Some? then s
      else match ReceiveAt(capacity, s.sent, s.closed, s.next)
        case Pending => s
        case Ended => s.(ended := Some(Closed))
        case Missed => s.(ended := Some(Lagged))
        case Got(m) =>
          if writes then s.(next := s.next + 1, delivered := s.delivered + [m])
          else s.(next := s.next + 1, ended := Some(SendFailed))
  }

  ghost function Reacted(capacity: nat, s: Session, events: seq<Event>): (t: Session)
    requires s.next <= |s.sent|
    ensures t.next <= |t.sent|
    decreases |events|
  {
    if events == [] then s
    else React(capacity, Reacted(capacity, s, events[..|events| - 1]), events[|events| - 1])
  }

  /** The delivery loop of one client. Upstream activity keeps going after the loop has ended. */
  method Subscribe(ring: Broadcast, events: seq<Event>) returns (delivered: seq<Message>, ended: Option<Cause>)
    requires ring.Valid()
    modifies ring, ring.slots
    ensures ring.Valid()
    ensures var s := Reacted(ring.slots.Length, Subscribed(old(ring.sent), old(ring.closed)), events);
            s.sent == ring.sent && s.closed == ring.closed && s.delivered == delivered && s.ended == ended
  {
    var next: nat := ring.tail;
    delivered, ended := [], None;
    ghost var start := Subscribed(ring.sent, ring.closed);
    for i := 0 to |events|
      invariant ring.Valid() && next <= ring.tail
      invariant Session(ring.sent, ring.closed, next, delivered, ended)
             == Reacted(ring.slots.Length, start, events[..i])
    {
      assert events[..i + 1][..i] == events[..i];
      match events[i] {
        case Upstream(m) => ring.Send(m);
        case UpstreamGone => ring.Close();
        case ReaderGone =>
          if ended.None? {
            ended := Some(Disconnected);
          }
        case Ready(writes) =>
          if ended.None? {
            var r := ring.Receive(next);
            match r {
              case Pending =>
              case Ended => ended := Some(Closed);
              case Missed => ended := Some(Lagged);
              case Got(m) =>
                next := next + 1;
                if writes {
                  delivered := delivered + [m];
                } else {
                  ended := Some(SendFailed);
                }
            }
          }
      }
    }
    assert events[..|events|] == events;
  }

  /** What the loop keeps, for a client that subscribed at position start. */
  ghost predicate Contiguous(capacity: nat, s: Session, start: nat) {
    && start + |s.delivered| <= s.next <= |s.sent|
    && s.delivered == s.sent[start..start + |s.delivered|]
    && (s.ended != Some(SendFailed) ==> s.next == start + |s.delivered|)
    && (s.ended == Some(SendFailed) ==> s.next == start + |s.delivered| + 1)
    && (s.ended == Some(Closed) ==> s.closed && s.next == |s.sent|)
    && (s.ended == Some(Lagged) ==> |s.sent| - s.next > capacity)
  }

  lemma ContiguousStep(capacity: nat, s: Session, e: Event, start: nat)
    requires Contiguous(capacity, s, start)
    ensures Contiguous(capacity, React(capacity, s, e), start)
  {
    var t := React(capacity, s, e);
    assert s.sent <= t.sent;
    assert t.sent[start..start + |s.delivered|] == s.delivered;
    if |t.delivered| > |s.delivered| {
      assert t.sent[start..s.next + 1] == t.sent[start..s.next] + [t.sent[s.next]];
    }
  }

  /** Gap-free fan-out: whatever the upstream, the client and the scheduler do, the messages delivered
      to a client are a contiguous slice of the stream from the moment it subscribed. A client that was
      ended by close received everything; one that was ended for lag had more than a ring of messages
      outstanding; a failed write loses only the message it was writing. */
  lemma {:induction false} GapFree(capacity: nat, sent: seq<Message>, closed: bool, events: seq<Event>)
    ensures Contiguous(capacity, Reacted(capacity, Subscribed(sent, closed), events), |sent|)
    decreases |events|
  {
    if events == [] {
    } else {
      var front := events[..|events| - 1];
      GapFree(capacity, sent, closed, front);
      ContiguousStep(capacity, Reacted(capacity, Subscribed(sent, closed), front), events[|events| - 1], |sent|);
    }
  }

  // ---- What delivers and what ends the loop ----

  /** How many messages are waiting for the client. */
  function Waiting(s: Session): int {
    |s.sent| - s.next
  }

  /** The event writes a message to the client, and the write succeeds. */
  predicate Delivers(capacity: nat, s: Session, e: Event) {
    s.ended.None? && e == Ready(true) && 0 < Waiting(s) <= capacity
  }

  /** The event ends the running loop for this cause. */
  predicate EndsFor(capacity: nat, s: Session, e: Event, c: Cause) {
    s.ended.None? &&
    match c
    case SendFailed => e == Ready(false) && 0 < Waiting(s) <= capacity
    case Disconnected => e == ReaderGone
    case Closed => e.Ready? && s.closed && Waiting(s) == 0
    case Lagged => e.Ready? && Waiting(s) > capacity
  }

  lemma StepDelivers(capacity: nat, s: Session, e: Event)
    requires s.next <= |s.sent|
    ensures var t := React(capacity, s, e);
            if Delivers(capacity, s, e)
            then t.delivered == s.delivered + [s.sent[s.next]] && t.next == s.next + 1 && t.ended.None?
            else t.delivered == s.delivered
  {
  }

  lemma StepEnds(capacity: nat, s: Session, e: Event, c: Cause)
    requires s.next <= |s.sent|
    ensures React(capacity, s, e).ended == Some(c) <==> s.ended == Some(c) || EndsFor(capacity, s, e, c)
  {
  }

  ghost function At(capacity: nat, sent: seq<Message>, closed: bool, events: seq<Event>, k: nat): (s: Session)
    requires k <= |events|
    ensures s.next <= |s.sent|
  {
    Reacted(capacity, Subscribed(sent, closed), events[..k])
  }

  lemma AtStep(capacity: nat, sent: seq<Message>, closed: bool, events: seq<Event>, k: nat)
    requires k < |events|
    ensures At(capacity, sent, closed, events, k + 1)
         == React(capacity, At(capacity, sent, closed, events, k), events[k])
  {
    assert events[..k + 1][..k] == events[..k];
  }

  /** Event k ends the running loop for this cause. */
  ghost predicate EndsAt(capacity: nat, sent: seq<Message>, closed: bool, events: seq<Event>, k: nat, c: Cause) {
    k < |events| && EndsFor(capacity, At(capacity, sent, closed, events, k), events[k], c)
  }

  lemma EndedStep(capacity: nat, sent: seq<Message>, closed: bool, events: seq<Event>, k: nat, c: Cause)
    requires k < |events|
    ensures At(capacity, sent, closed, events, k + 1).ended == Some(c)
       <==> At(capacity, sent, closed, events, k).ended == Some(c) || EndsAt(capacity, sent, closed, events, k, c)
  {
    AtStep(capacity, sent, closed, events, k);
    StepEnds(capacity, At(capacity, sent, closed, events, k), events[k], c);
  }

  lemma {:induction false} EndedBy(capacity: nat, sent: seq<Message>, closed: bool, events: seq<Event>, n: nat,
                                   c: Cause)
    requires n <= |events|
    ensures At(capacity, sent, closed, events, n).ended == Some(c)
       <==> exists k: nat :: k < n && EndsAt(capacity, sent, closed, events, k, c)
    decreases n
  {
    if n == 0 {
      assert events[..0] == [];
    } else {
      EndedBy(capacity, sent, closed, events, n - 1, c);
      EndedStep(capacity, sent, closed, events, n - 1, c);
    }
  }

  /** Exactly why a client's loop ends, in every run: for a failed write, exactly when its turn came with a
      message within reach and the write failed; for a disconnect, exactly when its reader went away; for
      the close, exactly when its turn came with the stream closed and drained; for lag, exactly when its
      turn came with more messages waiting than the ring holds. */
  lemma EndedIff(capacity: nat, sent: seq<Message>, closed: bool, events: seq<Event>, c: Cause)
    ensures Reacted(capacity, Subscribed(sent, closed), events).ended == Some(c)
       <==> exists k: nat :: EndsAt(capacity, sent, closed, events, k, c)
  {
    EndedBy(capacity, sent, closed, events, |events|, c);
    assert events[..|events|] == events;
  }

  /** The number of turns that deliver among the first n events. */
  ghost function Turns(capacity: nat, sent: seq<Message>, closed: bool, events: seq<Event>, n: nat): nat
    requires n <= |events|
  {
    if n == 0 then 0
    else Turns(capacity, sent, closed, events, n - 1)
         + if Delivers(capacity, At(capacity, sent, closed, events, n - 1), events[n - 1]) then 1 else 0
  }

  lemma {:induction false} DeliveredCount(capacity: nat, sent: seq<Message>, closed: bool, events: seq<Event>,
                                          n: nat)
    requires n <= |events|
    ensures |At(capacity, sent, closed, events, n).delivered| == Turns(capacity, sent, closed, events, n)
    decreases n
  {
    if n == 0 {
      assert events[..0] == [];
    } else {
      DeliveredCount(capacity, sent, closed, events, n - 1);
      AtStep(capacity, sent, closed, events, n - 1);
      StepDelivers(capacity, At(capacity, sent, closed, events, n - 1), events[n - 1]);
    }
  }

  /** Exactly what a client has received, in every run: one message of the stream per delivering turn, from
      the one after its subscription on. */
  lemma DeliveredIs(capacity: nat, sent: seq<Message>, closed: bool, events: seq<Event>)
    ensures var s, n := Reacted(capacity, Subscribed(sent, closed), events),
                        Turns(capacity, sent, closed, events, |events|);
            |sent| + n <= |s.sent| && s.delivered == s.sent[|sent|..|sent| + n]
  {
    GapFree(capacity, sent, closed, events);
    DeliveredCount(capacity, sent, closed, events, |events|);
    assert events[..|events|] == events;
  }

  /** A client that is not behind by more than a ring and whose writes succeed needs one turn per waiting
      message to have received everything sent since it subscribed, and is still connected then. */
  lemma {:induction false} CatchesUp(capacity: nat, s: Session, start: nat, turns: seq<Event>)
    requires Contiguous(capacity, s, start) && s.ended.None? && |turns| == Waiting(s) <= capacity
    requires forall k | 0 <= k < |turns| :: turns[k] == Ready(true)
    ensures var t := Reacted(capacity, s, turns); t.delivered == s.sent[start..] && t.ended.None? && t.sent == s.sent
  {
    TurnsTaken(capacity, s, start, turns, |turns|);
    assert turns[..|turns|] == turns;
  }

  lemma {:induction false} TurnsTaken(capacity: nat, s: Session, start: nat, turns: seq<Event>, n: nat)
    requires Contiguous(capacity, s, start) && s.ended.None? && n <= |turns| == Waiting(s) <= capacity
    requires forall k | 0 <= k < |turns| :: turns[k] == Ready(true)
    ensures var t := Reacted(capacity, s, turns[..n]);
            && t.sent == s.sent && t.next == s.next + n && t.ended.None?
            && t.delivered == s.sent[start..start + |s.delivered| + n]
    decreases n
  {
    if n == 0 {
      assert turns[..0] == [];
    } else {
      TurnsTaken(capacity, s, start, turns, n - 1);
      assert turns[..n][..n - 1] == turns[..n - 1];
      StepDelivers(capacity, Reacted(capacity, s, turns[..n - 1]), turns[n - 1]);
      SliceMore(s.sent, start, s.next + n - 1);
    }
  }

  lemma SliceMore(sent: seq<Message>, a: nat, b: nat)
    requires a <= b < |sent|
    ensures sent[a..b + 1] == sent[a..b] + [sent[b]]
  {
  }

  // ---- Any number of clients on one ring ----

  datatype Client = Client(start: nat, wasClosed: bool, next: nat, delivered: seq<Message>, ended: Option<Cause>)

  datatype Hub = Hub(sent: seq<Message>, closed: bool, clients: map<nat, Client>)

  const OPENED := Hub([], false, map[])

  /** What happens on the ring: the upstream's activity, a client joining, or one client's own event. */
  datatype HubEvent = Sent(m: Message) | Gone | Joined(c: nat) | Own(c: nat, e: Event)

  ghost predicate Sound(h: Hub) {
    forall c | c in h.clients :: h.clients[c].start <= |h.sent| && h.clients[c].next <= |h.sent|
  }

  /** The ring and the client's own variables, as the client's loop sees them. */
  function SessionOf(h: Hub, c: nat): Session
    requires c in h.clients
  {
    var x := h.clients[c];
    Session(h.sent, h.closed, x.next, x.delivered, x.ended)
  }

  /** The client's own variables after one of its events. */
  function Updated(capacity: nat, h: Hub, c: nat, e: Event): Client
    requires c in h.clients && h.clients[c].next <= |h.sent|
  {
    var t := React(capacity, SessionOf(h, c), e);
    h.clients[c].(next := t.next, delivered := t.delivered, ended := t.ended)
  }

  predicate IsOwn(e: Event) {
    e.Ready? || e.ReaderGone?
  }

  ghost function HubStep(capacity: nat, h: Hub, x: HubEvent): (t: Hub)
    requires Sound(h)
    ensures Sound(t)
  {
    match x
    case Sent(m) => if h.closed then h else h.(sent := h.sent + [m])
    case Gone => h.(closed := true)
    case Joined(c) =>
      if c in h.clients then h
      else h.(clients := h.clients[c := Client(|h.sent|, h.closed, |h.sent|, [], None)])
    case Own(c, e) =>
      if c in h.clients && IsOwn(e) then h.(clients := h.clients[c := Updated(capacity, h, c, e)]) else h
  }

  ghost function HubRun(capacity: nat, xs: seq<HubEvent>): (h: Hub)
    ensures Sound(h)
    decreases |xs|
  {
    if xs == [] then OPENED else HubStep(capacity, HubRun(capacity, xs[..|xs| - 1]), xs[|xs| - 1])
  }

  /** The events a client sees after it joined. */
  ghost function Seen(capacity: nat, xs: seq<HubEvent>, c: nat): seq<Event>
    decreases |xs|
  {
    if xs == [] || c !in HubRun(capacity, xs[..|xs| - 1]).clients then []
    else
      var before := Seen(capacity, xs[..|xs| - 1], c);
      match xs[|xs| - 1]
      case Sent(m) => before + [Upstream(m)]
      case Gone => before + [UpstreamGone]
      case Joined(_) => before
      case Own(other, e) => if other == c && IsOwn(e) then before + [e] else before
  }

  lemma ReactedMore(capacity: nat, s: Session, events: seq<Event>, e: Event)
    requires s.next <= |s.sent|
    ensures Reacted(capacity, s, events + [e]) == React(capacity, Reacted(capacity, s, events), e)
  {
    assert (events + [e])[..|events|] == events;
  }

  /** The state a client joined in. */
  ghost function Joining(h: Hub, c: nat): Session
    requires c in h.clients && h.clients[c].start <= |h.sent|
  {
    Subscribed(h.sent[..h.clients[c].start], h.clients[c].wasClosed)
  }

  /** One step of the hub is, for a client that has joined, one step of its own session or none. */
  lemma HubStepSeen(capacity: nat, h: Hub, x: HubEvent, c: nat)
    requires Sound(h) && c in h.clients
    ensures var t := HubStep(capacity, h, x);
            && c in t.clients && Joining(t, c) == Joining(h, c)
            && SessionOf(t, c) == (match x
                                   case Sent(m) => React(capacity, SessionOf(h, c), Upstream(m))
                                   case Gone => React(capacity, SessionOf(h, c), UpstreamGone)
                                   case Joined(_) => SessionOf(h, c)
                                   case Own(d, e) =>
                                     if d == c && IsOwn(e) then React(capacity, SessionOf(h, c), e)
                                     else SessionOf(h, c))
  {
    var t := HubStep(capacity, h, x);
    assert t.sent[..h.clients[c].start] == h.sent[..h.clients[c].start];
  }

  /** In every run of the ring with any number of clients, each client's session is its own delivery loop
      over what it has seen since it joined. */
  lemma {:induction false} EachIsASession(capacity: nat, xs: seq<HubEvent>, c: nat)
    requires c in HubRun(capacity, xs).clients
    ensures var h := HubRun(capacity, xs);
            SessionOf(h, c) == Reacted(capacity, Joining(h, c), Seen(capacity, xs, c))
    decreases |xs|
  {
    var front, x := xs[..|xs| - 1], xs[|xs| - 1];
    var h := HubRun(capacity, front);
    if c !in h.clients {
      assert HubRun(capacity, xs).sent[..|h.sent|] == h.sent;
    } else {
      EachIsASession(capacity, front, c);
      HubStepSeen(capacity, h, x, c);
      var joining, seen := Joining(h, c), Seen(capacity, front, c);
      match x
      case Sent(m) => ReactedMore(capacity, joining, seen, Upstream(m));
      case Gone => ReactedMore(capacity, joining, seen, UpstreamGone);
      case Joined(_) =>
      case Own(_, e) => ReactedMore(capacity, joining, seen, e);
    }
  }

  /** What a client has received is the part of the ring's one stream that starts where it joined. */
  lemma ReceivedFromJoin(capacity: nat, xs: seq<HubEvent>, c: nat)
    requires c in HubRun(capacity, xs).clients
    ensures var h := HubRun(capacity, xs);
            Contiguous(capacity, SessionOf(h, c), h.clients[c].start)
  {
    var h := HubRun(capacity, xs);
    EachIsASession(capacity, xs, c);
    GapFree(capacity, h.sent[..h.clients[c].start], h.clients[c].wasClosed, Seen(capacity, xs, c));
  }

  /** Clients never disagree: in every run, whenever they joined and however they were scheduled or ended,
      any two clients received the same message at every position that both received. */
  lemma ClientsAgree(capacity: nat, xs: seq<HubEvent>, a: nat, b: nat, p: nat)
    requires a in HubRun(capacity, xs).clients && b in HubRun(capacity, xs).clients
    requires var x := HubRun(capacity, xs).clients[a]; x.start <= p < x.start + |x.delivered|
    requires var y := HubRun(capacity, xs).clients[b]; y.start <= p < y.start + |y.delivered|
    ensures var h := HubRun(capacity, xs);
            var x, y := h.clients[a], h.clients[b];
            p < |h.sent| && x.delivered[p - x.start] == y.delivered[p - y.start] == h.sent[p]
  {
    ReceivedFromJoin(capacity, xs, a);
    ReceivedFromJoin(capacity, xs, b);
    var h := HubRun(capacity, xs);
    PositionOf(capacity, SessionOf(h, a), h.clients[a].start, p);
    PositionOf(capacity, SessionOf(h, b), h.clients[b].start, p);
  }

  lemma PositionOf(capacity: nat, s: Session, start: nat, p: nat)
    requires Contiguous(capacity, s, start) && start <= p < start + |s.delivered|
    ensures s.delivered[p - start] == s.sent[p]
  {
  }
}
