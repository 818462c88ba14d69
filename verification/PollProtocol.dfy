/**
  The poll callbacks that drive pending PostgreSQL requests (functions/db/db_async_override.c): write
  the oldest request of a descriptor, then read its answer, then forget it.
*/
module PollProtocol {
  import opened Http
  import opened DbQueue

  datatype Kind = Query | Prepare

  const QUERY: string := "query"
  const PREPARE: string := "prepare"

  /** The name a request is queued under, and the kind of callback that the name selects. */
  function NameOf(kind: Kind): string { if kind.Query? then QUERY else PREPARE }

  function HandlerOf(name: string): Kind { if name == QUERY then Query else Prepare }

  /** cb_item: `id` stands for its connection and its two callbacks, and tells it from every other request. */
  datatype CbItem = CbItem(id: nat, written: bool)

  datatype Ready = Ready(readable: bool, writable: bool)

  /** What the write callback returned: a string, an array that starts with two strings, or neither. */
  datatype Reply = Text | TwoStrings | OtherReply

  /** What libpq answers: the first send, whether PQgetResult then has a result, and the second send. */
  datatype Sending = Sending(first: bool, result: bool, second: bool)

  /**
    What can happen: a submission, or a poll event.  `moves` is whether a push onto a full deque puts it
    elsewhere.  `inside` is what the PHP callback that the event runs does before it returns; it may submit
    requests and may run the event loop.  `stray` is what then lies at the address of the request the callback
    was asked for, if that request does not: another request's place, or none.
  */
  datatype Action =
    | Submit(fd: u16, kind: Kind, now: nat, moves: bool)
    | Poll(fd: u16, ready: Ready, busy: bool, reply: Reply, sending: Sending, inside: Actions, stray: Option<Place>)

  datatype Actions = Nothing | Then(first: Action, rest: Actions)

  /** What the outside sees, in order: `kind` is what was asked for, and `handler` is which callback did the work. */
  datatype Note =
    | Submitted(fd: u16, name: string, id: nat, kind: Kind)
    | AskedToWrite(fd: u16, name: string, id: nat, handler: Kind)
    | Written(fd: u16, name: string, id: nat, sending: Sending, handler: Kind, reply: Reply)
    | ReadBack(fd: u16, name: string, id: nat, handler: Kind)
    | Stopped(fd: u16)
    | Panicked(fd: u16)

  /**
    `fds` is the descriptor set that is never cleared, `polled` the descriptors with a running poll handle,
    `fronts` the addresses of the deques' first items, and `next` the number the next request gets.
  */
  datatype State = State(queues: map<u16, Queue<CbItem>>, fds: set<u16>, polled: set<u16>,
                         fronts: map<(u16, string), nat>, next: nat, log: seq<Note>)

  const Empty: State := State(map[], {}, {}, map[], 0, [])

  function QueueOf(s: State, k: u16): Queue<CbItem> {
    if k in s.queues then s.queues[k] else []
  }

  function SetQueue(s: State, k: u16, q: Queue<CbItem>): State { s.(queues := s.queues[k := q]) }

  function FrontOf(s: State, k: u16, name: string): nat {
    if (k, name) in s.fronts then s.fronts[(k, name)] else 0
  }

  function NewFront(s: State, k: u16, name: string): State {
    s.(fronts := s.fronts[(k, name) := FrontOf(s, k, name) + 1])
  }

  function Noted(s: State, n: Note): State { s.(log := s.log + [n]) }

  /** The add step of `pg_query_async` and `pg_prepare_async`. */
  function Submission(s: State, a: Action): State
    requires a.Submit?
  {
    var k, name := a.fd, NameOf(a.kind);
    var room := if Moves(QueueOf(s, k), name, a.moves) then NewFront(s, k, name) else s;
    var added := SetQueue(room, k, QueueOf(s, k) + [(name, CbItem(s.next, false))]).(next := s.next + 1);
    var begun := if k in s.fds then added else added.(fds := s.fds + {k}, polled := s.polled + {k});
    Noted(begun, Submitted(k, name, s.next, a.kind))
  }

  /** The reply that the callback for this kind needs before it sends the request. */
  predicate Accepts(handler: Kind, reply: Reply) {
    match handler case Query => reply.Text? case Prepare => reply.TwoStrings?
  }

  /** Whether the request counts as written, and whether libpq has taken it. */
  predicate Marks(s: Sending) { s.first || s.result || s.second }

  predicate Taken(s: Sending) { s.first || (!s.result && s.second) }

  /** The queue once `written` has been set in the `i`-th request of a name. */
  function MarkedAt(q: Queue<CbItem>, name: string, i: nat): Queue<CbItem> {
    if i < |Named(q, name)| then Replaced(q, name, i, Named(q, name)[i].(written := true)) else q
  }

  /** Setting `written` at an address. */
  function Hit(s: State, p: Option<Place>): State {
    match p
    case None => s
    case Some(p) => SetQueue(s, p.fd, MarkedAt(QueueOf(s, p.fd), p.name, p.index))
  }

  /** Where the address `front` leads: to the request in front as long as that has neither left nor moved. */
  function Leads(s: State, k: u16, name: string, front: nat, stray: Option<Place>): Option<Place> {
    if FrontOf(s, k, name) == front then Some(Place(k, name, 0)) else stray
  }

  /** The event asks for a write, and the request will be marked when its callback returns. */
  predicate WillMark(a: Action, name: string)
    requires a.Poll?
  {
    Accepts(HandlerOf(name), a.reply) && Marks(a.sending)
  }

  /** The end of the write branch, once the callback that was asked for `item`, then at `front`, has returned. */
  function Sent(s: State, a: Action, item: (string, CbItem), front: nat): State
    requires a.Poll?
  {
    if !WillMark(a, item.0) then s
    else
      Noted(Hit(s, Leads(s, a.fd, item.0, front, a.stray)),
            Written(a.fd, item.0, item.1.id, a.sending, HandlerOf(item.0), a.reply))
  }

  /** The end of the read branch, once its callback has returned. */
  function Removed(s: State, k: u16): State {
    var q := QueueOf(s, k);
    if q == [] then Noted(s, Panicked(k)) else SetQueue(NewFront(s, k, q[0].0), k, q[1..])
  }

  /** Whether an event asks for a write, or reads, when this is the oldest request. */
  predicate Asks(a: Action, oldest: CbItem)
    requires a.Poll?
  {
    a.ready.writable && !oldest.written && !a.busy
  }

  predicate Reads(a: Action, oldest: CbItem)
    requires a.Poll?
  {
    !Asks(a, oldest) && a.ready.readable && oldest.written
  }

  /** The state in which the write callback of the oldest request starts, and the one for the read callback. */
  function Asking(s: State, k: u16): State
    requires QueueOf(s, k) != []
  {
    Noted(s, AskedToWrite(k, QueueOf(s, k)[0].0, QueueOf(s, k)[0].1.id, HandlerOf(QueueOf(s, k)[0].0)))
  }

  function Reading(s: State, k: u16): State
    requires QueueOf(s, k) != []
  {
    Noted(s, ReadBack(k, QueueOf(s, k)[0].0, QueueOf(s, k)[0].1.id, HandlerOf(QueueOf(s, k)[0].0)))
  }

  /** `pg_poll_cb` with the two callbacks it chooses from; without a running handle there is no event. */
  function Polled(s: State, a: Action): State
    requires a.Poll?
    decreases a
  {
    var k, q := a.fd, QueueOf(s, a.fd);
    if k !in s.polled then s
    else if q == [] then Noted(s.(polled := s.polled - {k}), Stopped(k))
    else if q[0].0 != QUERY && q[0].0 != PREPARE then s
    else if Asks(a, q[0].1) then Sent(Do(Asking(s, k), a.inside), a, q[0], FrontOf(s, k, q[0].0))
    else if Reads(a, q[0].1) then Removed(Do(Reading(s, k), a.inside), k)
    else s
  }

  function Do(s: State, acts: Actions): State
    decreases acts
  {
    match acts
    case Nothing => s
    case Then(a, rest) => Do(if a.Submit? then Submission(s, a) else Polled(s, a), rest)
  }

  // ---------------------------------------------------------------- what the log shows of a descriptor

  datatype Which = InSubmits | InWrites | InReads

  function Shown(n: Note, k: u16, w: Which): seq<(string, nat)> {
    match n
    case Submitted(fd, name, id, _) => if fd == k && w.InSubmits? then [(name, id)] else []
    case Written(fd, name, id, _, _, _) => if fd == k && w.InWrites? then [(name, id)] else []
    case ReadBack(fd, name, id, _) => if fd == k && w.InReads? then [(name, id)] else []
    case _ => []
  }

  /** The requests submitted, written or read on a descriptor, each with the name that handled it. */
  function Pick(log: seq<Note>, k: u16, w: Which): seq<(string, nat)>
    decreases |log|
  {
    if log == [] then [] else Pick(log[..|log| - 1], k, w) + Shown(log[|log| - 1], k, w)
  }

  lemma PickNoted(log: seq<Note>, n: Note, k: u16, w: Which)
    ensures Pick(log + [n], k, w) == Pick(log, k, w) + Shown(n, k, w)
  {
    assert (log + [n])[..|log|] == log;
  }

  lemma PicksNoted(s: State, n: Note, k: u16)
    ensures forall w :: Pick(Noted(s, n).log, k, w) == Pick(s.log, k, w) + Shown(n, k, w)
  {
    forall w { PickNoted(s.log, n, k, w); }
  }

  // ---------------------------------------------------------------- the callbacks themselves

  class Poller {
    const store: PgStore<CbItem>
    var fds: set<u16>
    var polled: set<u16>
    var next: nat
    ghost var log: seq<Note>

    /** The callbacks and the storage are in this state. */
    ghost predicate Is(s: State)
      reads this, store
    {
      && store.Valid() && fds == s.fds && polled == s.polled && next == s.next && log == s.log
      && (forall k: u16 :: store.Pending(k) == QueueOf(s, k))
      && forall k: u16, name :: store.FrontOf(k, name) == FrontOf(s, k, name)
    }

    constructor ()
      ensures Is(Empty) && fresh(store)
    {
      store := new PgStore<CbItem>();
      fds, polled, next, log := {}, {}, 0, [];
    }

    /** The add step: the request is queued, and the first one of a descriptor starts its poll handle. */
    method Add(a: Action, ghost s: State)
      requires Is(s) && a.Submit?
      modifies this, store
      ensures Is(Submission(s, a))
      ensures var name := match a.kind case Query => "query" case Prepare => "prepare";
              && store.Pending(a.fd) == old(store.Pending(a.fd)) + [(name, CbItem(old(next), false))]
              && log == old(log) + [Submitted(a.fd, name, old(next), a.kind)]
      ensures polled == if a.fd in old(fds) then old(polled) else old(polled) + {a.fd}
    {
      hide PgStore.Valid, PgStore.Pending, PgStore.FrontOf;
      var k := a.fd;
      store.PgAddItem(NameOf(a.kind), k, CbItem(next, false), a.now, a.moves);
      if k !in fds {
        fds := fds + {k};
        polled := polled + {k};
      }
      log := log + [Submitted(k, NameOf(a.kind), next, a.kind)];
      next := next + 1;
    }

    /** `pgGetItem->written = 1`, through the reference from before the callback. */
    method SetWritten(at: Reference, stray: Option<Place>, ghost s: State)
      requires Is(s)
      modifies store
      ensures Is(Hit(s, Leads(s, at.fd, at.name, at.front, stray)))
    {
      hide PgStore.Valid, PgStore.Pending, PgStore.FrontOf, Named, Replaced;
      var place := store.Leads(at, stray);
      if place.Some? {
        var item := store.ItemAt(place.value);
        if item.Some? { store.WriteItem(place.value, item.value.(written := true)); }
      }
    }

    /** `pg_get_and_remove_item`, at the end of the read branch. */
    method RemoveOldest(k: u16, ghost s: State)
      requires Is(s)
      modifies this, store
      ensures Is(Removed(s, k))
    {
      hide PgStore.Valid, PgStore.Pending, PgStore.FrontOf;
      var removed := store.PgGetAndRemoveItem(k);
      if removed.None? { log := log + [Panicked(k)]; }
    }

    /** `query_poll_cb` and `prepare_poll_cb`: they differ in the reply they accept. */
    method PollCb(a: Action, handler: Kind, ghost s: State)
      requires Is(s) && a.Poll? && a.fd in polled && QueueOf(s, a.fd) != []
      requires QueueOf(s, a.fd)[0].0 == match handler case Query => "query" case Prepare => "prepare"
      modifies this, store
      ensures Is(Polled(s, a))
      decreases a, 0
    {
      hide PgStore.Valid, PgStore.Pending, PgStore.FrontOf;
      var got, at := store.PgGetItem(a.fd);
      var item := got.value;
      if a.ready.writable && !item.written && !a.busy {
        hide Do, Hit, Leads;
        log := log + [AskedToWrite(a.fd, NameOf(handler), item.id, handler)];
        Inside(a.inside, Asking(s, a.fd));
        if if handler.Query? then a.reply.Text? else a.reply.TwoStrings? {
          if !a.sending.first {
            if !a.sending.result {
              if !a.sending.second { return; }
            }
          }
          SetWritten(at, a.stray, Do(Asking(s, a.fd), a.inside));
          log := log + [Written(a.fd, NameOf(handler), item.id, a.sending, handler, a.reply)];
        }
      } else if a.ready.readable && item.written {
        hide Do, Removed;
        log := log + [ReadBack(a.fd, NameOf(handler), item.id, handler)];
        Inside(a.inside, Reading(s, a.fd));
        RemoveOldest(a.fd, Do(Reading(s, a.fd), a.inside));
      }
    }

    /** `pg_poll_cb`: stop on an empty queue, otherwise choose the callback by the oldest request's name. */
    method PgPollCb(a: Action, ghost s: State)
      requires Is(s) && a.Poll? && a.fd in polled
      modifies this, store
      ensures Is(Polled(s, a))
      decreases a, 1
    {
      hide PgStore.Valid, PgStore.Pending, PgStore.FrontOf, Do;
      var has := store.PgHasItem(a.fd);
      if !has {
        polled := polled - {a.fd};
        log := log + [Stopped(a.fd)];
        return;
      }
      var name := store.PgGetFuncName(a.fd);
      if name == Some(QUERY) {
        PollCb(a, Query, s);
      } else if name == Some(PREPARE) {
        PollCb(a, Prepare, s);
      }
    }

    /** A run of the event loop, from outside or from inside a callback: only running handles get events. */
    method Inside(acts: Actions, ghost s: State)
      requires Is(s)
      modifies this, store
      ensures Is(Do(s, acts))
      decreases acts, 2
    {
      match acts
      case Nothing =>
      case Then(a, rest) =>
        if a.Submit? {
          Add(a, s);
          Inside(rest, Submission(s, a));
        } else {
          if a.fd in polled { PgPollCb(a, s); }
          Inside(rest, Polled(s, a));
        }
    }
  }
}
