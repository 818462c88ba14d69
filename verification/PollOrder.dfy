/**
  What the poll callbacks keep over whole runs, and exactly when they keep it: event loops run inside
  callbacks included, to any depth.
*/
module PollOrder {
  import opened Http
  import opened DbQueue
  import opened PollProtocol

  // ---------------------------------------------------------------- order, at every moment

  /**
    At one moment: what has been read is the beginning of what has been written, that is the beginning
    of what has been submitted, and at most one request is written but not yet read.
  */
  predicate InOrder(log: seq<Note>, k: u16) {
    && Pick(log, k, InReads) <= Pick(log, k, InWrites) <= Pick(log, k, InSubmits)
    && |Pick(log, k, InWrites)| <= |Pick(log, k, InReads)| + 1
  }

  /** At every moment so far. */
  predicate AlwaysInOrder(log: seq<Note>, k: u16)
    decreases |log|
  {
    InOrder(log, k) && (log == [] || AlwaysInOrder(log[..|log| - 1], k))
  }

  lemma {:induction false} AtEveryMoment(log: seq<Note>, k: u16, n: nat)
    requires AlwaysInOrder(log, k) && n <= |log|
    ensures AlwaysInOrder(log[..n], k) && InOrder(log[..n], k)
    decreases |log|
  {
    hide InOrder;
    if n == |log| {
      assert log[..n] == log;
    } else {
      AtEveryMoment(log[..|log| - 1], k, n);
      assert log[..|log| - 1][..n] == log[..n];
    }
  }

  lemma {:induction false} EveryMomentInOrder(log: seq<Note>, k: u16)
    requires forall n :: 0 <= n <= |log| ==> InOrder(log[..n], k)
    ensures AlwaysInOrder(log, k)
    decreases |log|
  {
    hide InOrder;
    assert log[..|log|] == log;
    if log != [] {
      var front := log[..|log| - 1];
      forall n | 0 <= n <= |front| ensures InOrder(front[..n], k) { assert front[..n] == log[..n]; }
      EveryMomentInOrder(front, k);
    }
  }

  /** Order once lost is lost for good. */
  lemma LostForGood(log: seq<Note>, more: seq<Note>, k: u16)
    requires log <= more && !AlwaysInOrder(log, k)
    ensures !AlwaysInOrder(more, k)
  {
    assert more[..|log|] == log;
    if AlwaysInOrder(more, k) { AtEveryMoment(more, k, |log|); }
  }

  // ---------------------------------------------------------------- logs only grow, and every write was asked for

  /** Every write was first asked for, under the same name and for the same request. */
  predicate AskedFirst(log: seq<Note>) {
    forall i :: 0 <= i < |log| && log[i].Written? ==>
      AskedToWrite(log[i].fd, log[i].name, log[i].id, log[i].handler) in log[..i]
  }

  lemma AskedFirstNoted(log: seq<Note>, n: Note)
    requires AskedFirst(log) && (n.Written? ==> AskedToWrite(n.fd, n.name, n.id, n.handler) in log)
    ensures AskedFirst(log + [n])
  {
    forall i | 0 <= i < |log + [n]| && (log + [n])[i].Written?
      ensures var w := (log + [n])[i]; AskedToWrite(w.fd, w.name, w.id, w.handler) in (log + [n])[..i]
    {
      assert (log + [n])[..i] == log[..i];
      if i == |log| { assert log[..i] == log; } else { assert (log + [n])[i] == log[i]; }
    }
  }

  lemma {:induction false} DoAsksFirst(s: State, acts: Actions)
    requires AskedFirst(s.log)
    ensures s.log <= Do(s, acts).log && AskedFirst(Do(s, acts).log)
    decreases acts
  {
    hide AskedFirst;
    match acts
    case Nothing =>
    case Then(a, rest) =>
      if a.Submit? {
        AskedFirstNoted(s.log, Submitted(a.fd, NameOf(a.kind), s.next, a.kind));
        DoAsksFirst(Submission(s, a), rest);
      } else {
        PolledAsksFirst(s, a);
        DoAsksFirst(Polled(s, a), rest);
      }
  }

  lemma {:induction false} PolledAsksFirst(s: State, a: Action)
    requires a.Poll? && AskedFirst(s.log)
    ensures s.log <= Polled(s, a).log && AskedFirst(Polled(s, a).log)
    decreases a
  {
    hide AskedFirst, Do, Hit, Leads;
    var k, q := a.fd, QueueOf(s, a.fd);
    if q == [] {
      AskedFirstNoted(s.log, Stopped(k));
    } else if Asks(a, q[0].1) {
      var asked := AskedToWrite(k, q[0].0, q[0].1.id, HandlerOf(q[0].0));
      AskedFirstNoted(s.log, asked);
      DoAsksFirst(Asking(s, k), a.inside);
      var m := Do(Asking(s, k), a.inside);
      assert m.log[|s.log|] == asked;
      AskedFirstNoted(m.log, Written(k, q[0].0, q[0].1.id, a.sending, HandlerOf(q[0].0), a.reply));
      SentLog(m, a, q[0], FrontOf(s, k, q[0].0));
    } else if Reads(a, q[0].1) {
      AskedFirstNoted(s.log, ReadBack(k, q[0].0, q[0].1.id, HandlerOf(q[0].0)));
      DoAsksFirst(Reading(s, k), a.inside);
      AskedFirstNoted(Do(Reading(s, k), a.inside).log, Panicked(k));
    }
  }

  /** The end of a write branch in the log. */
  lemma SentLog(s: State, a: Action, item: (string, CbItem), front: nat)
    requires a.Poll?
    ensures var r := Sent(s, a, item, front);
            var n := Written(a.fd, item.0, item.1.id, a.sending, HandlerOf(item.0), a.reply);
            r.log == (if WillMark(a, item.0) then s.log + [n] else s.log) && r.next == s.next
  {
  }

  lemma {:induction false} DoGrows(s: State, acts: Actions)
    ensures s.log <= Do(s, acts).log
    decreases acts
  {
    match acts
    case Nothing =>
    case Then(a, rest) =>
      if a.Poll? { PolledGrows(s, a); }
      DoGrows(if a.Submit? then Submission(s, a) else Polled(s, a), rest);
      hide Polled;
  }

  lemma {:induction false} PolledGrows(s: State, a: Action)
    requires a.Poll?
    ensures s.log <= Polled(s, a).log
    decreases a
  {
    hide Do, Hit, Leads;
    var q := QueueOf(s, a.fd);
    if q != [] {
      DoGrows(Asking(s, a.fd), a.inside);
      DoGrows(Reading(s, a.fd), a.inside);
      SentLog(Do(Asking(s, a.fd), a.inside), a, q[0], FrontOf(s, a.fd, q[0].0));
    }
  }

  // ---------------------------------------------------------------- the invariant

  function Ids(q: Queue<CbItem>): seq<(string, nat)> { seq(|q|, i requires 0 <= i < |q| => (q[i].0, q[i].1.id)) }

  /** Requests get different numbers, on every run. */
  predicate Numbered(s: State, k: u16) {
    var submitted := Pick(s.log, k, InSubmits);
    && (forall i, j :: 0 <= i < j < |submitted| ==> submitted[i].1 < submitted[j].1)
    && (forall i :: 0 <= i < |submitted| ==> submitted[i].1 < s.next)
  }

  /** A request of this descriptor has been written and not yet read. */
  predicate Outstanding(log: seq<Note>, k: u16) { |Pick(log, k, InWrites)| > |Pick(log, k, InReads)| }

  /**
    The log and the queue of a descriptor account for each other.  `reading` says that the callback
    reading the oldest request is running: it has been logged but the request is still in the queue.
  */
  predicate Accounts(s: State, k: u16, reading: bool) {
    var q := QueueOf(s, k);
    && (reading ==> q != [] && q[0].1.written)
    && (forall i :: 0 <= i < |q| ==> q[i].0 == QUERY || q[i].0 == PREPARE)
    && Pick(s.log, k, InSubmits) == Pick(s.log, k, InReads) + Ids(if reading then q[1..] else q)
    && (|| Pick(s.log, k, InWrites) == Pick(s.log, k, InReads)
        || (!reading && q != [] && Pick(s.log, k, InWrites) == Pick(s.log, k, InReads) + Ids(q[..1])))
  }

  predicate Inv(s: State, k: u16, reading: bool) {
    Accounts(s, k, reading) && AlwaysInOrder(s.log, k) && Numbered(s, k)
  }

  lemma AccountsInOrder(s: State, k: u16, reading: bool)
    requires Accounts(s, k, reading)
    ensures InOrder(s.log, k)
  {
    var q := QueueOf(s, k);
    if !reading && q != [] { assert Ids(q)[..1] == Ids(q[..1]); }
    hide Pick;
  }

  lemma NotedInOrder(s: State, n: Note, k: u16, reading: bool)
    requires AlwaysInOrder(s.log, k) && Accounts(Noted(s, n), k, reading) && Numbered(Noted(s, n), k)
    ensures Inv(Noted(s, n), k, reading)
  {
    assert (s.log + [n])[..|s.log|] == s.log;
    hide InOrder, Accounts, Numbered;
    AccountsInOrder(Noted(s, n), k, reading);
  }

  /** A note about another descriptor, or one that is no submission, write or read. */
  lemma NotedKeeps(s: State, n: Note, k: u16, reading: bool)
    requires Inv(s, k, reading) && forall w :: Shown(n, k, w) == []
    ensures Inv(Noted(s, n), k, reading) && Outstanding(Noted(s, n).log, k) == Outstanding(s.log, k)
  {
    PicksNoted(s, n, k);
    hide Pick, Shown, AlwaysInOrder;
    NotedInOrder(s, n, k, reading);
  }

  function NewItem(s: State, a: Action): (string, CbItem)
    requires a.Submit?
  {
    (NameOf(a.kind), CbItem(s.next, false))
  }

  /** The add step, but for the addresses. */
  lemma SubmissionIs(s: State, a: Action, k: u16)
    requires a.Submit?
    ensures var r := Submission(s, a);
            && r.log == s.log + [Submitted(a.fd, NameOf(a.kind), s.next, a.kind)] && r.next == s.next + 1
            && QueueOf(r, k) == (if a.fd == k then QueueOf(s, k) + [NewItem(s, a)] else QueueOf(s, k))
            && r.polled == (if a.fd in s.fds then s.polled else s.polled + {a.fd})
            && r.fds == s.fds + {a.fd}
  {
    hide Moves;
  }

  lemma SubmissionNumbers(s: State, a: Action, k: u16)
    requires a.Submit? && Numbered(s, k)
    ensures Numbered(Submission(s, a), k)
  {
    SubmissionIs(s, a, k);
    PickNoted(s.log, Submitted(a.fd, NameOf(a.kind), s.next, a.kind), k, InSubmits);
    hide Pick, Submission;
    var before, after := Pick(s.log, k, InSubmits), Pick(Submission(s, a).log, k, InSubmits);
    assert after == before + if a.fd == k then [(NameOf(a.kind), s.next)] else [];
  }

  lemma IdsAdded(q: Queue<CbItem>, x: (string, CbItem))
    ensures Ids(q + [x]) == Ids(q) + [(x.0, x.1.id)]
    ensures q != [] ==> (q + [x])[..1] == q[..1] && Ids((q + [x])[1..]) == Ids(q[1..]) + [(x.0, x.1.id)]
  {
    if q != [] { assert (q + [x])[1..] == q[1..] + [x]; }
  }

  lemma PushedAccounts(s: State, r: State, x: (string, CbItem), k: u16, reading: bool)
    requires Accounts(s, k, reading) && (x.0 == QUERY || x.0 == PREPARE) && QueueOf(r, k) == QueueOf(s, k) + [x]
    requires Pick(r.log, k, InSubmits) == Pick(s.log, k, InSubmits) + [(x.0, x.1.id)]
    requires Pick(r.log, k, InWrites) == Pick(s.log, k, InWrites) && Pick(r.log, k, InReads) == Pick(s.log, k, InReads)
    ensures Accounts(r, k, reading)
  {
    IdsAdded(QueueOf(s, k), x);
    hide Pick, Ids;
  }

  lemma SubmissionAccounts(s: State, a: Action, k: u16, reading: bool)
    requires a.Submit? && Accounts(s, k, reading)
    ensures Accounts(Submission(s, a), k, reading)
    ensures Outstanding(Submission(s, a).log, k) == Outstanding(s.log, k)
  {
    var n, r := Submitted(a.fd, NameOf(a.kind), s.next, a.kind), Submission(s, a);
    SubmissionIs(s, a, k);
    PicksNoted(s, n, k);
    assert forall w :: Pick(r.log, k, w) == Pick(s.log, k, w) + Shown(n, k, w);
    hide Pick, Ids, Submission, Accounts;
    if a.fd == k {
      PushedAccounts(s, r, NewItem(s, a), k, reading);
    } else {
      SameAccounts(s, r, k, reading);
    }
  }

  lemma SameAccounts(s: State, r: State, k: u16, reading: bool)
    requires Accounts(s, k, reading) && QueueOf(r, k) == QueueOf(s, k)
    requires forall w :: Pick(r.log, k, w) == Pick(s.log, k, w)
    ensures Accounts(r, k, reading)
  {
    hide Pick, Ids;
  }

  lemma SubmissionKeeps(s: State, a: Action, k: u16, reading: bool)
    requires a.Submit? && Inv(s, k, reading)
    ensures Inv(Submission(s, a), k, reading)
    ensures Outstanding(Submission(s, a).log, k) == Outstanding(s.log, k)
    ensures QueueOf(s, k) <= QueueOf(Submission(s, a), k)
  {
    SubmissionIs(s, a, k);
    SubmissionNumbers(s, a, k);
    SubmissionAccounts(s, a, k, reading);
    hide Pick, AlwaysInOrder, Numbered, Accounts, Outstanding, Submission;
    var n, after := Submitted(a.fd, NameOf(a.kind), s.next, a.kind), Submission(s, a);
    assert after == Noted(after.(log := s.log), n);
    NotedInOrder(after.(log := s.log), n, k, reading);
  }

  /** The same requests, in the same order, some of them newly marked. */
  predicate SameRequests(q: Queue<CbItem>, r: Queue<CbItem>) {
    |r| == |q| && forall i :: 0 <= i < |q| ==> r[i] == q[i] || r[i] == (q[i].0, q[i].1.(written := true))
  }

  lemma {:induction false} MarkedSame(q: Queue<CbItem>, name: string, i: nat, item: CbItem)
    requires i < |Named(q, name)| && item == Named(q, name)[i].(written := true)
    ensures SameRequests(q, Replaced(q, name, i, item))
    decreases |q|
  {
    if q[0].0 != name {
      MarkedSame(q[1..], name, i, item);
    } else if i > 0 {
      MarkedSame(q[1..], name, i - 1, item);
    }
  }

  /** Wherever an address leads, setting `written` there changes no request but for its mark. */
  lemma HitSame(s: State, p: Option<Place>, k: u16)
    ensures SameRequests(QueueOf(s, k), QueueOf(Hit(s, p), k)) && Hit(s, p).log == s.log && Hit(s, p).next == s.next
    ensures Hit(s, p).fronts == s.fronts && Hit(s, p).polled == s.polled && Hit(s, p).fds == s.fds
  {
    if p.Some? && p.value.fd == k {
      var q, name, i := QueueOf(s, k), p.value.name, p.value.index;
      if i < |Named(q, name)| { MarkedSame(q, name, i, Named(q, name)[i].(written := true)); }
    }
    hide Named, Replaced;
  }

  lemma HitKeeps(s: State, p: Option<Place>, k: u16, reading: bool)
    requires Inv(s, k, reading)
    ensures Inv(Hit(s, p), k, reading)
  {
    HitSame(s, p, k);
    var q, r := QueueOf(s, k), QueueOf(Hit(s, p), k);
    SameIds(q, r);
    hide Hit, Pick, AlwaysInOrder, Ids;
  }

  lemma SameIds(q: Queue<CbItem>, r: Queue<CbItem>)
    requires SameRequests(q, r)
    ensures Ids(q) == Ids(r) && (q != [] ==> Ids(q[..1]) == Ids(r[..1]) && Ids(q[1..]) == Ids(r[1..]))
  {
    if q != [] { assert q[..1] == [q[0]] && r[..1] == [r[0]]; }
  }

  /** The end of the write branch, for the oldest request, when none is outstanding. */
  lemma MarkedKeeps(s: State, k: u16, p: Option<Place>, n: Note)
    requires Inv(s, k, false) && QueueOf(s, k) != [] && !Outstanding(s.log, k)
    requires var q := QueueOf(s, k); n.Written? && n.fd == k && n.name == q[0].0 && n.id == q[0].1.id
    ensures Inv(Noted(Hit(s, p), n), k, false)
  {
    HitSame(s, p, k);
    HitKeeps(s, p, k, false);
    var m := Hit(s, p);
    var q := QueueOf(m, k);
    PicksNoted(m, n, k);
    hide Pick, AlwaysInOrder, Hit;
    assert Ids(q[..1]) == [(n.name, n.id)];
    NotedInOrder(m, n, k, false);
  }

  lemma ReadingStarts(s: State, k: u16)
    requires Inv(s, k, false) && QueueOf(s, k) != [] && QueueOf(s, k)[0].1.written && Outstanding(s.log, k)
    ensures Inv(Reading(s, k), k, true) && !Outstanding(Reading(s, k).log, k)
  {
    var q := QueueOf(s, k);
    var n := ReadBack(k, q[0].0, q[0].1.id, HandlerOf(q[0].0));
    PicksNoted(s, n, k);
    hide Pick, AlwaysInOrder;
    assert Ids(q) == [(q[0].0, q[0].1.id)] + Ids(q[1..]);
    assert Ids(q[..1]) == [(q[0].0, q[0].1.id)];
    NotedInOrder(s, n, k, true);
  }

  /** The end of the read branch, but for the addresses. */
  lemma RemovedIs(s: State, j: u16, k: u16)
    requires QueueOf(s, j) != []
    ensures var r := Removed(s, j);
            && r.log == s.log && r.next == s.next
            && QueueOf(r, k) == (if j == k then QueueOf(s, k)[1..] else QueueOf(s, k))
  {
  }

  lemma RemovedKeeps(s: State, j: u16, k: u16, reading: bool)
    requires Inv(s, k, reading) && (j == k ==> reading)
    ensures Inv(Removed(s, j), k, reading && j != k) && Outstanding(Removed(s, j).log, k) == Outstanding(s.log, k)
    ensures j != k ==> QueueOf(Removed(s, j), k) == QueueOf(s, k)
  {
    if QueueOf(s, j) == [] {
      hide Inv, Outstanding;
      NotedKeeps(s, Panicked(j), k, reading);
    } else {
      hide Pick, AlwaysInOrder, Ids, Removed, Outstanding;
      RemovedIs(s, j, k);
    }
  }

  lemma StoppedKeeps(s: State, j: u16, k: u16, reading: bool)
    requires Inv(s, k, reading)
    ensures var r := Noted(s.(polled := s.polled - {j}), Stopped(j));
            Inv(r, k, reading) && Outstanding(r.log, k) == Outstanding(s.log, k)
  {
    NotedKeeps(s.(polled := s.polled - {j}), Stopped(j), k, reading);
  }

  // ---------------------------------------------------------------- the events that break the order

  /**
    No event on descriptor `k` is harmful.  `armed` says that a write callback of `k` is running that will end
    in a write.  An event that writes is harmful while armed or while a request is outstanding, one that reads
    is harmful while none is, and nothing else is.
  */
  predicate Harmless(s: State, acts: Actions, k: u16, armed: bool)
    decreases acts
  {
    match acts
    case Nothing => true
    case Then(a, rest) =>
      if a.Submit? then Harmless(Submission(s, a), rest, k, armed)
      else HarmlessPoll(s, a, k, armed) && Harmless(Polled(s, a), rest, k, armed)
  }

  predicate HarmlessPoll(s: State, a: Action, k: u16, armed: bool)
    requires a.Poll?
    decreases a
  {
    var j, q := a.fd, QueueOf(s, a.fd);
    if j !in s.polled || q == [] || (q[0].0 != QUERY && q[0].0 != PREPARE) then true
    else if Asks(a, q[0].1) then
      var marks := j == k && WillMark(a, q[0].0);
      !(marks && (armed || Outstanding(s.log, k))) && Harmless(Asking(s, j), a.inside, k, armed || marks)
    else if Reads(a, q[0].1) then
      !(j == k && !Outstanding(s.log, k)) && Harmless(Reading(s, j), a.inside, k, armed)
    else true
  }

  // ---------------------------------------------------------------- they break it, and nothing else does

  predicate WrittenIn(log: seq<Note>, k: u16, item: (string, CbItem)) {
    (item.0, item.1.id) in Pick(log, k, InWrites)
  }

  lemma {:induction false} PickGrows(log: seq<Note>, more: seq<Note>, k: u16, w: Which)
    requires log <= more
    ensures Pick(log, k, w) <= Pick(more, k, w)
    decreases |more|
  {
    if |log| == |more| {
      assert log == more;
    } else {
      PickGrows(log, more[..|more| - 1], k, w);
    }
  }

  lemma WrittenForGood(log: seq<Note>, more: seq<Note>, k: u16, item: (string, CbItem))
    requires log <= more && WrittenIn(log, k, item)
    ensures WrittenIn(more, k, item)
  {
    PickGrows(log, more, k, InWrites);
    hide Pick;
    var i :| 0 <= i < |Pick(log, k, InWrites)| && Pick(log, k, InWrites)[i] == (item.0, item.1.id);
    assert Pick(more, k, InWrites)[i] == (item.0, item.1.id);
  }

  /** The outstanding request is the oldest one. */
  lemma OutstandingIsOldest(s: State, k: u16, reading: bool)
    requires Inv(s, k, reading) && Outstanding(s.log, k)
    ensures !reading && QueueOf(s, k) != [] && WrittenIn(s.log, k, QueueOf(s, k)[0])
  {
    var q := QueueOf(s, k);
    hide Pick, AlwaysInOrder;
    assert Ids(q[..1]) == [(q[0].0, q[0].1.id)];
    assert Ids(q[..1])[0] in Pick(s.log, k, InWrites);
  }

  /** A request that is written a second time is out of order: no request is submitted twice. */
  lemma SecondWriteBreaks(s: State, k: u16, item: (string, CbItem), sending: Sending, reply: Reply)
    requires Numbered(s, k) && WrittenIn(s.log, k, item)
    ensures !AlwaysInOrder(s.log + [Written(k, item.0, item.1.id, sending, HandlerOf(item.0), reply)], k)
  {
    var n := Written(k, item.0, item.1.id, sending, HandlerOf(item.0), reply);
    PicksNoted(s, n, k);
    var w, submitted := Pick(s.log, k, InWrites), Pick(s.log, k, InSubmits);
    hide Pick;
    RepeatIsNoPrefix(w, (item.0, item.1.id), submitted);
    hide AlwaysInOrder;
    LostNow(s.log + [n], k);
  }

  lemma RepeatIsNoPrefix(w: seq<(string, nat)>, x: (string, nat), submitted: seq<(string, nat)>)
    requires x in w && forall i, j :: 0 <= i < j < |submitted| ==> submitted[i].1 < submitted[j].1
    ensures !(w + [x] <= submitted)
  {
    var i :| 0 <= i < |w| && w[i] == x;
    assert (w + [x])[i] == x && (w + [x])[|w|] == x;
    assert |w| < |submitted| ==> submitted[i].1 < submitted[|w|].1;
  }

  lemma LostNow(log: seq<Note>, k: u16)
    requires !InOrder(log, k)
    ensures !AlwaysInOrder(log, k)
  {
  }

  /** A read when nothing is outstanding reads more than has been written. */
  lemma EarlyReadBreaks(s: State, k: u16)
    requires QueueOf(s, k) != [] && !Outstanding(s.log, k)
    ensures !AlwaysInOrder(Reading(s, k).log, k)
  {
    var q := QueueOf(s, k);
    PicksNoted(s, ReadBack(k, q[0].0, q[0].1.id, HandlerOf(q[0].0)), k);
    hide Pick, AlwaysInOrder;
    LostNow(Reading(s, k).log, k);
  }

  lemma {:induction false} DoNumbers(s: State, acts: Actions, k: u16)
    requires Numbered(s, k)
    ensures Numbered(Do(s, acts), k)
    decreases acts
  {
    hide Numbered;
    match acts
    case Nothing =>
    case Then(a, rest) =>
      if a.Submit? {
        SubmissionNumbers(s, a, k);
        DoNumbers(Submission(s, a), rest, k);
      } else {
        PolledNumbers(s, a, k);
        DoNumbers(Polled(s, a), rest, k);
      }
  }

  lemma SameNumbers(s: State, r: State, k: u16, n: Note)
    requires Numbered(s, k) && r.next == s.next && (r.log == s.log || r.log == s.log + [n]) && !n.Submitted?
    ensures Numbered(r, k)
  {
    PickNoted(s.log, n, k, InSubmits);
    assert Pick(s.log + [n], k, InSubmits) == Pick(s.log, k, InSubmits);
    hide Pick;
  }

  lemma {:induction false} PolledNumbers(s: State, a: Action, k: u16)
    requires a.Poll? && Numbered(s, k)
    ensures Numbered(Polled(s, a), k)
    decreases a
  {
    hide Numbered, Do, Hit, Leads;
    var j, q := a.fd, QueueOf(s, a.fd);
    if q == [] {
      SameNumbers(s, Polled(s, a), k, Stopped(j));
    } else if Asks(a, q[0].1) {
      SameNumbers(s, Asking(s, j), k, AskedToWrite(j, q[0].0, q[0].1.id, HandlerOf(q[0].0)));
      DoNumbers(Asking(s, j), a.inside, k);
      var m := Do(Asking(s, j), a.inside);
      var front := FrontOf(s, j, q[0].0);
      SentLog(m, a, q[0], front);
      SameNumbers(m, Sent(m, a, q[0], front), k, Written(j, q[0].0, q[0].1.id, a.sending, HandlerOf(q[0].0), a.reply));
    } else if Reads(a, q[0].1) {
      SameNumbers(s, Reading(s, j), k, ReadBack(j, q[0].0, q[0].1.id, HandlerOf(q[0].0)));
      DoNumbers(Reading(s, j), a.inside, k);
      var m := Do(Reading(s, j), a.inside);
      SameNumbers(m, Removed(m, j), k, Panicked(j));
    }
  }

  /** While armed, a request is there to be written and none is outstanding. */
  predicate Awaits(s: State, k: u16, reading: bool, armed: bool) {
    armed ==> !reading && QueueOf(s, k) != [] && !Outstanding(s.log, k)
  }

  predicate SameOldest(s: State, r: State, k: u16) {
    var q, q' := QueueOf(s, k), QueueOf(r, k);
    q != [] && q' != [] && q'[0].0 == q[0].0 && q'[0].1.id == q[0].1.id
  }

  /** Order is kept, and an awaited request still awaited. */
  predicate Kept(s: State, r: State, k: u16, reading: bool, armed: bool) {
    Inv(r, k, reading) && (armed ==> SameOldest(s, r, k) && !Outstanding(r.log, k))
  }

  /** Order is lost, or will be when the write callback that is awaited returns. */
  predicate Lost(s: State, r: State, k: u16, armed: bool) {
    !AlwaysInOrder(r.log, k) || (armed && QueueOf(s, k) != [] && WrittenIn(r.log, k, QueueOf(s, k)[0]))
  }

  lemma LostStays(s: State, m: State, r: State, k: u16, armed: bool)
    requires Lost(s, m, k, armed) && m.log <= r.log
    ensures Lost(s, r, k, armed)
  {
    if !AlwaysInOrder(m.log, k) {
      LostForGood(m.log, r.log, k);
    } else {
      WrittenForGood(m.log, r.log, k, QueueOf(s, k)[0]);
    }
  }

  /** What happened after an earlier moment at which the request was awaited already. */
  lemma Later(s: State, m: State, r: State, k: u16, reading: bool, armed: bool)
    requires Awaits(s, k, reading, armed) && (armed ==> SameOldest(s, m, k) && !Outstanding(m.log, k))
    ensures Awaits(m, k, reading, armed)
    ensures Kept(m, r, k, reading, armed) ==> Kept(s, r, k, reading, armed)
    ensures Lost(m, r, k, armed) ==> Lost(s, r, k, armed)
  {
    hide Inv, AlwaysInOrder, WrittenIn, Outstanding;
    if armed { SameWrittenIn(r.log, k, QueueOf(s, k)[0], QueueOf(m, k)[0]); }
  }

  lemma SameWrittenIn(log: seq<Note>, k: u16, x: (string, CbItem), y: (string, CbItem))
    requires x.0 == y.0 && x.1.id == y.1.id
    ensures WrittenIn(log, k, x) == WrittenIn(log, k, y)
  {
    hide Pick;
  }

  /** The order of a descriptor survives a run exactly when none of its events is harmful. */
  lemma {:induction false} DoExactly(s: State, acts: Actions, k: u16, reading: bool, armed: bool)
    requires Inv(s, k, reading) && Awaits(s, k, reading, armed)
    ensures if Harmless(s, acts, k, armed) then Kept(s, Do(s, acts), k, reading, armed)
            else Lost(s, Do(s, acts), k, armed)
    decreases acts
  {
    match acts
    case Nothing => hide Inv;
    case Then(a, rest) =>
      var m := if a.Submit? then Submission(s, a) else Polled(s, a);
      if a.Submit? {
        SubmissionKeeps(s, a, k, reading);
      } else {
        PolledExactly(s, a, k, reading, armed);
      }
      hide Inv, Polled, Submission, HarmlessPoll, Outstanding;
      if a.Submit? || HarmlessPoll(s, a, k, armed) {
        Later(s, m, Do(m, rest), k, reading, armed);
        DoExactly(m, rest, k, reading, armed);
      } else {
        DoGrows(m, rest);
        LostStays(s, m, Do(m, rest), k, armed);
      }
      hide Kept, Lost, Awaits;
  }

  lemma {:induction false} PolledExactly(s: State, a: Action, k: u16, reading: bool, armed: bool)
    requires a.Poll? && Inv(s, k, reading) && Awaits(s, k, reading, armed)
    ensures if HarmlessPoll(s, a, k, armed) then Kept(s, Polled(s, a), k, reading, armed)
            else Lost(s, Polled(s, a), k, armed)
    decreases a
  {
    var j, q := a.fd, QueueOf(s, a.fd);
    if j !in s.polled {
      hide Inv;
    } else if q == [] {
      StoppedKeeps(s, j, k, reading);
      hide Inv, Outstanding;
    } else if q[0].0 != QUERY && q[0].0 != PREPARE {
      hide Inv;
    } else if Asks(a, q[0].1) {
      if j == k { AsksExactly(s, a, reading, armed); } else { AsksElsewhere(s, a, k, reading, armed); }
      hide Inv, Kept, Lost, Harmless, Do, Sent, Outstanding;
    } else if Reads(a, q[0].1) {
      if j == k { ReadsExactly(s, a, reading, armed); } else { ReadsElsewhere(s, a, k, reading, armed); }
      hide Inv, Kept, Lost, Harmless, Do, Outstanding;
    } else {
      hide Inv;
    }
  }

  /** A write event on another descriptor. */
  lemma {:induction false} AsksElsewhere(s: State, a: Action, k: u16, reading: bool, armed: bool)
    requires a.Poll? && a.fd != k && Inv(s, k, reading) && Awaits(s, k, reading, armed)
    requires QueueOf(s, a.fd) != [] && Asks(a, QueueOf(s, a.fd)[0].1)
    ensures var item := QueueOf(s, a.fd)[0];
            var r := Sent(Do(Asking(s, a.fd), a.inside), a, item, FrontOf(s, a.fd, item.0));
            if Harmless(Asking(s, a.fd), a.inside, k, armed) then Kept(s, r, k, reading, armed)
            else Lost(s, r, k, armed)
    decreases a, 0
  {
    var j, item := a.fd, QueueOf(s, a.fd)[0];
    var m, front := Do(Asking(s, j), a.inside), FrontOf(s, j, item.0);
    var n := Written(j, item.0, item.1.id, a.sending, HandlerOf(item.0), a.reply);
    var r := Sent(m, a, item, front);
    var p := Leads(m, j, item.0, front, a.stray);
    NotedKeeps(s, AskedToWrite(j, item.0, item.1.id, HandlerOf(item.0)), k, reading);
    SentLog(m, a, item, front);
    HitSame(m, p, k);
    hide Inv, Harmless, Do, Outstanding, Hit, Leads;
    Later(s, Asking(s, j), m, k, reading, armed);
    DoExactly(Asking(s, j), a.inside, k, reading, armed);
    if Harmless(Asking(s, j), a.inside, k, armed) {
      HitKeeps(m, p, k, reading);
      NotedKeeps(Hit(m, p), n, k, reading);
    } else {
      LostStays(s, m, r, k, armed);
    }
  }

  /** A read event on another descriptor. */
  lemma {:induction false} ReadsElsewhere(s: State, a: Action, k: u16, reading: bool, armed: bool)
    requires a.Poll? && a.fd != k && Inv(s, k, reading) && Awaits(s, k, reading, armed)
    requires QueueOf(s, a.fd) != [] && Reads(a, QueueOf(s, a.fd)[0].1)
    ensures var r := Removed(Do(Reading(s, a.fd), a.inside), a.fd);
            if Harmless(Reading(s, a.fd), a.inside, k, armed) then Kept(s, r, k, reading, armed)
            else Lost(s, r, k, armed)
    decreases a, 0
  {
    var j, item := a.fd, QueueOf(s, a.fd)[0];
    var m := Do(Reading(s, j), a.inside);
    NotedKeeps(s, ReadBack(j, item.0, item.1.id, HandlerOf(item.0)), k, reading);
    hide Inv, Harmless, Do, Outstanding;
    Later(s, Reading(s, j), m, k, reading, armed);
    DoExactly(Reading(s, j), a.inside, k, reading, armed);
    if Harmless(Reading(s, j), a.inside, k, armed) {
      RemovedKeeps(m, j, k, reading);
    } else {
      LostStays(s, m, Removed(m, j), k, armed);
    }
  }

  /** A write event on the descriptor itself. */
  lemma {:induction false} AsksExactly(s: State, a: Action, reading: bool, armed: bool)
    requires a.Poll? && Inv(s, a.fd, reading) && Awaits(s, a.fd, reading, armed)
    requires QueueOf(s, a.fd) != [] && Asks(a, QueueOf(s, a.fd)[0].1)
    ensures var k, item := a.fd, QueueOf(s, a.fd)[0];
            var r := Sent(Do(Asking(s, k), a.inside), a, item, FrontOf(s, k, item.0));
            var marks := WillMark(a, item.0);
            if !(marks && (armed || Outstanding(s.log, k))) && Harmless(Asking(s, k), a.inside, k, armed || marks)
            then Kept(s, r, k, reading, armed) else Lost(s, r, k, armed)
    decreases a, 1
  {
    var k, item := a.fd, QueueOf(s, a.fd)[0];
    var asked, m, front := Asking(s, k), Do(Asking(s, k), a.inside), FrontOf(s, k, item.0);
    var r := Sent(m, a, item, front);
    assert !reading;
    NotedKeeps(s, AskedToWrite(k, item.0, item.1.id, HandlerOf(item.0)), k, false);
    SentLog(m, a, item, front);
    DoGrows(asked, a.inside);
    if !WillMark(a, item.0) {
      hide Inv, Harmless, Do, Outstanding, Hit, Leads;
      Later(s, asked, m, k, false, armed);
      DoExactly(asked, a.inside, k, false, armed);
    } else if armed {
      WriteNoted(m, k, item, a.sending, a.reply);
      hide Inv, Harmless, Do, Outstanding, Hit, Leads;
    } else if Outstanding(s.log, k) {
      OutstandingIsOldest(s, k, false);
      DoNumbers(asked, a.inside, k);
      hide Inv, Harmless, Do, Outstanding, Hit, Leads, Sent, WrittenIn, AlwaysInOrder, Numbered;
      WrittenForGood(s.log, m.log, k, item);
      SecondWriteBreaks(m, k, item, a.sending, a.reply);
    } else {
      WritesExactly(s, a);
      hide Inv, Harmless, Do, Outstanding, Hit, Leads, Sent, Kept, Lost;
    }
  }

  lemma WriteNoted(s: State, k: u16, item: (string, CbItem), sending: Sending, reply: Reply)
    ensures WrittenIn(s.log + [Written(k, item.0, item.1.id, sending, HandlerOf(item.0), reply)], k, item)
  {
    var n := Written(k, item.0, item.1.id, sending, HandlerOf(item.0), reply);
    PickNoted(s.log, n, k, InWrites);
    hide Pick;
    var w := Pick(s.log + [n], k, InWrites);
    assert w[|w| - 1] == (item.0, item.1.id);
  }

  /** A write that is not harmful by itself. */
  lemma {:induction false} WritesExactly(s: State, a: Action)
    requires a.Poll? && Inv(s, a.fd, false) && QueueOf(s, a.fd) != [] && Asks(a, QueueOf(s, a.fd)[0].1)
    requires WillMark(a, QueueOf(s, a.fd)[0].0) && !Outstanding(s.log, a.fd)
    ensures var k, item := a.fd, QueueOf(s, a.fd)[0];
            var r := Sent(Do(Asking(s, k), a.inside), a, item, FrontOf(s, k, item.0));
            if Harmless(Asking(s, k), a.inside, k, true) then Kept(s, r, k, false, false) else Lost(s, r, k, false)
    decreases a, 0
  {
    var k, item := a.fd, QueueOf(s, a.fd)[0];
    var asked, m, front := Asking(s, k), Do(Asking(s, k), a.inside), FrontOf(s, k, item.0);
    var r := Sent(m, a, item, front);
    NotedKeeps(s, AskedToWrite(k, item.0, item.1.id, HandlerOf(item.0)), k, false);
    SentLog(m, a, item, front);
    DoNumbers(asked, a.inside, k);
    hide Inv, Harmless, Do, Outstanding, Hit, Leads, AlwaysInOrder, Numbered, WrittenIn;
    DoExactly(asked, a.inside, k, false, true);
    if Harmless(asked, a.inside, k, true) {
      MarkedKeeps(m, k, Leads(m, k, item.0, front, a.stray),
          Written(k, item.0, item.1.id, a.sending, HandlerOf(item.0), a.reply));
    } else if !AlwaysInOrder(m.log, k) {
      LostForGood(m.log, r.log, k);
    } else {
      SecondWriteBreaks(m, k, item, a.sending, a.reply);
    }
  }

  /** A read event on the descriptor itself. */
  lemma {:induction false} ReadsExactly(s: State, a: Action, reading: bool, armed: bool)
    requires a.Poll? && Inv(s, a.fd, reading) && Awaits(s, a.fd, reading, armed)
    requires QueueOf(s, a.fd) != [] && Reads(a, QueueOf(s, a.fd)[0].1)
    ensures var k := a.fd;
            var r := Removed(Do(Reading(s, k), a.inside), k);
            if Outstanding(s.log, k) && Harmless(Reading(s, k), a.inside, k, armed) then Kept(s, r, k, reading, armed)
            else Lost(s, r, k, armed)
    decreases a, 0
  {
    var k := a.fd;
    var m := Do(Reading(s, k), a.inside);
    DoGrows(Reading(s, k), a.inside);
    if !Outstanding(s.log, k) {
      EarlyReadBreaks(s, k);
      LostForGood(Reading(s, k).log, Removed(m, k).log, k);
    } else {
      OutstandingIsOldest(s, k, reading);
      ReadingStarts(s, k);
      hide Inv, Harmless, Do, AlwaysInOrder, Outstanding;
      DoExactly(Reading(s, k), a.inside, k, true, false);
      if Harmless(Reading(s, k), a.inside, k, false) {
        RemovedKeeps(m, k, k, true);
      } else {
        LostForGood(m.log, Removed(m, k).log, k);
      }
    }
  }

  // ---------------------------------------------------------------- whole runs

  /**
    The protocol, over every run: at every moment the requests read are the first ones written, those are
    the first ones submitted, each was handled under the name it was submitted with, and at most one is
    written but unread, if and only if no event is harmful.  Then what has been submitted and not read is
    the queue, and only its oldest request can be outstanding.  Every write was asked for in any case.
  */
  lemma Protocol(acts: Actions, k: u16)
    ensures var s := Do(Empty, acts);
            (forall n :: 0 <= n <= |s.log| ==> InOrder(s.log[..n], k)) <==> Harmless(Empty, acts, k, false)
    ensures var s := Do(Empty, acts);
            Harmless(Empty, acts, k, false) ==>
              && Pick(s.log, k, InSubmits) == Pick(s.log, k, InReads) + Ids(QueueOf(s, k))
              && (if Outstanding(s.log, k) then QueueOf(s, k) != []
                    && Pick(s.log, k, InWrites) == Pick(s.log, k, InReads) + Ids(QueueOf(s, k)[..1])
                  else Pick(s.log, k, InWrites) == Pick(s.log, k, InReads))
    ensures AskedFirst(Do(Empty, acts).log)
  {
    assert Inv(Empty, k, false);
    DoExactly(Empty, acts, k, false, false);
    DoAsksFirst(Empty, acts);
    var s := Do(Empty, acts);
    hide Do, InOrder, AskedFirst, Pick;
    if AlwaysInOrder(s.log, k) {
      forall n | 0 <= n <= |s.log| ensures InOrder(s.log[..n], k) { AtEveryMoment(s.log, k, n); }
    }
    if forall n :: 0 <= n <= |s.log| ==> InOrder(s.log[..n], k) { EveryMomentInOrder(s.log, k); }
  }
}
