/**
  Which callback serves which request, and on which answer, over every run: the dispatch of `pg_poll_cb` and the
  two poll callbacks (functions/db/db_async_override.c:16-246) against the add steps (at 307 and 390).
*/
module PollHandlers {
  import opened Http
  import opened DbQueue
  import opened PollProtocol
  import opened PollOrder

  /** The notes of the two poll callbacks. */
  predicate Serves(n: Note) { n.AskedToWrite? || n.Written? || n.ReadBack? }

  function Own(kind: Kind): string { match kind case Query => "query" case Prepare => "prepare" }

  /** The answer on which a request of this kind is sent. */
  predicate Fits(kind: Kind, reply: Reply) {
    match kind case Query => reply == Text case Prepare => reply == TwoStrings
  }

  // ---------------------------------------------------------------- the invariant

  function KindOf(name: string): Kind { if name == "query" then Query else Prepare }

  /** The request was submitted, in the kind that its name says. */
  predicate Known(log: seq<Note>, k: u16, name: string, id: nat) {
    Own(KindOf(name)) == name && Submitted(k, name, id, KindOf(name)) in log
  }

  predicate AllKnown(s: State) {
    forall k: u16, i :: 0 <= i < |QueueOf(s, k)| ==> Known(s.log, k, QueueOf(s, k)[i].0, QueueOf(s, k)[i].1.id)
  }

  /** What served a request is the callback of the kind it was submitted in, and it wrote on a fitting answer. */
  predicate ServedWell(log: seq<Note>) {
    forall j :: 0 <= j < |log| && Serves(log[j]) ==> WellServed(log[..j], log[j])
  }

  predicate WellServed(before: seq<Note>, n: Note)
    requires Serves(n)
  {
    && n.name == Own(n.handler) && Submitted(n.fd, n.name, n.id, n.handler) in before
    && (n.Written? ==> Fits(n.handler, n.reply))
  }

  /** Every number is given once. */
  predicate OnceEach(s: State) {
    && (forall i :: 0 <= i < |s.log| && s.log[i].Submitted? ==> s.log[i].id < s.next)
    && forall i, j :: 0 <= i < j < |s.log| && s.log[i].Submitted? && s.log[j].Submitted? ==> s.log[i].id != s.log[j].id
  }

  predicate Tracked(s: State) { AllKnown(s) && ServedWell(s.log) && OnceEach(s) }

  lemma ServedNoted(log: seq<Note>, n: Note)
    requires ServedWell(log) && (Serves(n) ==> WellServed(log, n))
    ensures ServedWell(log + [n])
  {
    forall j | 0 <= j < |log + [n]| && Serves((log + [n])[j]) ensures WellServed((log + [n])[..j], (log + [n])[j]) {
      assert (log + [n])[..j] == log[..j];
      if j == |log| { assert log[..j] == log; }
    }
    hide WellServed;
  }

  lemma NotedTracked(s: State, n: Note)
    requires Tracked(s) && !n.Submitted? && (Serves(n) ==> WellServed(s.log, n))
    ensures Tracked(Noted(s, n))
  {
    hide ServedWell, WellServed, Known;
    ServedNoted(s.log, n);
    forall k: u16, i | 0 <= i < |QueueOf(s, k)|
      ensures Known(s.log + [n], k, QueueOf(s, k)[i].0, QueueOf(s, k)[i].1.id)
    {
      KnownLater(s.log, s.log + [n], k, QueueOf(s, k)[i].0, QueueOf(s, k)[i].1.id);
    }
    assert forall k: u16 :: QueueOf(Noted(s, n), k) == QueueOf(s, k);
  }

  lemma KnownLater(log: seq<Note>, more: seq<Note>, k: u16, name: string, id: nat)
    requires log <= more && Known(log, k, name, id)
    ensures Known(more, k, name, id)
  {
  }

  lemma SubmissionTracked(s: State, a: Action)
    requires a.Submit? && Tracked(s)
    ensures Tracked(Submission(s, a))
  {
    hide Submission, ServedWell;
    var n, r := Submitted(a.fd, NameOf(a.kind), s.next, a.kind), Submission(s, a);
    ServedNoted(s.log, n);
    SubmissionIs(s, a, a.fd);
    assert NameOf(a.kind) == Own(a.kind) && KindOf(Own(a.kind)) == a.kind;
    forall k: u16, i | 0 <= i < |QueueOf(r, k)| ensures Known(r.log, k, QueueOf(r, k)[i].0, QueueOf(r, k)[i].1.id) {
      SubmissionIs(s, a, k);
      if i < |QueueOf(s, k)| { assert Known(s.log, k, QueueOf(s, k)[i].0, QueueOf(s, k)[i].1.id); }
    }
  }

  predicate Among(q: Queue<CbItem>, x: (string, CbItem)) {
    exists j :: 0 <= j < |q| && q[j].0 == x.0 && q[j].1.id == x.1.id
  }

  /** The notes and the numbers stay, and no request is new. */
  predicate NoneNew(s: State, r: State) {
    && r.log == s.log && r.next == s.next
    && forall k: u16, i :: 0 <= i < |QueueOf(r, k)| ==> Among(QueueOf(s, k), QueueOf(r, k)[i])
  }

  lemma FewerTracked(s: State, r: State)
    requires Tracked(s) && NoneNew(s, r)
    ensures Tracked(r)
  {
    hide Known, ServedWell;
    forall k: u16, i | 0 <= i < |QueueOf(r, k)| ensures Known(r.log, k, QueueOf(r, k)[i].0, QueueOf(r, k)[i].1.id) {
      assert Among(QueueOf(s, k), QueueOf(r, k)[i]);
    }
  }

  lemma HitTracked(s: State, p: Option<Place>)
    requires Tracked(s)
    ensures Tracked(Hit(s, p))
  {
    hide Hit, Tracked;
    var r := Hit(s, p);
    HitSame(s, p, 0);
    forall k: u16, i | 0 <= i < |QueueOf(r, k)| ensures Among(QueueOf(s, k), QueueOf(r, k)[i]) {
      HitSame(s, p, k);
      assert QueueOf(r, k)[i].0 == QueueOf(s, k)[i].0;
    }
    FewerTracked(s, r);
  }

  lemma RemovedTracked(s: State, k: u16)
    requires Tracked(s)
    ensures Tracked(Removed(s, k))
  {
    var q, r := QueueOf(s, k), Removed(s, k);
    hide Tracked;
    if q == [] {
      NotedTracked(s, Panicked(k));
    } else {
      forall j: u16, i | 0 <= i < |QueueOf(r, j)| ensures Among(QueueOf(s, j), QueueOf(r, j)[i]) {
        var n := if j == k then i + 1 else i;
        assert QueueOf(r, j)[i] == QueueOf(s, j)[n];
      }
      FewerTracked(s, r);
    }
  }

  lemma {:induction false} DoTracked(s: State, acts: Actions)
    requires Tracked(s)
    ensures Tracked(Do(s, acts))
    decreases acts
  {
    hide Tracked, Polled;
    match acts
    case Nothing =>
    case Then(a, rest) =>
      if a.Submit? {
        SubmissionTracked(s, a);
        DoTracked(Submission(s, a), rest);
      } else {
        PolledTracked(s, a);
        DoTracked(Polled(s, a), rest);
      }
  }

  /** The oldest request, and that the log knows it. */
  lemma OldestKnown(s: State, k: u16)
    requires Tracked(s) && QueueOf(s, k) != []
    ensures var item := QueueOf(s, k)[0];
            && Known(s.log, k, item.0, item.1.id) && HandlerOf(item.0) == KindOf(item.0)
            && (item.0 == QUERY || item.0 == PREPARE)
  {
    assert Known(s.log, k, QueueOf(s, k)[0].0, QueueOf(s, k)[0].1.id);
  }

  lemma {:induction false} PolledTracked(s: State, a: Action)
    requires a.Poll? && Tracked(s)
    ensures Tracked(Polled(s, a))
    decreases a
  {
    hide Tracked, Do, Hit, Leads;
    var k, q := a.fd, QueueOf(s, a.fd);
    if k !in s.polled {
    } else if q == [] {
      StoppedTracked(s, k);
    } else {
      OldestKnown(s, k);
      var item := q[0];
      if Asks(a, item.1) {
        NotedTracked(s, AskedToWrite(k, item.0, item.1.id, HandlerOf(item.0)));
        DoTracked(Asking(s, k), a.inside);
        DoGrows(Asking(s, k), a.inside);
        KnownLater(s.log, Do(Asking(s, k), a.inside).log, k, item.0, item.1.id);
        SentTracked(Do(Asking(s, k), a.inside), a, item, FrontOf(s, k, item.0));
      } else if Reads(a, item.1) {
        NotedTracked(s, ReadBack(k, item.0, item.1.id, HandlerOf(item.0)));
        DoTracked(Reading(s, k), a.inside);
        RemovedTracked(Do(Reading(s, k), a.inside), k);
      }
    }
  }

  lemma StoppedTracked(s: State, k: u16)
    requires Tracked(s)
    ensures Tracked(Noted(s.(polled := s.polled - {k}), Stopped(k)))
  {
    var r := s.(polled := s.polled - {k});
    assert forall j: u16 :: QueueOf(r, j) == QueueOf(s, j);
    assert Tracked(r) by { hide Known, ServedWell; }
    NotedTracked(r, Stopped(k));
  }

  lemma SentTracked(s: State, a: Action, item: (string, CbItem), front: nat)
    requires a.Poll? && Tracked(s) && Known(s.log, a.fd, item.0, item.1.id)
    ensures Tracked(Sent(s, a, item, front))
  {
    hide Tracked, Hit, Leads;
    if WillMark(a, item.0) {
      var p := Leads(s, a.fd, item.0, front, a.stray);
      HitTracked(s, p);
      HitSame(s, p, 0);
      NotedTracked(Hit(s, p), Written(a.fd, item.0, item.1.id, a.sending, HandlerOf(item.0), a.reply));
    }
  }

  lemma EmptyTracked()
    ensures Tracked(Empty)
  {
  }

  // ---------------------------------------------------------------- over every run

  /** Whatever serves a request, some submission came before it. */
  lemma ServedWasSubmitted(acts: Actions, j: nat) returns (i: nat)
    requires j < |Do(Empty, acts).log| && Serves(Do(Empty, acts).log[j])
    ensures var log := Do(Empty, acts).log; i < j && log[i].Submitted? && log[i].id == log[j].id
  {
    EmptyTracked();
    DoTracked(Empty, acts);
    hide Do;
    var log := Do(Empty, acts).log;
    assert WellServed(log[..j], log[j]);
    i :| 0 <= i < j && log[..j][i] == Submitted(log[j].fd, log[j].name, log[j].id, log[j].handler);
    assert log[..j][i] == log[i];
  }

  /**
    Over every run: a request is asked for, written and read by the callback of the kind it was submitted in and by
    no other, on the descriptor it was submitted on, under that kind's name; and it is written on a fitting answer
    only, a query on a string and a prepare on two.
  */
  lemma ServedInKind(acts: Actions, i: nat, j: nat)
    requires i < |Do(Empty, acts).log| && j < |Do(Empty, acts).log|
    requires var log := Do(Empty, acts).log; log[i].Submitted? && Serves(log[j]) && log[i].id == log[j].id
    ensures var log := Do(Empty, acts).log;
            && i < j && log[j].fd == log[i].fd && log[j].handler == log[i].kind
            && log[j].name == log[i].name == (match log[i].kind case Query => "query" case Prepare => "prepare")
            && (log[j].Written? ==>
                  match log[i].kind case Query => log[j].reply == Text case Prepare => log[j].reply == TwoStrings)
  {
    EmptyTracked();
    DoTracked(Empty, acts);
    var n := ServedWasSubmitted(acts, j);
    hide Do;
    var s := Do(Empty, acts);
    assert OnceEach(s);
    assert n == i;
    assert WellServed(s.log[..j], s.log[j]);
    SubmittedOnce(s.log, j, i);
  }

  /** The submission that a served request goes back to is the one with its number. */
  lemma SubmittedOnce(log: seq<Note>, j: nat, i: nat)
    requires j < |log| && Serves(log[j]) && WellServed(log[..j], log[j]) && i < |log| && log[i].Submitted?
    requires log[i].id == log[j].id
    requires forall m, n :: 0 <= m < n < |log| && log[m].Submitted? && log[n].Submitted? ==> log[m].id != log[n].id
    ensures log[i] == Submitted(log[j].fd, Own(log[j].handler), log[j].id, log[j].handler)
  {
    var n :| 0 <= n < j && log[..j][n] == Submitted(log[j].fd, log[j].name, log[j].id, log[j].handler);
    assert log[..j][n] == log[n];
    assert n == i;
  }

  /** The oldest request of a descriptor after any run, by its submission. */
  lemma OldestSubmitted(acts: Actions, k: u16, i: nat)
    requires var s := Do(Empty, acts);
             && QueueOf(s, k) != [] && i < |s.log| && s.log[i].Submitted? && s.log[i].id == QueueOf(s, k)[0].1.id
    ensures var s := Do(Empty, acts);
            Tracked(s) && s.log[i].fd == k && s.log[i].name == QueueOf(s, k)[0].0 == Own(s.log[i].kind)
  {
    EmptyTracked();
    DoTracked(Empty, acts);
    hide Do;
    var s := Do(Empty, acts);
    var item := QueueOf(s, k)[0];
    OldestKnown(s, k);
    var n :| 0 <= n < |s.log| && s.log[n] == Submitted(k, item.0, item.1.id, KindOf(item.0));
    assert n == i;
  }

  /**
    After any run, a write event for the oldest request ends in a write exactly when the answer of its callback fits
    the kind it was submitted in and libpq takes it, or still has a result; otherwise nothing is noted.
  */
  lemma WritesExactly(acts: Actions, a: Action, i: nat)
    requires a.Poll? && a.fd in Do(Empty, acts).polled && QueueOf(Do(Empty, acts), a.fd) != []
    requires a.ready.writable && !a.busy && !QueueOf(Do(Empty, acts), a.fd)[0].1.written
    requires var s := Do(Empty, acts);
             i < |s.log| && s.log[i].Submitted? && s.log[i].id == QueueOf(s, a.fd)[0].1.id
    ensures var s := Do(Empty, acts);
            var kind, id, x := s.log[i].kind, s.log[i].id, a.sending;
            var m := Do(Noted(s, AskedToWrite(a.fd, Own(kind), id, kind)), a.inside);
            Polled(s, a).log
              == if Fits(kind, a.reply) && (x.first || x.result || x.second) then
                   m.log + [Written(a.fd, Own(kind), id, x, kind, a.reply)]
                 else m.log
  {
    OldestSubmitted(acts, a.fd, i);
    var s := Do(Empty, acts);
    OldestKnown(s, a.fd);
    hide Do, Hit, Leads, Tracked;
    var k, item := a.fd, QueueOf(s, a.fd)[0];
    assert Asking(s, k) == Noted(s, AskedToWrite(k, item.0, item.1.id, HandlerOf(item.0)));
    SentLog(Do(Asking(s, k), a.inside), a, item, FrontOf(s, k, item.0));
  }

  /**
    What one event on a running handle does after any run: with nothing pending it stops the handle; an unmarked
    request asks for a write when the descriptor is writable and the connection not busy; a marked one is read when
    the descriptor is readable; any other event does nothing.
  */
  lemma EventDoes(acts: Actions, a: Action)
    requires a.Poll? && a.fd in Do(Empty, acts).polled
    ensures var s := Do(Empty, acts);
            var q, r := QueueOf(s, a.fd), Polled(s, a);
            if q == [] then r == s.(polled := s.polled - {a.fd}, log := s.log + [Stopped(a.fd)])
            else if !q[0].1.written && a.ready.writable && !a.busy then
              |s.log| < |r.log| && r.log[|s.log|].AskedToWrite? && r.log[|s.log|].id == q[0].1.id
            else if q[0].1.written && a.ready.readable then
              |s.log| < |r.log| && r.log[|s.log|].ReadBack? && r.log[|s.log|].id == q[0].1.id
            else r == s
  {
    EmptyTracked();
    DoTracked(Empty, acts);
    var s, k := Do(Empty, acts), a.fd;
    hide Do, Hit, Leads, Tracked;
    if QueueOf(s, k) != [] {
      OldestKnown(s, k);
      var item := QueueOf(s, k)[0];
      DoGrows(Asking(s, k), a.inside);
      DoGrows(Reading(s, k), a.inside);
      SentLog(Do(Asking(s, k), a.inside), a, item, FrontOf(s, k, item.0));
      RemovedLog(Do(Reading(s, k), a.inside), k);
    }
  }

  lemma RemovedLog(s: State, k: u16)
    ensures s.log <= Removed(s, k).log
  {
  }
}
