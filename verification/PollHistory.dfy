/**
  What the log of a run tells: which descriptors are still polled, and which requests libpq never took.
*/
module PollHistory {
  import opened Http
  import opened DbQueue
  import opened PollProtocol
  import opened PollOrder
  import opened PollRuns

  // ---------------------------------------------------------------- which handles run

  /** The handles and the log account for each other. */
  predicate Handles(s: State, k: u16) {
    && (k in s.fds <==> Pick(s.log, k, InSubmits) != [])
    && (k in s.polled <==> k in s.fds && Stopped(k) !in s.log)
    && (Stopped(k) in s.log ==> k in s.fds)
  }

  lemma NotedHandles(s: State, n: Note, k: u16)
    requires Handles(s, k) && !n.Submitted? && !n.Stopped?
    ensures Handles(Noted(s, n), k)
  {
    PickNoted(s.log, n, k, InSubmits);
    hide Pick;
  }

  lemma SubmissionHandles(s: State, a: Action, k: u16)
    requires a.Submit? && Handles(s, k)
    ensures Handles(Submission(s, a), k)
  {
    var n := Submitted(a.fd, NameOf(a.kind), s.next, a.kind);
    SubmissionIs(s, a, k);
    PickNoted(s.log, n, k, InSubmits);
    hide Pick, Submission;
  }

  lemma StoppedHandles(s: State, j: u16, k: u16)
    requires Handles(s, k) && j in s.polled
    ensures Handles(Noted(s.(polled := s.polled - {j}), Stopped(j)), k)
  {
    PickNoted(s.log, Stopped(j), k, InSubmits);
    hide Pick;
  }

  lemma SameHandles(s: State, r: State, k: u16)
    requires Handles(s, k) && r.fds == s.fds && r.polled == s.polled && r.log == s.log
    ensures Handles(r, k)
  {
  }

  lemma {:induction false} DoHandles(s: State, acts: Actions, k: u16)
    requires Handles(s, k)
    ensures Handles(Do(s, acts), k)
    decreases acts
  {
    hide Handles;
    match acts
    case Nothing =>
    case Then(a, rest) =>
      if a.Submit? {
        SubmissionHandles(s, a, k);
        DoHandles(Submission(s, a), rest, k);
      } else {
        PolledHandles(s, a, k);
        DoHandles(Polled(s, a), rest, k);
      }
  }

  lemma {:induction false} PolledHandles(s: State, a: Action, k: u16)
    requires a.Poll? && Handles(s, k)
    ensures Handles(Polled(s, a), k)
    decreases a
  {
    hide Handles, Do, Hit, Leads;
    var j, q := a.fd, QueueOf(s, a.fd);
    if j !in s.polled {
    } else if q == [] {
      StoppedHandles(s, j, k);
    } else if Asks(a, q[0].1) {
      NotedHandles(s, AskedToWrite(j, q[0].0, q[0].1.id, HandlerOf(q[0].0)), k);
      DoHandles(Asking(s, j), a.inside, k);
      var m := Do(Asking(s, j), a.inside);
      var p := Leads(m, j, q[0].0, FrontOf(s, j, q[0].0), a.stray);
      HitSame(m, p, k);
      SameHandles(m, Hit(m, p), k);
      NotedHandles(Hit(m, p), Written(j, q[0].0, q[0].1.id, a.sending, HandlerOf(q[0].0), a.reply), k);
    } else if Reads(a, q[0].1) {
      NotedHandles(s, ReadBack(j, q[0].0, q[0].1.id, HandlerOf(q[0].0)), k);
      DoHandles(Reading(s, j), a.inside, k);
      var m := Do(Reading(s, j), a.inside);
      if QueueOf(m, j) == [] { NotedHandles(m, Panicked(j), k); } else { SameHandles(m, Removed(m, j), k); }
    }
  }

  /**
    After any run, a descriptor is polled if and only if something has been submitted on it and its handle has
    never stopped: once it has drained it is never polled again.
  */
  lemma RunningHandles(acts: Actions, k: u16)
    ensures var s := Do(Empty, acts);
            k in s.polled <==> Pick(s.log, k, InSubmits) != [] && Stopped(k) !in s.log
  {
    assert Handles(Empty, k);
    DoHandles(Empty, acts, k);
    hide Do, Pick;
  }

  /** Once the handle of a descriptor has stopped, no run starts it again: the descriptor set is never cleared. */
  lemma {:induction false} NeverRestarted(s: State, acts: Actions, k: u16)
    requires k in s.fds && k !in s.polled
    ensures k in Do(s, acts).fds && k !in Do(s, acts).polled
    decreases acts
  {
    match acts
    case Nothing =>
    case Then(a, rest) =>
      if a.Submit? { SubmissionIs(s, a, k); } else { NeverRestartedByPoll(s, a, k); }
      NeverRestarted(if a.Submit? then Submission(s, a) else Polled(s, a), rest, k);
      hide Polled, Submission, Do;
  }

  lemma {:induction false} NeverRestartedByPoll(s: State, a: Action, k: u16)
    requires a.Poll? && k in s.fds && k !in s.polled
    ensures k in Polled(s, a).fds && k !in Polled(s, a).polled
    decreases a
  {
    hide Do, Hit, Leads;
    var j, q := a.fd, QueueOf(s, a.fd);
    if j in s.polled && q != [] {
      NeverRestarted(Asking(s, j), a.inside, k);
      NeverRestarted(Reading(s, j), a.inside, k);
      var m := Do(Asking(s, j), a.inside);
      HitSame(m, Leads(m, j, q[0].0, FrontOf(s, j, q[0].0), a.stray), k);
    }
  }

  // ---------------------------------------------------------------- requests libpq never took

  predicate Untaken(log: seq<Note>) { log != [] && log[|log| - 1].Written? && !Taken(log[|log| - 1].sending) }

  /**
    A write event whose callback lets in nothing on its descriptor but pushes that leave the deque where it is: it
    leaves the request marked although libpq never took it exactly when the first send failed and PQgetResult
    still had a result; it leaves it unmarked exactly when the reply was not acceptable or both sends failed.
  */
  lemma WrittenButNotSent(s: State, a: Action)
    requires a.Poll? && a.fd in s.polled && QueueOf(s, a.fd) != [] && Asks(a, QueueOf(s, a.fd)[0].1)
    requires var name := QueueOf(s, a.fd)[0].0;
             (name == "query" || name == "prepare") && !LetsMove(Asking(s, a.fd), a.inside, a.fd, name)
    requires Quiet(a.inside, a.fd) && Clear(a.inside, a.fd)
    ensures var k, name, r, x := a.fd, QueueOf(s, a.fd)[0].0, Polled(s, a), a.sending;
            var fits := a.reply == if name == "query" then Text else TwoStrings;
            && QueueOf(r, k) != []
            && (QueueOf(r, k)[0].1.written && Untaken(r.log) <==> fits && !x.first && x.result)
            && (!QueueOf(r, k)[0].1.written <==> !fits || (!x.first && !x.result && !x.second))
  {
    var k, item := a.fd, QueueOf(s, a.fd)[0];
    var asked, m, front := Asking(s, k), Do(Asking(s, k), a.inside), FrontOf(s, k, item.0);
    hide Do, Hit, LetsMove, Quiet, Clear;
    QuietGrows(asked, a.inside, k);
    QuietFront(asked, a.inside, k, item.0);
    assert QueueOf(m, k)[0] == item;
    SentLog(m, a, item, front);
    HitFirst(m, k, Some(Place(k, item.0, 0)));
  }

  /** Every write in the log ended in a mark. */
  predicate OnlyMarked(log: seq<Note>) {
    forall i :: 0 <= i < |log| && log[i].Written? ==> Marks(log[i].sending)
  }

  lemma {:induction false} DoMarks(s: State, acts: Actions)
    requires OnlyMarked(s.log)
    ensures OnlyMarked(Do(s, acts).log)
    decreases acts
  {
    match acts
    case Nothing =>
    case Then(a, rest) =>
      if a.Submit? {
        SubmissionIs(s, a, a.fd);
        DoMarks(Submission(s, a), rest);
      } else {
        PolledMarks(s, a);
        DoMarks(Polled(s, a), rest);
      }
      hide Polled, Submission, Do;
  }

  lemma {:induction false} PolledMarks(s: State, a: Action)
    requires a.Poll? && OnlyMarked(s.log)
    ensures OnlyMarked(Polled(s, a).log)
    decreases a
  {
    hide Do, Hit, Leads;
    var j, q := a.fd, QueueOf(s, a.fd);
    if j in s.polled && q != [] {
      if Asks(a, q[0].1) {
        DoMarks(Asking(s, j), a.inside);
        SentLog(Do(Asking(s, j), a.inside), a, q[0], FrontOf(s, j, q[0].0));
      } else if Reads(a, q[0].1) {
        DoMarks(Reading(s, j), a.inside);
      }
    }
  }

  predicate WritesIt(n: Note, k: u16, name: string, id: nat) { n.Written? && n.fd == k && n.name == name && n.id == id }

  /** Before moment `i`, libpq has taken this request. */
  predicate TakenBefore(log: seq<Note>, i: nat, k: u16, name: string, id: nat)
    requires i <= |log|
  {
    exists j :: 0 <= j < i && WritesIt(log[j], k, name, id) && Taken(log[j].sending)
  }

  /** Before moment `i`, the first send failed and PQgetResult still had a result when this request was marked. */
  predicate MissedBefore(log: seq<Note>, i: nat, k: u16, name: string, id: nat)
    requires i <= |log|
  {
    exists j :: 0 <= j < i && WritesIt(log[j], k, name, id) && !log[j].sending.first && log[j].sending.result
  }

  /** What is picked stands in the log. */
  lemma {:induction false} PickedWrite(log: seq<Note>, k: u16, x: (string, nat)) returns (i: nat)
    requires x in Pick(log, k, InWrites)
    ensures i < |log| && WritesIt(log[i], k, x.0, x.1)
  {
    var front, n := log[..|log| - 1], log[|log| - 1];
    if x in Pick(front, k, InWrites) {
      i := PickedWrite(front, k, x);
    } else {
      assert x in Shown(n, k, InWrites);
      i := |log| - 1;
    }
  }

  lemma PickAt(log: seq<Note>, i: nat, k: u16, w: Which)
    requires i < |log|
    ensures Pick(log[..i + 1], k, w) == Pick(log[..i], k, w) + Shown(log[i], k, w)
  {
    assert log[..i + 1] == log[..i] + [log[i]];
    PickNoted(log[..i], log[i], k, w);
  }

  /** In order, a request that is read was written before. */
  lemma WrittenBeforeRead(log: seq<Note>, i: nat, k: u16) returns (j: nat)
    requires AlwaysInOrder(log, k) && i < |log| && log[i].ReadBack? && log[i].fd == k
    ensures j < i && WritesIt(log[j], k, log[i].name, log[i].id)
  {
    hide Pick, AlwaysInOrder;
    var x := (log[i].name, log[i].id);
    AtEveryMoment(log, k, i + 1);
    PickAt(log, i, k, InReads);
    PickAt(log, i, k, InWrites);
    LastOfPrefix(Pick(log[..i], k, InReads), x, Pick(log[..i], k, InWrites));
    j := PickedWrite(log[..i], k, x);
  }

  lemma LastOfPrefix(s: seq<(string, nat)>, x: (string, nat), more: seq<(string, nat)>)
    requires s + [x] <= more + []
    ensures x in more
  {
    assert more + [] == more && (s + [x])[|s|] == x;
    assert more[|s|] == x;
  }

  /** In order, no request is written twice. */
  lemma WrittenOnce(log: seq<Note>, k: u16, i: nat, j: nat)
    requires AlwaysInOrder(log, k) && i < j < |log| && log[i].Written? && log[i].fd == k
    requires Increasing(Pick(log, k, InSubmits))
    ensures !WritesIt(log[j], k, log[i].name, log[i].id)
  {
    hide Pick, AlwaysInOrder, Increasing;
    if WritesIt(log[j], k, log[i].name, log[i].id) {
      var x := (log[i].name, log[i].id);
      AtEveryMoment(log, k, j + 1);
      PickAt(log, i, k, InWrites);
      PickAt(log, j, k, InWrites);
      PickGrows(log[..i + 1], log[..j], k, InWrites);
      PickGrows(log[..j + 1], log, k, InSubmits);
      WrittenTwice(Pick(log[..i], k, InWrites), x, Pick(log[..j], k, InWrites), Pick(log, k, InSubmits));
    }
  }

  predicate Increasing(s: seq<(string, nat)>) { forall a, b :: 0 <= a < b < |s| ==> s[a].1 < s[b].1 }

  lemma WrittenTwice(before: seq<(string, nat)>, x: (string, nat), w: seq<(string, nat)>, submitted: seq<(string, nat)>)
    requires before + [x] <= w && Increasing(submitted)
    ensures !(w + [x] <= submitted)
  {
    assert (before + [x])[|before|] == x && w[|before|] == x;
    RepeatIsNoPrefix(w, x, submitted);
  }

  /**
    Over every run without a harmful event: a request that is read back has been written exactly once, before; and
    libpq never took it if and only if, at that write, the first send had failed and PQgetResult still had a
    result.
  */
  lemma ReadUntaken(acts: Actions, k: u16, i: nat)
    requires Harmless(Empty, acts, k, false) && i < |Do(Empty, acts).log|
    requires Do(Empty, acts).log[i].ReadBack? && Do(Empty, acts).log[i].fd == k
    ensures var log := Do(Empty, acts).log;
            var name, id := log[i].name, log[i].id;
            && (!TakenBefore(log, i, k, name, id) <==> MissedBefore(log, i, k, name, id))
            && exists j :: 0 <= j < i && WritesIt(log[j], k, name, id)
                 && forall m :: 0 <= m < |log| && m != j ==> !WritesIt(log[m], k, name, id)
  {
    var log := Do(Empty, acts).log;
    var name, id := log[i].name, log[i].id;
    RunsInOrder(acts, k);
    hide Do, AlwaysInOrder, Pick, Harmless, Increasing, OnlyMarked, TakenBefore, MissedBefore;
    var j := WrittenBeforeRead(log, i, k);
    forall m | 0 <= m < |log| && m != j ensures !WritesIt(log[m], k, name, id) {
      if m < j {
        if WritesIt(log[m], k, name, id) { WrittenOnce(log, k, m, j); }
      } else {
        WrittenOnce(log, k, j, m);
      }
    }
    OneWriteDecides(log, i, j, k, name, id);
  }

  lemma RunsInOrder(acts: Actions, k: u16)
    requires Harmless(Empty, acts, k, false)
    ensures var log := Do(Empty, acts).log;
            AlwaysInOrder(log, k) && Increasing(Pick(log, k, InSubmits)) && OnlyMarked(log)
  {
    assert Inv(Empty, k, false) && OnlyMarked(Empty.log);
    DoExactly(Empty, acts, k, false, false);
    DoMarks(Empty, acts);
    hide Do, AlwaysInOrder, Pick, Harmless, OnlyMarked;
  }

  lemma OneWriteDecides(log: seq<Note>, i: nat, j: nat, k: u16, name: string, id: nat)
    requires OnlyMarked(log) && j < i <= |log| && WritesIt(log[j], k, name, id)
    requires forall m :: 0 <= m < |log| && m != j ==> !WritesIt(log[m], k, name, id)
    ensures !TakenBefore(log, i, k, name, id) <==> MissedBefore(log, i, k, name, id)
  {
    assert Taken(log[j].sending) <==> !(!log[j].sending.first && log[j].sending.result);
  }
}
