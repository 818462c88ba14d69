/**
  What the order of requests comes down to in terms of events: runs in which every mark lands, re-entry one
  level deep, and the mark that a growing deque loses.
*/
module PollRuns {
  import opened Http
  import opened DbQueue
  import opened PollProtocol
  import opened PollOrder

  // ---------------------------------------------------------------- marks that land

  /** The marks in the queue say what the log says: the outstanding request is marked and no other is. */
  predicate Agree(s: State, k: u16, reading: bool) {
    var q := QueueOf(s, k);
    forall i :: 0 <= i < |q| ==> (q[i].1.written <==> i == 0 && (reading || Outstanding(s.log, k)))
  }

  /** Every mark is set in its own request: that has neither left nor moved while its write callback ran. */
  predicate Steady(s: State, acts: Actions)
    decreases acts
  {
    match acts
    case Nothing => true
    case Then(a, rest) =>
      if a.Submit? then Steady(Submission(s, a), rest) else SteadyPoll(s, a) && Steady(Polled(s, a), rest)
  }

  predicate SteadyPoll(s: State, a: Action)
    requires a.Poll?
    decreases a
  {
    var k, q := a.fd, QueueOf(s, a.fd);
    if k !in s.polled || q == [] || (q[0].0 != QUERY && q[0].0 != PREPARE) then true
    else if Asks(a, q[0].1) then
      && Steady(Asking(s, k), a.inside)
      && (WillMark(a, q[0].0) ==> FrontOf(Do(Asking(s, k), a.inside), k, q[0].0) == FrontOf(s, k, q[0].0))
    else if Reads(a, q[0].1) then Steady(Reading(s, k), a.inside)
    else true
  }

  lemma SubmissionAgrees(s: State, a: Action, k: u16, reading: bool)
    requires a.Submit? && Inv(s, k, reading) && Agree(s, k, reading)
    ensures Agree(Submission(s, a), k, reading)
  {
    SubmissionIs(s, a, k);
    SubmissionKeeps(s, a, k, reading);
    hide Inv, Submission, Outstanding;
    if QueueOf(s, k) == [] { NothingOutstanding(s, k, reading); }
  }

  lemma NothingOutstanding(s: State, k: u16, reading: bool)
    requires Inv(s, k, reading) && QueueOf(s, k) == []
    ensures !reading && !Outstanding(s.log, k)
  {
    if Outstanding(s.log, k) { OutstandingIsOldest(s, k, reading); }
    hide Outstanding, Pick, AlwaysInOrder;
  }

  /** A mark on another descriptor. */
  lemma HitElsewhere(s: State, j: u16, name: string, i: nat, k: u16)
    requires j != k
    ensures QueueOf(Hit(s, Some(Place(j, name, i))), k) == QueueOf(s, k)
  {
    hide MarkedAt;
  }

  /** A mark on the oldest request. */
  lemma HitOldest(s: State, k: u16, name: string)
    requires QueueOf(s, k) != [] && QueueOf(s, k)[0].0 == name
    ensures var q := QueueOf(s, k);
            QueueOf(Hit(s, Some(Place(k, name, 0))), k) == [(name, q[0].1.(written := true))] + q[1..]
  {
    assert Named(QueueOf(s, k), name)[0] == QueueOf(s, k)[0].1;
  }

  /** Along a harmless run with steady marks, the marks keep saying what the log says. */
  lemma {:induction false} DoAgrees(s: State, acts: Actions, k: u16, reading: bool, armed: bool)
    requires Inv(s, k, reading) && Awaits(s, k, reading, armed) && Agree(s, k, reading)
    requires Harmless(s, acts, k, armed) && Steady(s, acts)
    ensures Agree(Do(s, acts), k, reading)
    decreases acts
  {
    match acts
    case Nothing =>
    case Then(a, rest) =>
      var m := if a.Submit? then Submission(s, a) else Polled(s, a);
      if a.Submit? {
        SubmissionKeeps(s, a, k, reading);
        SubmissionAgrees(s, a, k, reading);
      } else {
        PolledExactly(s, a, k, reading, armed);
        PolledAgrees(s, a, k, reading, armed);
      }
      hide Inv, Agree, Polled, Submission, HarmlessPoll, SteadyPoll, Outstanding;
      Later(s, m, m, k, reading, armed);
      DoAgrees(m, rest, k, reading, armed);
  }

  lemma {:induction false} PolledAgrees(s: State, a: Action, k: u16, reading: bool, armed: bool)
    requires a.Poll? && Inv(s, k, reading) && Awaits(s, k, reading, armed) && Agree(s, k, reading)
    requires HarmlessPoll(s, a, k, armed) && SteadyPoll(s, a)
    ensures Agree(Polled(s, a), k, reading)
    decreases a
  {
    var j, q := a.fd, QueueOf(s, a.fd);
    if j !in s.polled || (q != [] && q[0].0 != QUERY && q[0].0 != PREPARE) {
    } else if q == [] {
      StoppedKeeps(s, j, k, reading);
      hide Inv, Outstanding;
    } else if Asks(a, q[0].1) {
      AsksAgrees(s, a, k, reading, armed);
      hide Inv, Agree, Harmless, Steady, Do, Sent, Outstanding;
    } else if Reads(a, q[0].1) {
      ReadsAgrees(s, a, k, reading, armed);
      hide Inv, Agree, Harmless, Steady, Do, Outstanding;
    }
  }

  lemma SameAgree(s: State, r: State, k: u16, reading: bool)
    requires Agree(s, k, reading) && QueueOf(r, k) == QueueOf(s, k) && Outstanding(r.log, k) == Outstanding(s.log, k)
    ensures Agree(r, k, reading)
  {
    hide Outstanding;
  }

  lemma {:induction false} AsksAgrees(s: State, a: Action, k: u16, reading: bool, armed: bool)
    requires a.Poll? && Inv(s, k, reading) && Awaits(s, k, reading, armed) && Agree(s, k, reading)
    requires QueueOf(s, a.fd) != [] && a.fd in s.polled && Asks(a, QueueOf(s, a.fd)[0].1)
    requires var name := QueueOf(s, a.fd)[0].0; name == QUERY || name == PREPARE
    requires HarmlessPoll(s, a, k, armed) && SteadyPoll(s, a)
    ensures var item := QueueOf(s, a.fd)[0];
            Agree(Sent(Do(Asking(s, a.fd), a.inside), a, item, FrontOf(s, a.fd, item.0)), k, reading)
    decreases a, 0
  {
    var j, item := a.fd, QueueOf(s, a.fd)[0];
    var marks := WillMark(a, item.0);
    var asked, m := Asking(s, j), Do(Asking(s, j), a.inside);
    var n, p := Written(j, item.0, item.1.id, a.sending, HandlerOf(item.0), a.reply), Place(j, item.0, 0);
    var armed' := armed || (j == k && marks);
    assert Harmless(asked, a.inside, k, armed') && Steady(asked, a.inside);
    assert marks ==> FrontOf(m, j, item.0) == FrontOf(s, j, item.0);
    NotedKeeps(s, AskedToWrite(j, item.0, item.1.id, HandlerOf(item.0)), k, reading);
    if j == k { assert !reading; }
    hide Inv, Harmless, HarmlessPoll, Steady, SteadyPoll, Do, Outstanding, Hit, Agree;
    SameAgree(s, asked, k, reading);
    DoExactly(asked, a.inside, k, reading, armed');
    DoAgrees(asked, a.inside, k, reading, armed');
    if marks {
      assert Sent(m, a, item, FrontOf(s, j, item.0)) == Noted(Hit(m, Some(p)), n);
      if j == k { MarkAgrees(m, k, item, a.sending, a.reply); } else { MarkAgreesElsewhere(m, p, n, k, reading); }
    }
  }

  lemma MarkAgrees(s: State, k: u16, item: (string, CbItem), sending: Sending, reply: Reply)
    requires Inv(s, k, false) && Agree(s, k, false) && !Outstanding(s.log, k)
    requires QueueOf(s, k) != [] && QueueOf(s, k)[0].0 == item.0
    ensures var n := Written(k, item.0, item.1.id, sending, HandlerOf(item.0), reply);
            Agree(Noted(Hit(s, Some(Place(k, item.0, 0))), n), k, false)
  {
    HitOldest(s, k, item.0);
    MarkedOutstanding(s, k, item, sending, reply);
    HitSame(s, Some(Place(k, item.0, 0)), k);
    hide Inv, Outstanding, Hit;
  }

  lemma MarkAgreesElsewhere(s: State, p: Place, n: Note, k: u16, reading: bool)
    requires Inv(s, k, reading) && Agree(s, k, reading) && p.fd != k && n.Written? && n.fd != k
    ensures Agree(Noted(Hit(s, Some(p)), n), k, reading)
  {
    HitElsewhere(s, p.fd, p.name, p.index, k);
    HitKeeps(s, Some(p), k, reading);
    HitSame(s, Some(p), k);
    hide Inv, Outstanding, Hit;
    NotedKeeps(Hit(s, Some(p)), n, k, reading);
  }

  lemma MarkedOutstanding(s: State, k: u16, item: (string, CbItem), sending: Sending, reply: Reply)
    requires Inv(s, k, false)
    ensures Outstanding(s.log + [Written(k, item.0, item.1.id, sending, HandlerOf(item.0), reply)], k)
  {
    var n := Written(k, item.0, item.1.id, sending, HandlerOf(item.0), reply);
    PickNoted(s.log, n, k, InWrites);
    PickNoted(s.log, n, k, InReads);
    hide Pick, AlwaysInOrder, Numbered;
  }

  lemma {:induction false} ReadsAgrees(s: State, a: Action, k: u16, reading: bool, armed: bool)
    requires a.Poll? && Inv(s, k, reading) && Awaits(s, k, reading, armed) && Agree(s, k, reading)
    requires QueueOf(s, a.fd) != [] && a.fd in s.polled && Reads(a, QueueOf(s, a.fd)[0].1)
    requires var name := QueueOf(s, a.fd)[0].0; name == QUERY || name == PREPARE
    requires HarmlessPoll(s, a, k, armed) && SteadyPoll(s, a)
    ensures Agree(Removed(Do(Reading(s, a.fd), a.inside), a.fd), k, reading)
    decreases a, 0
  {
    var j, item := a.fd, QueueOf(s, a.fd)[0];
    var begun, m := Reading(s, j), Do(Reading(s, j), a.inside);
    assert Harmless(begun, a.inside, k, armed) && Steady(begun, a.inside);
    if j == k {
      OutstandingIsOldest(s, k, reading);
      ReadingStarts(s, k);
      hide Inv, Harmless, HarmlessPoll, Steady, SteadyPoll, Do, Outstanding;
      assert Agree(begun, k, true);
      hide Agree;
      DoExactly(begun, a.inside, k, true, false);
      DoAgrees(begun, a.inside, k, true, false);
      RemovedAgrees(m, k);
    } else {
      NotedKeeps(s, ReadBack(j, item.0, item.1.id, HandlerOf(item.0)), k, reading);
      hide Inv, Harmless, HarmlessPoll, Steady, SteadyPoll, Do, Outstanding, Agree;
      SameAgree(s, begun, k, reading);
      DoExactly(begun, a.inside, k, reading, armed);
      DoAgrees(begun, a.inside, k, reading, armed);
      RemovedKeeps(m, j, k, reading);
      SameAgree(m, Removed(m, j), k, reading);
    }
  }

  lemma RemovedAgrees(s: State, k: u16)
    requires Inv(s, k, true) && Agree(s, k, true)
    ensures Agree(Removed(s, k), k, false)
  {
    ReadingNothing(s, k);
    RemovedKeeps(s, k, k, true);
    hide Inv, Outstanding;
  }

  lemma ReadingNothing(s: State, k: u16)
    requires Inv(s, k, true)
    ensures !Outstanding(s.log, k) && QueueOf(s, k) != []
  {
    hide Pick, AlwaysInOrder;
  }

  // ---------------------------------------------------------------- then the callbacks alone decide

  /**
    No event on `k` reads while a read callback of `k` is running (`reading`) or writes while a write callback of
    `k` is running that will end in a write (`armed`).
  */
  predicate Undisturbed(s: State, acts: Actions, k: u16, reading: bool, armed: bool)
    decreases acts
  {
    match acts
    case Nothing => true
    case Then(a, rest) =>
      if a.Submit? then Undisturbed(Submission(s, a), rest, k, reading, armed)
      else UndisturbedPoll(s, a, k, reading, armed) && Undisturbed(Polled(s, a), rest, k, reading, armed)
  }

  predicate UndisturbedPoll(s: State, a: Action, k: u16, reading: bool, armed: bool)
    requires a.Poll?
    decreases a
  {
    var j, q := a.fd, QueueOf(s, a.fd);
    if j !in s.polled || q == [] || (q[0].0 != QUERY && q[0].0 != PREPARE) then true
    else if Asks(a, q[0].1) then
      var marks := j == k && WillMark(a, q[0].0);
      !(armed && marks) && Undisturbed(Asking(s, j), a.inside, k, reading, armed || marks)
    else if Reads(a, q[0].1) then
      !(j == k && reading) && Undisturbed(Reading(s, j), a.inside, k, reading || j == k, armed)
    else true
  }

  /** Where every mark lands, the harmful events are the re-entries of a running callback. */
  lemma {:induction false} SteadyExactly(s: State, acts: Actions, k: u16, reading: bool, armed: bool)
    requires Inv(s, k, reading) && Awaits(s, k, reading, armed) && Agree(s, k, reading) && Steady(s, acts)
    ensures Harmless(s, acts, k, armed) <==> Undisturbed(s, acts, k, reading, armed)
    decreases acts
  {
    match acts
    case Nothing =>
    case Then(a, rest) =>
      var m := if a.Submit? then Submission(s, a) else Polled(s, a);
      if a.Submit? {
        SubmissionKeeps(s, a, k, reading);
        SubmissionAgrees(s, a, k, reading);
      } else {
        SteadyPollExactly(s, a, k, reading, armed);
        PolledExactly(s, a, k, reading, armed);
        if HarmlessPoll(s, a, k, armed) { PolledAgrees(s, a, k, reading, armed); }
      }
      hide Inv, Agree, Polled, Submission, HarmlessPoll, UndisturbedPoll, SteadyPoll, Outstanding;
      if a.Submit? || HarmlessPoll(s, a, k, armed) {
        Later(s, m, m, k, reading, armed);
        SteadyExactly(m, rest, k, reading, armed);
      }
  }

  lemma {:induction false} SteadyPollExactly(s: State, a: Action, k: u16, reading: bool, armed: bool)
    requires a.Poll? && Inv(s, k, reading) && Awaits(s, k, reading, armed) && Agree(s, k, reading) && SteadyPoll(s, a)
    ensures HarmlessPoll(s, a, k, armed) <==> UndisturbedPoll(s, a, k, reading, armed)
    decreases a
  {
    var j, q := a.fd, QueueOf(s, a.fd);
    if j in s.polled && q != [] && (q[0].0 == QUERY || q[0].0 == PREPARE) {
      if Asks(a, q[0].1) {
        var marks := j == k && WillMark(a, q[0].0);
        NotedKeeps(s, AskedToWrite(j, q[0].0, q[0].1.id, HandlerOf(q[0].0)), k, reading);
        SameAgree(s, Asking(s, j), k, reading);
        hide Inv, Harmless, Undisturbed, Steady, Outstanding;
        if !(armed && marks) { SteadyExactly(Asking(s, j), a.inside, k, reading, armed || marks); }
      } else if Reads(a, q[0].1) && j == k {
        if Outstanding(s.log, k) {
          OutstandingIsOldest(s, k, reading);
          ReadingStarts(s, k);
          hide Inv, Harmless, Undisturbed, Steady, Outstanding;
          SteadyExactly(Reading(s, k), a.inside, k, true, false);
        }
        hide Inv, Harmless, Undisturbed, Steady, Outstanding;
      } else if Reads(a, q[0].1) {
        NotedKeeps(s, ReadBack(j, q[0].0, q[0].1.id, HandlerOf(q[0].0)), k, reading);
        SameAgree(s, Reading(s, j), k, reading);
        hide Inv, Harmless, Undisturbed, Steady, Outstanding;
        SteadyExactly(Reading(s, j), a.inside, k, reading, armed);
      }
    }
  }

  // ---------------------------------------------------------------- what can be told before the event

  /** No poll event of this descriptor happens inside. */
  predicate Quiet(acts: Actions, k: u16)
    decreases acts
  {
    match acts
    case Nothing => true
    case Then(a, rest) => (a.Poll? ==> a.fd != k && Quiet(a.inside, k)) && Quiet(rest, k)
  }

  /** No callback runs the event loop into the descriptor it belongs to. */
  predicate NotReentrant(acts: Actions)
    decreases acts
  {
    match acts
    case Nothing => true
    case Then(a, rest) => (a.Poll? ==> Quiet(a.inside, a.fd) && NotReentrant(a.inside)) && NotReentrant(rest)
  }

  lemma {:induction false} QuietIsHarmless(s: State, acts: Actions, k: u16, armed: bool)
    requires Quiet(acts, k)
    ensures Harmless(s, acts, k, armed)
    decreases acts
  {
    match acts
    case Nothing =>
    case Then(a, rest) =>
      if a.Poll? { QuietPollIsHarmless(s, a, k, armed); }
      QuietIsHarmless(if a.Submit? then Submission(s, a) else Polled(s, a), rest, k, armed);
      hide HarmlessPoll, Polled, Submission;
  }

  lemma {:induction false} QuietPollIsHarmless(s: State, a: Action, k: u16, armed: bool)
    requires a.Poll? && a.fd != k && Quiet(a.inside, k)
    ensures HarmlessPoll(s, a, k, armed)
    decreases a
  {
    var q := QueueOf(s, a.fd);
    if q != [] {
      QuietIsHarmless(Asking(s, a.fd), a.inside, k, armed);
      QuietIsHarmless(Reading(s, a.fd), a.inside, k, armed);
    }
    hide Harmless, Quiet;
  }

  lemma {:induction false} QuietIsUndisturbed(s: State, acts: Actions, k: u16, reading: bool, armed: bool)
    requires Quiet(acts, k)
    ensures Undisturbed(s, acts, k, reading, armed)
    decreases acts
  {
    match acts
    case Nothing =>
    case Then(a, rest) =>
      if a.Poll? { QuietPollIsUndisturbed(s, a, k, reading, armed); }
      QuietIsUndisturbed(if a.Submit? then Submission(s, a) else Polled(s, a), rest, k, reading, armed);
      hide UndisturbedPoll, Polled, Submission;
  }

  lemma {:induction false} QuietPollIsUndisturbed(s: State, a: Action, k: u16, reading: bool, armed: bool)
    requires a.Poll? && a.fd != k && Quiet(a.inside, k)
    ensures UndisturbedPoll(s, a, k, reading, armed)
    decreases a
  {
    var q := QueueOf(s, a.fd);
    if q != [] {
      QuietIsUndisturbed(Asking(s, a.fd), a.inside, k, reading, armed);
      QuietIsUndisturbed(Reading(s, a.fd), a.inside, k, reading, armed);
    }
    hide Undisturbed, Quiet;
  }

  lemma {:induction false} NotReentrantIsUndisturbed(s: State, acts: Actions, k: u16)
    requires NotReentrant(acts)
    ensures Undisturbed(s, acts, k, false, false)
    decreases acts
  {
    match acts
    case Nothing =>
    case Then(a, rest) =>
      if a.Poll? && QueueOf(s, a.fd) != [] {
        if a.fd == k {
          QuietIsUndisturbed(Asking(s, k), a.inside, k, false, WillMark(a, QueueOf(s, k)[0].0));
          QuietIsUndisturbed(Reading(s, k), a.inside, k, true, false);
        } else {
          NotReentrantIsUndisturbed(Asking(s, a.fd), a.inside, k);
          NotReentrantIsUndisturbed(Reading(s, a.fd), a.inside, k);
        }
      }
      NotReentrantIsUndisturbed(if a.Submit? then Submission(s, a) else Polled(s, a), rest, k);
      hide Polled, Submission, Quiet, Asking, Reading;
  }

  /** A push among these actions finds the deque of a name full and moves it. */
  predicate LetsMove(s: State, acts: Actions, k: u16, name: string)
    decreases acts
  {
    match acts
    case Nothing => false
    case Then(a, rest) =>
      if a.Submit? then
        || (a.fd == k && NameOf(a.kind) == name && Moves(QueueOf(s, k), name, a.moves))
        || LetsMove(Submission(s, a), rest, k, name)
      else LetsMoveInside(s, a, k, name) || LetsMove(Polled(s, a), rest, k, name)
  }

  predicate LetsMoveInside(s: State, a: Action, k: u16, name: string)
    requires a.Poll?
    decreases a
  {
    var q := QueueOf(s, a.fd);
    if a.fd !in s.polled || q == [] || (q[0].0 != QUERY && q[0].0 != PREPARE) then false
    else if Asks(a, q[0].1) then LetsMove(Asking(s, a.fd), a.inside, k, name)
    else if Reads(a, q[0].1) then LetsMove(Reading(s, a.fd), a.inside, k, name)
    else false
  }

  /** While nothing is read, the address of the oldest request changes exactly when a push moves its deque. */
  lemma {:induction false} QuietFront(s: State, acts: Actions, k: u16, name: string)
    requires Quiet(acts, k)
    ensures FrontOf(Do(s, acts), k, name) >= FrontOf(s, k, name)
    ensures FrontOf(Do(s, acts), k, name) == FrontOf(s, k, name) <==> !LetsMove(s, acts, k, name)
    decreases acts
  {
    match acts
    case Nothing =>
    case Then(a, rest) =>
      var m := if a.Submit? then Submission(s, a) else Polled(s, a);
      if a.Poll? { QuietPollFront(s, a, k, name); }
      QuietFront(m, rest, k, name);
      hide Polled, LetsMoveInside, Moves, Do, Quiet;
  }

  lemma {:induction false} QuietPollFront(s: State, a: Action, k: u16, name: string)
    requires a.Poll? && a.fd != k && Quiet(a.inside, k)
    ensures FrontOf(Polled(s, a), k, name) >= FrontOf(s, k, name)
    ensures FrontOf(Polled(s, a), k, name) == FrontOf(s, k, name) <==> !LetsMoveInside(s, a, k, name)
    decreases a
  {
    var j, q := a.fd, QueueOf(s, a.fd);
    if q != [] {
      QuietFront(Asking(s, j), a.inside, k, name);
      QuietFront(Reading(s, j), a.inside, k, name);
      var m := Do(Asking(s, j), a.inside);
      SentFronts(m, a, q[0], FrontOf(s, j, q[0].0));
    }
    hide Do, LetsMove, Quiet, Sent;
  }

  lemma SentFronts(s: State, a: Action, item: (string, CbItem), front: nat)
    requires a.Poll?
    ensures Sent(s, a, item, front).fronts == s.fronts && Sent(s, a, item, front).polled == s.polled
  {
    HitSame(s, Leads(s, a.fd, item.0, front, a.stray), a.fd);
    hide Hit, Leads;
  }

  /** No push among these actions moves a deque. */
  predicate Still(acts: Actions)
    decreases acts
  {
    match acts
    case Nothing => true
    case Then(a, rest) => (if a.Submit? then !a.moves else Still(a.inside)) && Still(rest)
  }

  lemma {:induction false} StillMovesNothing(s: State, acts: Actions, k: u16, name: string)
    requires Still(acts)
    ensures !LetsMove(s, acts, k, name)
    decreases acts
  {
    match acts
    case Nothing =>
    case Then(a, rest) =>
      if a.Poll? && QueueOf(s, a.fd) != [] {
        StillMovesNothing(Asking(s, a.fd), a.inside, k, name);
        StillMovesNothing(Reading(s, a.fd), a.inside, k, name);
      }
      StillMovesNothing(if a.Submit? then Submission(s, a) else Polled(s, a), rest, k, name);
      hide Polled, Submission;
  }

  /** No callback is entered again on its own descriptor and none of its pushes moves a deque: every mark lands. */
  lemma {:induction false} StillIsSteady(s: State, acts: Actions)
    requires NotReentrant(acts) && Still(acts)
    ensures Steady(s, acts)
    decreases acts
  {
    match acts
    case Nothing =>
    case Then(a, rest) =>
      if a.Poll? && QueueOf(s, a.fd) != [] {
        var k, name := a.fd, QueueOf(s, a.fd)[0].0;
        StillIsSteady(Asking(s, k), a.inside);
        StillIsSteady(Reading(s, k), a.inside);
        QuietFront(Asking(s, k), a.inside, k, name);
        StillMovesNothing(Asking(s, k), a.inside, k, name);
      }
      StillIsSteady(if a.Submit? then Submission(s, a) else Polled(s, a), rest);
      hide Polled, Submission, Do, LetsMove;
  }

  /**
    Runs in which no callback is entered again on its own descriptor, and every mark lands, are harmless to every
    descriptor; every mark does land if moreover no deque moves.
  */
  lemma NotReentrantIsHarmless(acts: Actions, k: u16)
    requires NotReentrant(acts) && (Steady(Empty, acts) || Still(acts))
    ensures Harmless(Empty, acts, k, false) && Agree(Do(Empty, acts), k, false)
  {
    assert Inv(Empty, k, false) && Agree(Empty, k, false);
    if Still(acts) { StillIsSteady(Empty, acts); }
    NotReentrantIsUndisturbed(Empty, acts, k);
    SteadyExactly(Empty, acts, k, false, false);
    DoAgrees(Empty, acts, k, false, false);
    hide Do, Inv, Agree, Harmless, Undisturbed, Steady, Outstanding;
  }

  // ---------------------------------------------------------------- the mark that a moving deque loses

  /** Nothing stray lies in a queue of `k`. */
  predicate Clear(acts: Actions, k: u16)
    decreases acts
  {
    match acts
    case Nothing => true
    case Then(a, rest) =>
      (a.Poll? ==> (a.stray.Some? ==> a.stray.value.fd != k) && Clear(a.inside, k)) && Clear(rest, k)
  }

  /** Without events of its own and stray marks a queue only grows, and its handle runs on. */
  lemma {:induction false} QuietGrows(s: State, acts: Actions, k: u16)
    requires Quiet(acts, k) && Clear(acts, k)
    ensures QueueOf(s, k) <= QueueOf(Do(s, acts), k) && (k in s.polled ==> k in Do(s, acts).polled)
    decreases acts
  {
    match acts
    case Nothing =>
    case Then(a, rest) =>
      var m := if a.Submit? then Submission(s, a) else Polled(s, a);
      if a.Submit? { SubmissionIs(s, a, k); } else { QuietPollGrows(s, a, k); }
      QuietGrows(m, rest, k);
      hide Polled, Submission, Do, Quiet, Clear;
  }

  lemma {:induction false} QuietPollGrows(s: State, a: Action, k: u16)
    requires a.Poll? && a.fd != k && Quiet(a.inside, k) && Clear(a.inside, k)
    requires a.stray.Some? ==> a.stray.value.fd != k
    ensures QueueOf(s, k) <= QueueOf(Polled(s, a), k) && (k in s.polled ==> k in Polled(s, a).polled)
    decreases a
  {
    var j, q := a.fd, QueueOf(s, a.fd);
    if q != [] {
      QuietGrows(Asking(s, j), a.inside, k);
      QuietGrows(Reading(s, j), a.inside, k);
      SentElsewhere(Do(Asking(s, j), a.inside), a, q[0], FrontOf(s, j, q[0].0), k);
    }
    hide Do, Quiet, Clear, Sent;
  }

  lemma SentElsewhere(s: State, a: Action, item: (string, CbItem), front: nat, k: u16)
    requires a.Poll? && a.fd != k && (a.stray.Some? ==> a.stray.value.fd != k)
    ensures var r := Sent(s, a, item, front); QueueOf(r, k) == QueueOf(s, k) && r.polled == s.polled
  {
    hide MarkedAt;
  }

  /** Only a mark in its own place marks the oldest request. */
  lemma HitFirst(s: State, k: u16, p: Option<Place>)
    requires QueueOf(s, k) != [] && !QueueOf(s, k)[0].1.written
    ensures var r := QueueOf(Hit(s, p), k);
            r != [] && (r[0].1.written <==> p == Some(Place(k, QueueOf(s, k)[0].0, 0)))
  {
    var q := QueueOf(s, k);
    if p.Some? && p.value.fd == k {
      var name, i := p.value.name, p.value.index;
      if name == q[0].0 { assert Named(q, name)[0] == q[0].1; }
      if i < |Named(q, name)| && !(name == q[0].0 && i == 0) {
        assert Replaced(q, name, i, Named(q, name)[i].(written := true))[0] == q[0];
      }
    }
  }

  /** An event that writes: its callback lets in nothing on `k` but pushes. */
  predicate Writes(s: State, a: Action) {
    && a.Poll? && a.fd in s.polled && QueueOf(s, a.fd) != [] && Asks(a, QueueOf(s, a.fd)[0].1)
    && WillMark(a, QueueOf(s, a.fd)[0].0) && Quiet(a.inside, a.fd) && Clear(a.inside, a.fd)
  }

  /** The mark misses: a push in the callback moves the deque, and the old address is not the request's by chance. */
  predicate Misses(s: State, a: Action)
    requires a.Poll? && QueueOf(s, a.fd) != []
  {
    var k, name := a.fd, QueueOf(s, a.fd)[0].0;
    LetsMove(Asking(s, k), a.inside, k, name) && a.stray != Some(Place(k, name, 0))
  }

  /** A write with none outstanding keeps the order, and leaves its request unmarked exactly when the mark misses. */
  lemma MarkMisses(s: State, a: Action)
    requires Writes(s, a) && Inv(s, a.fd, false) && !Outstanding(s.log, a.fd)
    ensures var k, r := a.fd, Polled(s, a);
            && Inv(r, k, false) && Outstanding(r.log, k) && k in r.polled && SameOldest(s, r, k)
            && (QueueOf(r, k)[0].1.written <==> !Misses(s, a))
  {
    var k, item := a.fd, QueueOf(s, a.fd)[0];
    var asked, front := Asking(s, k), FrontOf(s, k, item.0);
    var m := Do(asked, a.inside);
    var p := Leads(m, k, item.0, front, a.stray);
    var n := Written(k, item.0, item.1.id, a.sending, HandlerOf(item.0), a.reply);
    OldestIsKnown(s, k, false);
    NotedKeeps(s, AskedToWrite(k, item.0, item.1.id, HandlerOf(item.0)), k, false);
    hide Inv, Harmless, Do, Outstanding, Hit, LetsMove, Quiet, Clear;
    QuietIsHarmless(asked, a.inside, k, true);
    DoExactly(asked, a.inside, k, false, true);
    QuietGrows(asked, a.inside, k);
    QuietFront(asked, a.inside, k, item.0);
    assert QueueOf(m, k)[0] == item;
    assert Polled(s, a) == Noted(Hit(m, p), n);
    HitFirst(m, k, p);
    HitSame(m, p, k);
    MarkedKeeps(m, k, p, n);
    MarkedOutstanding(m, k, item, a.sending, a.reply);
  }

  lemma OldestIsKnown(s: State, k: u16, reading: bool)
    requires Inv(s, k, reading) && QueueOf(s, k) != []
    ensures QueueOf(s, k)[0].0 == QUERY || QueueOf(s, k)[0].0 == PREPARE
  {
    hide Pick, AlwaysInOrder;
  }

  /** The next event is ready to write, and would. */
  predicate WantsToWrite(a: Action, k: u16, name: string) {
    a.Poll? && a.fd == k && a.ready.writable && !a.busy && WillMark(a, name) && Quiet(a.inside, k)
  }

  /**
    While a request is outstanding, such an event breaks the order exactly when the oldest request is not marked:
    then it is written again.
  */
  lemma SecondWrite(s: State, a: Action)
    requires a.Poll? && a.fd in s.polled && QueueOf(s, a.fd) != [] && WantsToWrite(a, a.fd, QueueOf(s, a.fd)[0].0)
    requires Inv(s, a.fd, false) && Outstanding(s.log, a.fd)
    ensures AlwaysInOrder(Polled(s, a).log, a.fd) <==> QueueOf(s, a.fd)[0].1.written
  {
    var k := a.fd;
    OldestIsKnown(s, k, false);
    QuietIsHarmless(Reading(s, k), a.inside, k, false);
    PolledExactly(s, a, k, false, false);
    hide Inv, Harmless, Polled, Outstanding, Quiet, AlwaysInOrder;
    InvInOrder(Polled(s, a), k);
  }

  lemma InvInOrder(s: State, k: u16)
    ensures Inv(s, k, false) ==> AlwaysInOrder(s.log, k)
  {
    hide AlwaysInOrder, Accounts, Numbered;
  }

  /**
    A write and then an event that is ready to write, with nothing let in on the descriptor but pushes: the order
    is kept if and only if the mark of the first does not miss.
  */
  lemma LostMark(s: State, a: Action, b: Action)
    requires Writes(s, a) && Inv(s, a.fd, false) && !Outstanding(s.log, a.fd)
    requires WantsToWrite(b, a.fd, QueueOf(s, a.fd)[0].0)
    ensures AlwaysInOrder(Polled(Polled(s, a), b).log, a.fd) <==> !Misses(s, a)
  {
    MarkMisses(s, a);
    hide Inv, Polled, Outstanding, Quiet, AlwaysInOrder, Misses;
    SecondWrite(Polled(s, a), b);
  }

  // ---------------------------------------------------------------- re-entry, one level deep

  /** Events on `k` happen inside, but none inside those. */
  predicate OneLevel(acts: Actions, k: u16)
    decreases acts
  {
    match acts
    case Nothing => true
    case Then(a, rest) => (a.Poll? ==> Quiet(a.inside, k)) && OneLevel(rest, k)
  }

  /** One of them is readable. */
  predicate LetsRead(acts: Actions, k: u16)
    decreases acts
  {
    match acts
    case Nothing => false
    case Then(a, rest) => (a.Poll? && a.fd == k && a.ready.readable) || LetsRead(rest, k)
  }

  /** One of them finds the descriptor writable and idle, gets an acceptable reply and marks the request. */
  predicate LetsWrite(acts: Actions, k: u16, name: string)
    decreases acts
  {
    match acts
    case Nothing => false
    case Then(a, rest) =>
      (a.Poll? && a.fd == k && a.ready.writable && !a.busy && WillMark(a, name)) || LetsWrite(rest, k, name)
  }

  lemma {:induction false} QuietPolled(s: State, acts: Actions, k: u16)
    requires Quiet(acts, k)
    ensures k in s.polled ==> k in Do(s, acts).polled
    decreases acts
  {
    match acts
    case Nothing =>
    case Then(a, rest) =>
      if a.Submit? { SubmissionIs(s, a, k); } else { QuietPollPolled(s, a, k); }
      QuietPolled(if a.Submit? then Submission(s, a) else Polled(s, a), rest, k);
      hide Polled, Submission, Do, Quiet;
  }

  lemma {:induction false} QuietPollPolled(s: State, a: Action, k: u16)
    requires a.Poll? && a.fd != k && Quiet(a.inside, k)
    ensures k in s.polled ==> k in Polled(s, a).polled
    decreases a
  {
    var j, q := a.fd, QueueOf(s, a.fd);
    if q != [] {
      QuietPolled(Asking(s, j), a.inside, k);
      QuietPolled(Reading(s, j), a.inside, k);
      SentFronts(Do(Asking(s, j), a.inside), a, q[0], FrontOf(s, j, q[0].0));
    }
    hide Do, Quiet, Sent;
  }

  /** While the oldest request is being read, only a readable event of its own does anything to the order. */
  lemma PollInsideRead(s: State, a: Action, k: u16)
    requires a.Poll? && Inv(s, k, true) && Quiet(a.inside, k) && k in s.polled
    ensures HarmlessPoll(s, a, k, false) <==> !(a.fd == k && a.ready.readable)
    ensures HarmlessPoll(s, a, k, false) ==> k in Polled(s, a).polled
  {
    ReadingNothing(s, k);
    OldestIsKnown(s, k, true);
    if a.fd != k {
      QuietPollIsHarmless(s, a, k, false);
      QuietPollPolled(s, a, k);
    }
    hide AlwaysInOrder, Numbered, Pick, Harmless, Quiet, Outstanding;
  }

  lemma {:induction false} InsideRead(s: State, acts: Actions, k: u16)
    requires Inv(s, k, true) && OneLevel(acts, k) && k in s.polled
    ensures Harmless(s, acts, k, false) <==> !LetsRead(acts, k)
    decreases acts
  {
    hide Inv, HarmlessPoll, Polled, Submission, Quiet;
    match acts
    case Nothing =>
    case Then(a, rest) =>
      if a.Submit? {
        SubmissionIs(s, a, k);
        SubmissionKeeps(s, a, k, true);
        InsideRead(Submission(s, a), rest, k);
      } else {
        PollInsideRead(s, a, k);
        PolledExactly(s, a, k, true, false);
        if HarmlessPoll(s, a, k, false) { InsideRead(Polled(s, a), rest, k); }
      }
  }

  /**
    Re-entry into a read callback, with any list of actions inside it: the order is kept if and only if the
    request was outstanding and no event on its own descriptor is readable.
  */
  lemma ReentryWhileReading(s: State, a: Action)
    requires a.Poll? && a.fd in s.polled && OneLevel(a.inside, a.fd) && Inv(s, a.fd, false)
    requires QueueOf(s, a.fd) != [] && Reads(a, QueueOf(s, a.fd)[0].1)
    ensures AlwaysInOrder(Polled(s, a).log, a.fd) <==> Outstanding(s.log, a.fd) && !LetsRead(a.inside, a.fd)
  {
    var k := a.fd;
    OldestIsKnown(s, k, false);
    PolledExactly(s, a, k, false, false);
    if Outstanding(s.log, k) {
      ReadingStarts(s, k);
      InsideRead(Reading(s, k), a.inside, k);
    }
    hide Harmless, Do, Outstanding, Inv, AlwaysInOrder, Polled;
    InvInOrder(Polled(s, a), k);
  }

  /** The oldest request waits to be written, and is not marked. */
  predicate Unmarked(s: State, k: u16) {
    QueueOf(s, k) != [] && !QueueOf(s, k)[0].1.written && k in s.polled
  }

  lemma PollInsideWrite(s: State, a: Action, k: u16)
    requires a.Poll? && Inv(s, k, false) && !Outstanding(s.log, k) && Unmarked(s, k)
    requires Quiet(a.inside, k) && Clear(a.inside, k) && (a.stray.Some? ==> a.stray.value.fd != k)
    ensures HarmlessPoll(s, a, k, true)
       <==> !(a.fd == k && a.ready.writable && !a.busy && WillMark(a, QueueOf(s, k)[0].0))
    ensures HarmlessPoll(s, a, k, true) ==> Unmarked(Polled(s, a), k) && SameOldest(s, Polled(s, a), k)
  {
    OldestIsKnown(s, k, false);
    if a.fd != k {
      QuietPollIsHarmless(s, a, k, true);
      QuietPollGrows(s, a, k);
    } else {
      QuietIsHarmless(Asking(s, k), a.inside, k, true);
      QuietGrows(Asking(s, k), a.inside, k);
    }
    hide Inv, Harmless, Quiet, Clear, Outstanding, Do;
  }

  lemma {:induction false} InsideWrite(s: State, acts: Actions, k: u16)
    requires Inv(s, k, false) && !Outstanding(s.log, k) && Unmarked(s, k) && OneLevel(acts, k) && Clear(acts, k)
    ensures Harmless(s, acts, k, true) <==> !LetsWrite(acts, k, QueueOf(s, k)[0].0)
    decreases acts
  {
    hide Inv, HarmlessPoll, Polled, Submission, Quiet, WillMark, Outstanding;
    match acts
    case Nothing =>
    case Then(a, rest) =>
      if a.Submit? {
        SubmissionIs(s, a, k);
        SubmissionKeeps(s, a, k, false);
        InsideWrite(Submission(s, a), rest, k);
      } else {
        PollInsideWrite(s, a, k);
        PolledExactly(s, a, k, false, true);
        if HarmlessPoll(s, a, k, true) { InsideWrite(Polled(s, a), rest, k); }
      }
  }

  /**
    Re-entry into a write callback that will end in a write: the order is kept at this event if and only if no
    request was outstanding and no event on its own descriptor writes and marks a request.  What its pushes do to
    the mark shows at a later event.
  */
  lemma ReentryWhileWriting(s: State, a: Action)
    requires a.Poll? && OneLevel(a.inside, a.fd) && Clear(a.inside, a.fd) && Inv(s, a.fd, false) && Unmarked(s, a.fd)
    requires Asks(a, QueueOf(s, a.fd)[0].1) && WillMark(a, QueueOf(s, a.fd)[0].0)
    ensures AlwaysInOrder(Polled(s, a).log, a.fd) <==>
              !Outstanding(s.log, a.fd) && !LetsWrite(a.inside, a.fd, QueueOf(s, a.fd)[0].0)
  {
    var k, item := a.fd, QueueOf(s, a.fd)[0];
    OldestIsKnown(s, k, false);
    PolledExactly(s, a, k, false, false);
    NotedKeeps(s, AskedToWrite(k, item.0, item.1.id, HandlerOf(item.0)), k, false);
    hide Do, Outstanding, Inv, AlwaysInOrder, Polled, Clear, LetsWrite, OneLevel, Asks;
    if !Outstanding(s.log, k) { InsideWrite(Asking(s, k), a.inside, k); }
    InvInOrder(Polled(s, a), k);
    hide Harmless;
  }

  /** Inside a write callback that will not end in a write nothing reads or writes while another does. */
  lemma {:induction false} IdleIsUndisturbed(s: State, acts: Actions, k: u16)
    requires OneLevel(acts, k)
    ensures Undisturbed(s, acts, k, false, false)
    decreases acts
  {
    match acts
    case Nothing =>
    case Then(a, rest) =>
      if a.Poll? && QueueOf(s, a.fd) != [] {
        var marks := a.fd == k && WillMark(a, QueueOf(s, a.fd)[0].0);
        QuietIsUndisturbed(Asking(s, a.fd), a.inside, k, false, marks);
        QuietIsUndisturbed(Reading(s, a.fd), a.inside, k, a.fd == k, false);
      }
      IdleIsUndisturbed(if a.Submit? then Submission(s, a) else Polled(s, a), rest, k);
      hide Polled, Submission, Quiet, Asking, Reading;
  }

  /** Such a callback may let in anything on its descriptor, one level deep, if the marks land. */
  lemma ReentryWhileIdle(s: State, a: Action)
    requires a.Poll? && a.fd in s.polled && OneLevel(a.inside, a.fd) && Inv(s, a.fd, false) && Agree(s, a.fd, false)
    requires QueueOf(s, a.fd) != [] && Asks(a, QueueOf(s, a.fd)[0].1) && !WillMark(a, QueueOf(s, a.fd)[0].0)
    requires SteadyPoll(s, a)
    ensures AlwaysInOrder(Polled(s, a).log, a.fd)
  {
    var k := a.fd;
    OldestIsKnown(s, k, false);
    IdleIsUndisturbed(Asking(s, k), a.inside, k);
    SteadyPollExactly(s, a, k, false, false);
    PolledExactly(s, a, k, false, false);
    hide Do, Outstanding, Inv, AlwaysInOrder, Polled, Undisturbed, Harmless, HarmlessPoll, Steady, SteadyPoll;
    InvInOrder(Polled(s, a), k);
  }

  // ---------------------------------------------------------------- at the tenth request

  /** `n` queries in a row. */
  function Queries(k: u16, n: nat, rest: Actions): Actions {
    if n == 0 then rest else Queries(k, n - 1, Then(Submit(k, Query, 0, false), rest))
  }

  /** A writable event whose query libpq takes at once. */
  function Writable(k: u16, inside: Actions): Action {
    Poll(k, Ready(false, true), false, Text, Sending(true, false, false), inside, None)
  }

  /** The callback submits one more query, and a full deque moves. */
  function OneMore(k: u16): Actions { Then(Submit(k, Query, 0, true), Nothing) }

  /** `n` queries, a write whose callback submits another one, and one more writable event. */
  function TwoWrites(k: u16, n: nat): Actions {
    Queries(k, n, Then(Writable(k, OneMore(k)), Then(Writable(k, Nothing), Nothing)))
  }

  /** `n` fresh queries are waiting, and nothing else has happened. */
  predicate Waiting(s: State, k: u16, n: nat) {
    && Inv(s, k, false) && !Outstanding(s.log, k) && |QueueOf(s, k)| == n && (n > 0 <==> k in s.polled)
    && s.polled <= s.fds && s.fds <= {k} && (n == 0 ==> s.fds == {})
    && forall i :: 0 <= i < n ==> QueueOf(s, k)[i].0 == QUERY && !QueueOf(s, k)[i].1.written
  }

  lemma WaitingMore(s: State, k: u16, n: nat)
    requires Waiting(s, k, n)
    ensures Waiting(Submission(s, Submit(k, Query, 0, false)), k, n + 1)
  {
    var a := Submit(k, Query, 0, false);
    SubmissionIs(s, a, k);
    SubmissionKeeps(s, a, k, false);
    hide Inv, Outstanding, Submission;
  }

  lemma {:induction false} QueriesWait(k: u16, n: nat, rest: Actions) returns (s: State)
    ensures Waiting(s, k, n) && Do(Empty, Queries(k, n, rest)) == Do(s, rest)
  {
    if n == 0 {
      s := Empty;
      assert Inv(Empty, k, false);
    } else {
      var a := Submit(k, Query, 0, false);
      hide Waiting, Submission, Do;
      var m := QueriesWait(k, n - 1, Then(a, rest));
      WaitingMore(m, k, n - 1);
      s := Submission(m, a);
      DoThen(m, a, rest);
    }
  }

  lemma DoThen(s: State, a: Action, rest: Actions)
    ensures Do(s, Then(a, rest)) == Do(if a.Submit? then Submission(s, a) else Polled(s, a), rest)
  {
  }

  lemma {:induction false} AllNamed(q: Queue<CbItem>, name: string)
    requires forall i :: 0 <= i < |q| ==> q[i].0 == name
    ensures |Named(q, name)| == |q|
  {
    if q != [] { AllNamed(q[1..], name); }
  }

  lemma {:induction false} QueriesNotReentrant(k: u16, n: nat, rest: Actions)
    requires NotReentrant(rest)
    ensures NotReentrant(Queries(k, n, rest))
  {
    if n > 0 { QueriesNotReentrant(k, n - 1, Then(Submit(k, Query, 0, false), rest)); }
  }

  /**
    The two writes, with `n` queries waiting: no callback is entered again, and yet the order is kept exactly
    while the deque is not full.
  */
  lemma TenWaiting(k: u16, n: nat)
    ensures NotReentrant(TwoWrites(k, n))
    ensures AlwaysInOrder(Do(Empty, TwoWrites(k, n)).log, k) <==> n < CAPACITY
  {
    var a, b := Writable(k, OneMore(k)), Writable(k, Nothing);
    QueriesNotReentrant(k, n, Then(a, Then(b, Nothing)));
    hide Do, NotReentrant, Inv, Outstanding, AlwaysInOrder, Polled;
    var s := QueriesWait(k, n, Then(a, Then(b, Nothing)));
    DoThen(s, a, Then(b, Nothing));
    DoThen(Polled(s, a), b, Nothing);
    DoNothing(Polled(Polled(s, a), b));
    if n == 0 {
      UnpolledStays(s, a);
      UnpolledStays(s, b);
      InvInOrder(s, k);
    } else {
      AllNamed(QueueOf(s, k), QUERY);
      OneMoveMisses(s, k);
      QuietCallbacks(k);
      LostMark(s, a, b);
    }
  }

  lemma QuietCallbacks(k: u16)
    ensures Quiet(OneMore(k), k) && Clear(OneMore(k), k) && Quiet(Nothing, k)
  {
    assert Quiet(Nothing, k) && Clear(Nothing, k);
  }

  lemma DoNothing(s: State)
    ensures Do(s, Nothing) == s
  {
  }

  lemma UnpolledStays(s: State, a: Action)
    requires a.Poll? && a.fd !in s.polled
    ensures Polled(s, a) == s
  {
  }

  lemma OneMoveMisses(s: State, k: u16)
    requires QueueOf(s, k) != [] && QueueOf(s, k)[0].0 == QUERY
    ensures Misses(s, Writable(k, OneMore(k))) <==> |Named(QueueOf(s, k), QUERY)| >= CAPACITY
  {
    var a, asked := Submit(k, Query, 0, true), Asking(s, k);
    assert LetsMove(asked, OneMore(k), k, QUERY) <==> Moves(QueueOf(asked, k), QUERY, true) by {
      assert !LetsMove(Submission(asked, a), Nothing, k, QUERY);
    }
  }
}
