/**
 * Who owns which descriptor (server/EpollServer.cpp, QueryService.cpp, ClassPool.cpp): the reactor accepts, dups and
 * closes, workers send and close, and the kernel hands numbers out again as soon as they are free.
 *
 * Connections and queries carry identities that the program does not see; the theorems compare them. Queue order
 * plays no role here, so a worker may take any queued query.
 */
module FdOwnership {

  /** Where a query's dup'ed descriptor is. */
  datatype Place =
    | AtReactor(ctxFd: int)    // dup'ed, and tryEnqueue not yet answered
    | Queued
    | AtWorker

  /** An accepted dup: its descriptor number, and the connection the query came from. */
  datatype Ticket = Ticket(fd: int, asked: nat, place: Place)

  /** One send: the connection the kernel delivers to (NOBODY on a closed descriptor), and the one that asked. */
  datatype Delivery = Delivery(reached: int, asked: nat)

  const NOBODY := -1

  datatype World = World(
    table: map<int, int>,          // kernel: open descriptor -> connection
    clients: map<int, nat>,        // the reactor's clients_: descriptor -> connection
    tickets: map<nat, Ticket>,     // dup'ed descriptors not yet closed, by query number
    nextConn: nat, nextQuery: nat,
    closes: seq<nat>,              // queries whose dup has been closed, in order
    sends: seq<Delivery>,
    stopped: bool)                 // the workers have been joined

  datatype Step =
    | Accept(fd: int)
    | AcceptRefused(fd: int)                  // epoll_ctl failed: closed at once
    | CloseClient(fd: int)                    // end of stream, error, overflow or idle sweep
    | Dup(ctxFd: int, fd: int)                // a query line: dup the connection's descriptor
    | DupFailed(ctxFd: int)                   // descriptors exhausted: shed reply on the connection itself
    | Enqueued(query: nat)
    | Refused(query: nat)                     // close the dup, then a shed reply on the connection itself
    | Take(query: nat)
    | Send(query: nat)                        // process() or expire() writing to job.fd
    | CloseJob(query: nat)                    // the end of process() or expire()
    | Join                                    // the pools' threads are joined after the reactor has stopped
    | DrainOne(query: nat)                    // the destructor closing what is still queued

  /** The reactor is between dup and the answer of tryEnqueue. */
  ghost predicate ReactorBusy(s: World) {
    exists q :: q in s.tickets && s.tickets[q].place.AtReactor?
  }

  ghost predicate Enabled(s: World, step: Step) {
    match step
    case Accept(fd) => !ReactorBusy(s) && fd !in s.table
    case AcceptRefused(fd) => !ReactorBusy(s) && fd !in s.table
    case CloseClient(fd) => !ReactorBusy(s) && fd in s.clients
    case Dup(ctxFd, fd) => !ReactorBusy(s) && !s.stopped && ctxFd in s.clients && fd !in s.table
    case DupFailed(ctxFd) => !ReactorBusy(s) && !s.stopped && ctxFd in s.clients
    case Enqueued(q) => q in s.tickets && s.tickets[q].place.AtReactor?
    case Refused(q) => q in s.tickets && s.tickets[q].place.AtReactor?
    case Take(q) => !s.stopped && q in s.tickets && s.tickets[q].place == Queued
    case Send(q) => q in s.tickets && s.tickets[q].place == AtWorker
    case CloseJob(q) => q in s.tickets && s.tickets[q].place == AtWorker
    case Join => forall q :: q in s.tickets ==> s.tickets[q].place == Queued
    case DrainOne(q) => s.stopped && q in s.tickets && s.tickets[q].place == Queued
  }

  /** The kernel's close, and the query's record of it. */
  function CloseTicket(s: World, q: nat): World
    requires q in s.tickets
  {
    s.(table := s.table - {s.tickets[q].fd}, tickets := s.tickets - {q}, closes := s.closes + [q])
  }

  function Lookup(s: World, fd: int): int {
    if fd in s.table then s.table[fd] else NOBODY
  }

  function SendOn(s: World, fd: int, asked: nat): World {
    s.(sends := s.sends + [Delivery(Lookup(s, fd), asked)])
  }

  ghost function Next(s: World, step: Step): World
    requires Enabled(s, step)
  {
    match step
    case Accept(fd) =>
      s.(table := s.table[fd := s.nextConn], clients := s.clients[fd := s.nextConn], nextConn := s.nextConn + 1)
    case AcceptRefused(fd) => s.(nextConn := s.nextConn + 1)
    case CloseClient(fd) => s.(table := s.table - {fd}, clients := s.clients - {fd})
    case Dup(ctxFd, fd) =>
      s.(table := s.table[fd := Lookup(s, ctxFd)], nextQuery := s.nextQuery + 1,
         tickets := s.tickets[s.nextQuery := Ticket(fd, s.clients[ctxFd], AtReactor(ctxFd))])
    case DupFailed(ctxFd) => SendOn(s, ctxFd, s.clients[ctxFd])
    case Enqueued(q) => s.(tickets := s.tickets[q := s.tickets[q].(place := Queued)])
    case Refused(q) => SendOn(CloseTicket(s, q), s.tickets[q].place.ctxFd, s.tickets[q].asked)
    case Take(q) => s.(tickets := s.tickets[q := s.tickets[q].(place := AtWorker)])
    case Send(q) => SendOn(s, s.tickets[q].fd, s.tickets[q].asked)
    case CloseJob(q) => CloseTicket(s, q)
    case Join => s.(stopped := true)
    case DrainOne(q) => CloseTicket(s, q)
  }

  /** A live ticket's number is open, leads to the asking connection, and is nobody else's. */
  ghost predicate Owned(s: World, q: nat)
    requires q in s.tickets
  {
    var t := s.tickets[q];
    && t.fd in s.table && s.table[t.fd] == t.asked && t.fd !in s.clients
    && (t.place.AtReactor? ==> t.place.ctxFd in s.clients && s.clients[t.place.ctxFd] == t.asked)
  }

  /** No two owners share a descriptor number, and each number leads where its owner thinks. */
  ghost predicate Ownership(s: World) {
    && (forall fd :: fd in s.clients ==> fd in s.table && s.table[fd] == s.clients[fd])
    && (forall q :: q in s.tickets ==> Owned(s, q))
    && (forall q, r :: q in s.tickets && r in s.tickets && q != r ==> s.tickets[q].fd != s.tickets[r].fd)
    && (forall q, r :: q in s.tickets && r in s.tickets ==>
          s.tickets[q].place.AtReactor? && s.tickets[r].place.AtReactor? ==> q == r)
    && (s.stopped ==> forall q :: q in s.tickets ==> s.tickets[q].place == Queued)
  }

  ghost predicate IsTicketFd(s: World, fd: int) {
    exists q :: q in s.tickets && s.tickets[q].fd == fd
  }

  ghost predicate NoLeak(s: World) {
    forall fd :: fd in s.table && fd !in s.clients ==> IsTicketFd(s, fd)
  }

  /** Every query number is live or closed, and closed at most once. */
  ghost predicate Ledger(s: World) {
    && (forall k, l :: 0 <= k < l < |s.closes| ==> s.closes[k] != s.closes[l])
    && (forall q :: q in s.closes ==> q !in s.tickets && q < s.nextQuery)
    && (forall q :: q in s.tickets ==> q < s.nextQuery)
    && (forall q: nat :: q < s.nextQuery ==> q in s.tickets || q in s.closes)
  }

  ghost predicate Replies(s: World) {
    forall k :: 0 <= k < |s.sends| ==> s.sends[k].reached == s.sends[k].asked
  }

  ghost predicate Inv(s: World) {
    Ownership(s) && NoLeak(s) && Ledger(s) && Replies(s)
  }

  const START := World(map[], map[], map[], 0, 0, [], [], false)

  lemma OwnershipKept(s: World, step: Step)
    requires Ownership(s) && Ledger(s) && Enabled(s, step)
    ensures Ownership(Next(s, step))
  {
    NumbersBelowNext(s);
    hide Ledger, Ownership;
    match step
    case Refused(q) => CloseKeepsOwnership(s, q);
    case CloseJob(q) => CloseKeepsOwnership(s, q);
    case DrainOne(q) => CloseKeepsOwnership(s, q);
    case Dup(ctxFd, fd) => DupKeepsOwnership(s, ctxFd, fd);
    case Accept(_) => ReactorKeepsOwnership(s, step);
    case CloseClient(_) => ReactorKeepsOwnership(s, step);
    case _ => OthersKeepOwnership(s, step);
  }

  lemma ReactorKeepsOwnership(s: World, step: Step)
    requires Ownership(s) && Enabled(s, step) && (step.Accept? || step.CloseClient?)
    ensures Ownership(Next(s, step))
  {
    var t := Next(s, step);
    forall q | q in t.tickets ensures Owned(t, q) { assert Owned(s, q); }
  }

  lemma OthersKeepOwnership(s: World, step: Step)
    requires Ownership(s) && Enabled(s, step)
    requires step.AcceptRefused? || step.DupFailed? || step.Enqueued? || step.Take? || step.Send? || step.Join?
    ensures Ownership(Next(s, step))
  {
    hide CloseTicket;
  }

  lemma NumbersBelowNext(s: World)
    requires Ledger(s)
    ensures s.nextQuery !in s.tickets
  {}

  lemma CloseKeepsOwnership(s: World, q: nat)
    requires Ownership(s) && q in s.tickets
    ensures Ownership(CloseTicket(s, q))
  {
    var t := CloseTicket(s, q);
    forall r | r in t.tickets ensures Owned(t, r) {
      assert Owned(s, r) && Owned(s, q);
    }
  }

  lemma DupKeepsOwnership(s: World, ctxFd: int, fd: int)
    requires Ownership(s) && s.nextQuery !in s.tickets && Enabled(s, Dup(ctxFd, fd))
    ensures Ownership(Next(s, Dup(ctxFd, fd)))
  {
    var t := Next(s, Dup(ctxFd, fd));
    forall q | q in t.tickets ensures Owned(t, q) {
      if q != s.nextQuery { assert Owned(s, q); }
    }
  }

  lemma NoLeakKept(s: World, step: Step)
    requires NoLeak(s) && s.nextQuery !in s.tickets && Enabled(s, step)
    ensures NoLeak(Next(s, step))
  {
    var t := Next(s, step);
    forall fd | fd in t.table && fd !in t.clients ensures IsTicketFd(t, fd) {
      if fd in s.table && fd !in s.clients {
        assert IsTicketFd(s, fd);
        var r :| r in s.tickets && s.tickets[r].fd == fd;
        assert r in t.tickets && t.tickets[r].fd == fd;
      } else {
        assert step.Dup?;
        assert s.nextQuery in t.tickets && t.tickets[s.nextQuery].fd == fd;
      }
    }
  }

  lemma LedgerKept(s: World, step: Step)
    requires Ledger(s) && Enabled(s, step)
    ensures Ledger(Next(s, step))
  {
    var t := Next(s, step);
    if step.Refused? || step.CloseJob? || step.DrainOne? {
      forall r: nat | r < t.nextQuery ensures r in t.tickets || r in t.closes {
        if r == step.query { assert t.closes[|s.closes|] == r; } else if r in s.closes { assert r in t.closes; }
      }
    }
  }

  lemma RepliesKept(s: World, step: Step)
    requires Replies(s) && Ownership(s) && Enabled(s, step)
    ensures Replies(Next(s, step))
  {
    match step
    case Refused(q) => assert Owned(s, q);
    case Send(q) => assert Owned(s, q);
    case _ =>
  }

  lemma InvKept(s: World, step: Step)
    requires Inv(s) && Enabled(s, step)
    ensures Inv(Next(s, step))
  {
    hide Ownership, NoLeak, Ledger, Replies, Next, Enabled;
    NumbersBelowNext(s);
    OwnershipKept(s, step);
    NoLeakKept(s, step);
    LedgerKept(s, step);
    RepliesKept(s, step);
  }

  ghost predicate Runs(s: World, steps: seq<Step>, t: World)
    decreases |steps|
  {
    if steps == [] then t == s
    else Enabled(s, steps[0]) && Runs(Next(s, steps[0]), steps[1..], t)
  }

  lemma {:induction false} RunKeepsInv(s: World, steps: seq<Step>, t: World)
    requires Inv(s) && Runs(s, steps, t)
    ensures Inv(t)
    decreases |steps|
  {
    if steps != [] {
      InvKept(s, steps[0]);
      RunKeepsInv(Next(s, steps[0]), steps[1..], t);
    }
  }

  /** Every reply, whatever was closed, accepted and renumbered meanwhile, reaches the connection that asked. */
  lemma RepliesReachTheAsker(steps: seq<Step>, t: World)
    requires Runs(START, steps, t)
    ensures forall k :: 0 <= k < |t.sends| ==> t.sends[k].reached == t.sends[k].asked
  {
    RunKeepsInv(START, steps, t);
  }

  /** A refused query, a failed dup and a served query each write one reply, and nothing else writes. */
  lemma WhoReplies(s: World, step: Step)
    requires Inv(s) && Enabled(s, step)
    ensures step.Refused? || step.Send? ==>
      Next(s, step).sends == s.sends + [Delivery(s.tickets[step.query].asked, s.tickets[step.query].asked)]
    ensures step.DupFailed? ==>
      Next(s, step).sends == s.sends + [Delivery(s.clients[step.ctxFd], s.clients[step.ctxFd])]
    ensures !step.Refused? && !step.Send? && !step.DupFailed? ==> Next(s, step).sends == s.sends
  {
    if step.Refused? || step.Send? { assert Owned(s, step.query); }
  }

  /** What a new connection and a dup open, and what a close of either frees. */
  lemma WhoOpens(s: World, step: Step)
    requires Inv(s) && Enabled(s, step)
    ensures step.Accept? ==>
      var t := Next(s, step);
      t.clients == s.clients[step.fd := s.nextConn] && t.table == s.table[step.fd := s.nextConn]
    ensures step.Dup? ==>
      var t := Next(s, step);
      && t.table == s.table[step.fd := s.clients[step.ctxFd]] && t.clients == s.clients
      && t.tickets == s.tickets[s.nextQuery := Ticket(step.fd, s.clients[step.ctxFd], AtReactor(step.ctxFd))]
    ensures step.CloseJob? || step.Refused? || step.DrainOne? ==>
      var t := Next(s, step);
      t.table == s.table - {s.tickets[step.query].fd} && t.tickets == s.tickets - {step.query} && t.clients == s.clients
  {}

  function Count(log: seq<nat>, q: nat): nat {
    if log == [] then 0 else Count(log[..|log| - 1], q) + (if log[|log| - 1] == q then 1 else 0)
  }

  lemma {:induction false} CountDistinct(log: seq<nat>, q: nat)
    requires forall k, l :: 0 <= k < l < |log| ==> log[k] != log[l]
    ensures Count(log, q) == if q in log then 1 else 0
  {
    if log != [] {
      CountDistinct(log[..|log| - 1], q);
      assert log == log[..|log| - 1] + [log[|log| - 1]];
    }
  }

  /** A dup is open until its one close; an open descriptor is a client's or a live query's, so none leaks. */
  lemma EachDupClosedOnce(steps: seq<Step>, t: World, q: nat)
    requires Runs(START, steps, t) && q < t.nextQuery
    ensures Count(t.closes, q) == if q in t.tickets then 0 else 1
    ensures forall fd :: fd in t.table <==> fd in t.clients || IsTicketFd(t, fd)
  {
    RunKeepsInv(START, steps, t);
    CountDistinct(t.closes, q);
    forall fd | IsTicketFd(t, fd) ensures fd in t.table {
      var r :| r in t.tickets && t.tickets[r].fd == fd;
      assert Owned(t, r);
    }
  }

  /** After the join the destructor can close every dup that is left, one by one; then each was closed once. */
  lemma DrainFinishes(steps: seq<Step>, t: World, q: nat)
    requires Runs(START, steps, t) && t.stopped && q < t.nextQuery
    ensures q in t.tickets ==> Enabled(t, DrainOne(q)) && q !in Next(t, DrainOne(q)).tickets
    ensures t.tickets == map[] ==> Count(t.closes, q) == 1
  {
    RunKeepsInv(START, steps, t);
    CountDistinct(t.closes, q);
  }

  /** The destructor's loop over the queries below n, in any case. */
  function DrainSteps(s: World, n: nat): seq<Step> {
    if n == 0 then [] else DrainSteps(s, n - 1) + if n - 1 in s.tickets then [DrainOne(n - 1)] else []
  }

  /** The world after that loop. */
  function DrainedBelow(s: World, n: nat): World {
    if n == 0 then s
    else
      var t := DrainedBelow(s, n - 1);
      if n - 1 in t.tickets then CloseTicket(t, n - 1) else t
  }

  lemma {:induction false} RunsSnoc(s: World, steps: seq<Step>, t: World, step: Step)
    requires Runs(s, steps, t) && Enabled(t, step)
    ensures Runs(s, steps + [step], Next(t, step))
    decreases |steps|
  {
    if steps == [] {
      assert [] + [step] == [step] && [step][1..] == [];
    } else {
      assert (steps + [step])[1..] == steps[1..] + [step];
      RunsSnoc(Next(s, steps[0]), steps[1..], t, step);
    }
  }

  lemma {:induction false} DrainRuns(s: World, n: nat)
    requires Inv(s) && s.stopped
    ensures var t := DrainedBelow(s, n);
      && Runs(s, DrainSteps(s, n), t) && t.stopped && t.nextQuery == s.nextQuery
      && forall q :: q in t.tickets <==> q in s.tickets && q >= n
    decreases n
  {
    hide Ownership, NoLeak, Ledger, Replies;
    if n > 0 {
      DrainRuns(s, n - 1);
      var t := DrainedBelow(s, n - 1);
      RunKeepsInv(s, DrainSteps(s, n - 1), t);
      if n - 1 in t.tickets {
        OnlyQueued(t, n - 1);
        RunsSnoc(s, DrainSteps(s, n - 1), t, DrainOne(n - 1));
      } else {
        assert DrainSteps(s, n - 1) + [] == DrainSteps(s, n - 1);
      }
    }
  }

  lemma OnlyQueued(s: World, q: nat)
    requires Inv(s) && s.stopped && q in s.tickets
    ensures s.tickets[q].place == Queued
  {}

  /** After the join the destructor's loop is a run that closes every dup left, after which each was closed once. */
  lemma DrainCloses(steps: seq<Step>, t: World)
    requires Runs(START, steps, t) && t.stopped
    ensures var u := DrainedBelow(t, t.nextQuery);
      && Runs(t, DrainSteps(t, t.nextQuery), u) && (forall q :: q !in u.tickets)
      && (forall q: nat :: q < t.nextQuery ==> Count(u.closes, q) == 1)
      && (forall fd :: fd in u.table <==> fd in u.clients)
  {
    RunKeepsInv(START, steps, t);
    DrainRuns(t, t.nextQuery);
    var u := DrainedBelow(t, t.nextQuery);
    RunKeepsInv(t, DrainSteps(t, t.nextQuery), u);
    hide Runs, Ownership, NoLeak, Replies;
    assert forall q :: q in t.tickets ==> q < t.nextQuery;
    forall q: nat | q < t.nextQuery ensures Count(u.closes, q) == 1 { CountDistinct(u.closes, q); }
    AllClients(u);
  }

  lemma AllClients(s: World)
    requires Inv(s) && forall q :: q !in s.tickets
    ensures forall fd :: fd in s.table <==> fd in s.clients
  {
    forall fd | fd in s.table ensures fd in s.clients {}
  }
}
