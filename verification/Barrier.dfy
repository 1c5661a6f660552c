/** ptbarrier.h: the barrier built from a mutex and a condition variable, as a system of N threads
    that may come back for round after round. */
module Barrier {
  import opened Arith

  datatype Lock = Unlocked | Held(owner: nat)

  /** Where a thread is in pthread_barrier_wait; round is auxiliary, the round it arrived in. */
  datatype Pc =
    | Outside
    | Entering                      // waits for the mutex
    | Counting                      // has it, about to do called++
    | Testing(round: nat)           // about to compare called with needed
    | Resetting(round: nat)         // last of its round, about to clear called
    | Broadcasting(round: nat)
    | Asleep(round: nat)            // in pthread_cond_wait, mutex released
    | Woken(round: nat)             // in pthread_cond_wait, waits for the mutex again
    | Leaving(round: nat)           // about to release the mutex and return

  /** The last three fields are auxiliary: how often called was incremented and cleared, and how
      many calls have returned. */
  datatype Sys = Sys(needed: int, called: int, mutex: Lock, pcs: seq<Pc>, arrivals: nat, trips: nat, returned: nat)

  /** pthread_barrier_init, with n threads around. */
  function Init(n: nat, needed: int): Sys {
    Sys(needed, 0, Unlocked, seq(n, (i: nat) => Outside), 0, 0, 0)
  }

  // ----- steps

  datatype Outcome = Blocked | Next(s: Sys)

  function Go(s: Sys, u: nat, pc: Pc): Outcome
    requires u < |s.pcs|
  {
    Next(s.(pcs := s.pcs[u := pc]))
  }

  function Take(s: Sys, u: nat, pc: Pc): Outcome
    requires u < |s.pcs|
  {
    if s.mutex.Held? then Blocked else Go(s.(mutex := Held(u)), u, pc)
  }

  function Wake(pcs: seq<Pc>): (r: seq<Pc>)
    ensures |r| == |pcs|
    ensures forall i :: 0 <= i < |pcs| ==> r[i] == if pcs[i].Asleep? then Woken(pcs[i].round) else pcs[i]
  {
    seq(|pcs|, i requires 0 <= i < |pcs| => if pcs[i].Asleep? then Woken(pcs[i].round) else pcs[i])
  }

  /** One step of thread u; arrivals are grouped into rounds of needed. */
  function Exec(s: Sys, u: nat): (r: Outcome)
    requires u < |s.pcs| && s.needed > 0
    ensures r.Next? ==> r.s.needed == s.needed && |r.s.pcs| == |s.pcs|
  {
    match s.pcs[u]
    case Outside => Go(s, u, Entering)
    case Entering => Take(s, u, Counting)
    case Counting => Go(s.(called := s.called + 1, arrivals := s.arrivals + 1), u, Testing(s.arrivals / s.needed))
    case Testing(r) => if s.called == s.needed then Go(s, u, Resetting(r)) else Go(s.(mutex := Unlocked), u, Asleep(r))
    case Resetting(r) => Go(s.(called := 0, trips := s.trips + 1), u, Broadcasting(r))
    case Broadcasting(r) => Go(s.(pcs := Wake(s.pcs)), u, Leaving(r))
    case Asleep(_) => Blocked
    case Woken(r) => Take(s, u, Leaving(r))
    case Leaving(_) => Go(s.(mutex := Unlocked, returned := s.returned + 1), u, Outside)
  }

  /** Who cannot move: a sleeper, and a thread that waits for a mutex that is held. Anybody outside
      can call. */
  lemma WhoIsBlocked(s: Sys, u: nat)
    requires u < |s.pcs| && s.needed > 0
    ensures Exec(s, u).Blocked? <==>
      s.pcs[u].Asleep? || ((s.pcs[u].Entering? || s.pcs[u].Woken?) && s.mutex != Unlocked)
    ensures s.pcs[u].Outside? ==> Exec(s, u).Next? && !Exec(s, u).s.pcs[u].Outside?
  {
  }

  predicate HoldsMutex(pc: Pc) {
    pc.Counting? || pc.Testing? || pc.Resetting? || pc.Broadcasting? || pc.Leaving?
  }

  // ----- counting threads

  function Count(pcs: seq<Pc>, f: Pc -> nat): nat {
    if pcs == [] then 0 else f(pcs[0]) + Count(pcs[1..], f)
  }

  lemma {:induction false} CountUpdate(pcs: seq<Pc>, u: nat, pc: Pc, f: Pc -> nat)
    requires u < |pcs|
    ensures Count(pcs[u := pc], f) == Count(pcs, f) - f(pcs[u]) + f(pc)
  {
    var pcs' := pcs[u := pc];
    if u == 0 {
      assert pcs'[1..] == pcs[1..];
    } else {
      CountUpdate(pcs[1..], u - 1, pc, f);
      assert pcs'[1..] == pcs[1..][u - 1 := pc];
    }
  }

  /** Counts compare as their terms do. */
  lemma {:induction false} CountCompare(pcs: seq<Pc>, qcs: seq<Pc>, f: Pc -> nat, g: Pc -> nat)
    requires |pcs| == |qcs| && forall i :: 0 <= i < |pcs| ==> f(pcs[i]) <= g(qcs[i])
    ensures Count(pcs, f) <= Count(qcs, g)
  {
    if pcs == [] {
    } else {
      CountCompare(pcs[1..], qcs[1..], f, g);
    }
  }

  lemma {:induction false} CountZero(pcs: seq<Pc>, f: Pc -> nat)
    requires forall i :: 0 <= i < |pcs| ==> f(pcs[i]) == 0
    ensures Count(pcs, f) == 0
  {
    if pcs == [] {
    } else {
      CountZero(pcs[1..], f);
    }
  }

  function Sleeper(pc: Pc): nat { if pc.Asleep? then 1 else 0 }

  /** Arrived and not yet returned. */
  function Within(pc: Pc): nat {
    if pc.Outside? || pc.Entering? || pc.Counting? then 0 else 1
  }

  /** A bound on the steps left in the call. */
  function Left(pc: Pc): nat {
    match pc
    case Outside => 0
    case Entering => 6
    case Counting => 5
    case Testing(_) => 4
    case Resetting(_) => 3
    case Asleep(_) => 3
    case Broadcasting(_) => 2
    case Woken(_) => 2
    case Leaving(_) => 1
  }

  // ----- the invariant

  ghost predicate LockOk(s: Sys) {
    && (forall u :: 0 <= u < |s.pcs| ==> (HoldsMutex(s.pcs[u]) <==> s.mutex == Held(u)))
    && (s.mutex.Held? ==> s.mutex.owner < |s.pcs|)
  }

  /** The holder's place; Outside when the mutex is free. */
  function Holder(s: Sys): Pc {
    if s.mutex.Held? && s.mutex.owner < |s.pcs| then s.pcs[s.mutex.owner] else Outside
  }

  /** called counts the sleepers, and the holder once it has counted itself. */
  ghost predicate CountOk(holder: Pc, called: int, sleepers: int, needed: int) {
    match holder
    case Testing(_) => called == sleepers + 1 <= needed
    case Resetting(_) => called == sleepers + 1 == needed
    case Broadcasting(_) => called == 0 && sleepers + 1 == needed
    case _ => called == sleepers < needed
  }

  /** A thread's round against the number of completed ones, t. */
  ghost predicate RoundOk(pc: Pc, t: int, broadcast: bool) {
    match pc
    case Testing(r) => r == t
    case Resetting(r) => r == t
    case Broadcasting(r) => r == t - 1
    case Asleep(r) => r == if broadcast then t - 1 else t
    case Woken(r) => r < t
    case Leaving(r) => r < t
    case _ => true
  }

  ghost predicate Rounds(s: Sys) {
    forall u :: 0 <= u < |s.pcs| ==> RoundOk(s.pcs[u], s.trips, Holder(s).Broadcasting?)
  }

  ghost predicate Inv(s: Sys) {
    && s.needed >= 1 && s.called >= 0 && LockOk(s) && Rounds(s)
    && CountOk(Holder(s), s.called, Count(s.pcs, Sleeper), s.needed)
    && s.arrivals == s.needed * s.trips + s.called
    && s.arrivals == s.returned + Count(s.pcs, Within)
  }

  lemma InitInv(n: nat, needed: int)
    requires needed >= 1
    ensures Inv(Init(n, needed))
  {
    CountZero(Init(n, needed).pcs, Sleeper);
    CountZero(Init(n, needed).pcs, Within);
  }

  /** Every step of every thread keeps the invariant. */
  lemma StepInv(s: Sys, u: nat)
    requires Inv(s) && u < |s.pcs|
    ensures Exec(s, u).Next? ==> Inv(Exec(s, u).s)
  {
    hide Count;
    if s.pcs[u].Broadcasting? {
      BroadcastStep(s, u);
    } else if Exec(s, u).Next? {
      StepPlaces(s, u);
      hide LockOk, Rounds, RoundOk;
      var pc := Exec(s, u).s.pcs[u];
      CountUpdate(s.pcs, u, pc, Sleeper);
      CountUpdate(s.pcs, u, pc, Within);
    }
  }

  lemma StepPlaces(s: Sys, u: nat)
    requires Inv(s) && u < |s.pcs| && Exec(s, u).Next? && !s.pcs[u].Broadcasting?
    ensures LockOk(Exec(s, u).s) && Rounds(Exec(s, u).s)
    ensures HoldsMutex(s.pcs[u]) ==> s.mutex == Held(u) && Holder(s) == s.pcs[u]
  {
    hide Count;
    if s.pcs[u].Counting? { DivModUnique(s.arrivals, s.needed, s.trips, s.called); }
  }

  lemma BroadcastStep(s: Sys, u: nat)
    requires Inv(s) && u < |s.pcs| && s.pcs[u].Broadcasting?
    ensures Inv(Exec(s, u).s)
  {
    hide Count;
    var pcs, pcs', pc := s.pcs, Wake(s.pcs), Leaving(s.pcs[u].round);
    CountZero(pcs', Sleeper);
    CountCompare(pcs, pcs', Within, Within);
    CountCompare(pcs', pcs, Within, Within);
    CountUpdate(pcs', u, pc, Sleeper);
    CountUpdate(pcs', u, pc, Within);
  }

  // ----- executions

  /** The threads run in the order of the schedule; a blocked one stays where it is. */
  function Run(s: Sys, sched: seq<nat>): Sys
    requires s.needed > 0
    decreases |sched|
  {
    if sched == [] then s
    else if sched[0] >= |s.pcs| then Run(s, sched[1..])
    else
      match Exec(s, sched[0])
      case Blocked => Run(s, sched[1..])
      case Next(s') => Run(s', sched[1..])
  }

  lemma {:induction false} RunInv(s: Sys, sched: seq<nat>)
    requires Inv(s)
    ensures Inv(Run(s, sched))
    decreases |sched|
  {
    hide Inv, Exec;
    assert s.needed > 0 by { Positive(s); }
    if sched == [] {
    } else {
      if sched[0] < |s.pcs| && Exec(s, sched[0]).Next? {
        StepInv(s, sched[0]);
        RunInv(Exec(s, sched[0]).s, sched[1..]);
      } else {
        RunInv(s, sched[1..]);
      }
    }
  }

  lemma Positive(s: Sys)
    requires Inv(s)
    ensures s.needed > 0
  {
  }

  /** In every reachable state with the mutex free, called is the number of threads asleep, and
      they are fewer than needed. */
  lemma FreeMutex(n: nat, needed: int, sched: seq<nat>)
    requires needed >= 1
    ensures var s := Run(Init(n, needed), sched);
      s.mutex == Unlocked ==> s.called == Count(s.pcs, Sleeper) < s.needed
  {
    InitInv(n, needed);
    RunInv(Init(n, needed), sched);
  }

  /** Nobody leaves round r (from 0) before needed threads have arrived in it, nor is woken before. */
  lemma NoEarlyReturn(n: nat, needed: int, sched: seq<nat>, u: nat)
    requires needed >= 1 && u < |Run(Init(n, needed), sched).pcs|
    ensures var s := Run(Init(n, needed), sched);
      var pc := s.pcs[u];
      pc.Leaving? || pc.Woken? ==> s.arrivals >= (pc.round + 1) * s.needed
  {
    InitInv(n, needed);
    RunInv(Init(n, needed), sched);
    var s := Run(Init(n, needed), sched);
    var pc := s.pcs[u];
    if pc.Leaving? || pc.Woken? {
      assert RoundOk(pc, s.trips, Holder(s).Broadcasting?);
      AtLeast(pc.round + 1, s.trips, s.needed);
    }
  }

  lemma AtLeast(x: int, y: int, k: int)
    requires x <= y && k >= 1
    ensures x * k <= k * y
  {
  }

  /** A broadcast wakes the sleepers of its own round and leaves none behind; whoever has come
      back for the next round meanwhile is not among them. */
  lemma BroadcastOwnRound(s: Sys, u: nat, w: nat)
    requires Inv(s) && u < |s.pcs| && w < |s.pcs| && s.pcs[u].Broadcasting?
    ensures s.pcs[w].Asleep? ==> s.pcs[w].round == s.pcs[u].round
    ensures var s' := Exec(s, u).s;
      && !s'.pcs[w].Asleep? && (w != u && !s.pcs[w].Asleep? ==> s'.pcs[w] == s.pcs[w])
  {
    hide Count;
    assert RoundOk(s.pcs[u], s.trips, Holder(s).Broadcasting?) && RoundOk(s.pcs[w], s.trips, Holder(s).Broadcasting?);
  }

  /** Only a broadcast wakes a sleeper: no other step of any thread moves it. */
  lemma SleepsOn(s: Sys, u: nat, w: nat)
    requires s.needed > 0 && u < |s.pcs| && w < |s.pcs|
    requires s.pcs[w].Asleep? && !s.pcs[u].Broadcasting? && Exec(s, u).Next?
    ensures Exec(s, u).s.pcs[w] == s.pcs[w]
  {
  }

  // ----- progress

  /** Every step inside a call brings the calls under way nearer to their end. */
  lemma LeftFalls(s: Sys, u: nat)
    requires s.needed > 0 && u < |s.pcs| && !s.pcs[u].Outside? && Exec(s, u).Next?
    ensures Count(Exec(s, u).s.pcs, Left) < Count(s.pcs, Left)
  {
    hide Count;
    if s.pcs[u].Broadcasting? {
      CountUpdate(Wake(s.pcs), u, Leaving(s.pcs[u].round), Left);
      CountCompare(Wake(s.pcs), s.pcs, Left, Left);
    } else {
      CountUpdate(s.pcs, u, Exec(s, u).s.pcs[u], Left);
    }
  }

  /** No move begins a call or is wasted on a blocked thread. */
  predicate Busy(s: Sys, sched: seq<nat>)
    requires s.needed > 0
    decreases |sched|
  {
    sched == [] ||
    (sched[0] < |s.pcs| && !s.pcs[sched[0]].Outside?
     && match Exec(s, sched[0])
        case Blocked => false
        case Next(s') => Busy(s', sched[1..]))
  }

  /** Once calls stop coming, no schedule runs for ever. */
  lemma {:induction false} Drains(s: Sys, sched: seq<nat>)
    requires s.needed > 0 && Busy(s, sched)
    ensures |sched| <= Count(s.pcs, Left)
    decreases |sched|
  {
    if sched == [] {
    } else {
      LeftFalls(s, sched[0]);
      Drains(Exec(s, sched[0]).s, sched[1..]);
    }
  }

  /** No thread inside a call can move. */
  ghost predicate Stuck(s: Sys)
    requires s.needed > 0
  {
    forall u :: 0 <= u < |s.pcs| ==> s.pcs[u].Outside? || Exec(s, u).Blocked?
  }

  /** When nobody can move, the threads still inside sleep in the round under way, are too few
      for it, and every call of every earlier round has returned. */
  lemma OnlyUnfinishedRoundWaits(s: Sys)
    requires Inv(s) && Stuck(s)
    ensures forall u :: 0 <= u < |s.pcs| && !s.pcs[u].Outside? ==> s.pcs[u] == Asleep(s.trips)
    ensures Count(s.pcs, Sleeper) == s.arrivals % s.needed
    ensures s.returned == s.needed * s.trips && s.trips == s.arrivals / s.needed
  {
    hide Count;
    if s.mutex.Held? {
      assert HoldsMutex(s.pcs[s.mutex.owner]);
      assert s.pcs[s.mutex.owner].Outside? || Exec(s, s.mutex.owner).Blocked?;
    }
    forall u | 0 <= u < |s.pcs| && !s.pcs[u].Outside? ensures s.pcs[u] == Asleep(s.trips) {
      assert RoundOk(s.pcs[u], s.trips, Holder(s).Broadcasting?) && Exec(s, u).Blocked?;
    }
    CountCompare(s.pcs, s.pcs, Sleeper, Within);
    CountCompare(s.pcs, s.pcs, Within, Sleeper);
    DivModUnique(s.arrivals, s.needed, s.trips, s.called);
  }

  /** So if the arrivals fill their rounds, everybody returns. */
  lemma FullRoundsReturn(s: Sys, u: nat)
    requires Inv(s) && Stuck(s) && s.arrivals % s.needed == 0 && u < |s.pcs|
    ensures s.pcs[u].Outside? && s.returned == s.arrivals
  {
    hide Count;
    OnlyUnfinishedRoundWaits(s);
    CountUpdate(s.pcs, u, Outside, Sleeper);
    assert s.arrivals == s.needed * (s.arrivals / s.needed) + s.arrivals % s.needed;
  }

  // ----- what the callers see

  datatype Act = Call(u: nat) | Return(u: nat)

  function Acts(pc: Pc, pc': Pc, u: nat): seq<Act> {
    if pc.Outside? && !pc'.Outside? then [Call(u)]
    else if !pc.Outside? && pc'.Outside? then [Return(u)]
    else []
  }

  /** The calls and returns of a schedule, in the order in which they happen. */
  function History(s: Sys, sched: seq<nat>): seq<Act>
    requires s.needed > 0
    decreases |sched|
  {
    if sched == [] then []
    else if sched[0] >= |s.pcs| then History(s, sched[1..])
    else
      match Exec(s, sched[0])
      case Blocked => History(s, sched[1..])
      case Next(s') => Acts(s.pcs[sched[0]], s'.pcs[sched[0]], sched[0]) + History(s', sched[1..])
  }

  function Calls(h: seq<Act>): nat {
    if h == [] then 0 else (if h[0].Call? then 1 else 0) + Calls(h[1..])
  }

  function Returns(h: seq<Act>): nat {
    if h == [] then 0 else (if h[0].Return? then 1 else 0) + Returns(h[1..])
  }

  lemma ActsCount(pc: Pc, pc': Pc, u: nat, h: seq<Act>)
    ensures Calls(Acts(pc, pc', u) + h) == (if pc.Outside? && !pc'.Outside? then 1 else 0) + Calls(h)
    ensures Returns(Acts(pc, pc', u) + h) == (if !pc.Outside? && pc'.Outside? then 1 else 0) + Returns(h)
  {
    var acts := Acts(pc, pc', u);
    if acts == [] { assert acts + h == h; } else { assert (acts + h)[1..] == h; }
  }

  /** A call ends only from the place behind the barrier. */
  lemma CallEnds(s: Sys, u: nat)
    requires s.needed > 0 && u < |s.pcs| && !s.pcs[u].Outside? && Exec(s, u).Next?
    ensures Exec(s, u).s.pcs[u].Outside? ==> s.pcs[u].Leaving?
  {
  }

  /** In a call, but not counted yet. */
  function Coming(pc: Pc): nat { if pc.Entering? || pc.Counting? then 1 else 0 }

  lemma StepCounts(s: Sys, u: nat)
    requires s.needed > 0 && u < |s.pcs| && Exec(s, u).Next?
    ensures var s' := Exec(s, u).s;
      var pc, pc' := s.pcs[u], s'.pcs[u];
      && s'.returned == s.returned + (if !pc.Outside? && pc'.Outside? then 1 else 0)
      && s'.arrivals + Count(s'.pcs, Coming)
         == s.arrivals + Count(s.pcs, Coming) + (if pc.Outside? && !pc'.Outside? then 1 else 0)
  {
    hide Count;
    if s.pcs[u].Broadcasting? {
      CountCompare(s.pcs, Wake(s.pcs), Coming, Coming);
      CountCompare(Wake(s.pcs), s.pcs, Coming, Coming);
      CountUpdate(Wake(s.pcs), u, Leaving(s.pcs[u].round), Coming);
    } else {
      CountUpdate(s.pcs, u, Exec(s, u).s.pcs[u], Coming);
    }
  }

  /** The auxiliary counters count what the callers see. */
  lemma {:induction false} HistoryCounts(s: Sys, sched: seq<nat>)
    requires s.needed > 0
    ensures var s', h := Run(s, sched), History(s, sched);
      && s'.returned == s.returned + Returns(h)
      && s'.arrivals + Count(s'.pcs, Coming) == s.arrivals + Count(s.pcs, Coming) + Calls(h)
    decreases |sched|
  {
    hide Exec, Count;
    if sched == [] {
    } else {
      var u := sched[0];
      if u < |s.pcs| && Exec(s, u).Next? {
        StepCounts(s, u);
        var s' := Exec(s, u).s;
        HistoryCounts(s', sched[1..]);
        ActsCount(s.pcs[u], s'.pcs[u], u, History(s', sched[1..]));
      } else {
        HistoryCounts(s, sched[1..]);
      }
    }
  }

  lemma {:induction false} SameNeeded(s: Sys, sched: seq<nat>)
    requires s.needed > 0
    ensures Run(s, sched).needed == s.needed && |Run(s, sched).pcs| == |s.pcs|
    decreases |sched|
  {
    if sched == [] {
    } else if sched[0] < |s.pcs| && Exec(s, sched[0]).Next? {
      SameNeeded(Exec(s, sched[0]).s, sched[1..]);
    } else {
      SameNeeded(s, sched[1..]);
    }
  }

  /** Whoever counts in called has not returned. */
  lemma CalledInside(s: Sys)
    requires Inv(s)
    ensures s.called <= Count(s.pcs, Within)
  {
    hide Count;
    var pcs := s.pcs;
    CountCompare(pcs, pcs, Sleeper, Within);
    if Holder(s).Testing? || Holder(s).Resetting? {
      var u := s.mutex.owner;
      CountUpdate(pcs, u, Asleep(0), Sleeper);
      CountUpdate(pcs, u, Asleep(0), Within);
      CountCompare(pcs[u := Asleep(0)], pcs[u := Asleep(0)], Sleeper, Within);
    }
  }

  lemma RoundsBehind(s: Sys)
    requires Inv(s)
    ensures s.returned <= s.needed * ((s.arrivals + Count(s.pcs, Coming)) / s.needed)
    ensures Stuck(s) ==> s.returned == s.needed * ((s.arrivals + Count(s.pcs, Coming)) / s.needed)
  {
    hide Count;
    CalledInside(s);
    var k, x := s.needed, s.arrivals + Count(s.pcs, Coming);
    assert x >= k * s.trips;
    assert x == k * (x / k) + x % k;
    QuotientAtLeast(k, s.trips, x);
    AtLeast(s.trips, x / k, k);
    if Stuck(s) {
      OnlyUnfinishedRoundWaits(s);
      CountZero(s.pcs, Coming);
    }
  }

  lemma QuotientAtLeast(k: nat, q: nat, x: nat)
    requires k > 0 && x >= k * q
    ensures x / k >= q
  {
    MulAtLeast(k, x / k - q);
    assert k * (x / k - q) >= -(x % k);
  }

  /** The barrier, in terms of its callers: returns come in whole rounds of calls, and when nobody
      can move, every call of every full round has returned. */
  lemma WholeRounds(n: nat, needed: int, sched: seq<nat>)
    requires needed >= 1
    ensures var s, h := Run(Init(n, needed), sched), History(Init(n, needed), sched);
      && s.needed == needed
      && Returns(h) <= needed * (Calls(h) / needed)
      && (Stuck(s) ==> Returns(h) == needed * (Calls(h) / needed))
  {
    hide Exec, Count, LockOk, Rounds;
    var s0 := Init(n, needed);
    InitInv(n, needed);
    CountZero(s0.pcs, Coming);
    RunInv(s0, sched);
    SameNeeded(s0, sched);
    HistoryCounts(s0, sched);
    var s := Run(s0, sched);
    RoundsBehind(s);
  }

  // ----- as many threads as the barrier needs

  /** How many calls a thread has behind it after t completed rounds. */
  function Done(pc: Pc, t: nat, broadcast: bool): int {
    if pc.Woken? || pc.Leaving? || pc.Broadcasting? || (pc.Asleep? && broadcast) then t - 1 else t
  }

  ghost predicate InStep(s: Sys, e: seq<int>) {
    |s.pcs| == |e| == s.needed
    && forall u :: 0 <= u < |e| ==> e[u] == Done(s.pcs[u], s.trips, Holder(s).Broadcasting?)
  }

  lemma {:induction false} CountFull(pcs: seq<Pc>)
    ensures Count(pcs, Sleeper) <= |pcs|
    ensures Count(pcs, Sleeper) == |pcs| ==> forall w :: 0 <= w < |pcs| ==> pcs[w].Asleep?
  {
    if pcs == [] {
    } else {
      CountFull(pcs[1..]);
      forall w | 0 <= w < |pcs| && Count(pcs, Sleeper) == |pcs| ensures pcs[w].Asleep? {
        if w > 0 { assert pcs[1..][w - 1] == pcs[w]; }
      }
    }
  }

  /** While the last of a round is about to clear called, all the others sleep. */
  lemma OthersAsleep(s: Sys, u: nat, w: nat)
    requires Inv(s) && |s.pcs| == s.needed && u < |s.pcs| && s.pcs[u].Resetting? && w < |s.pcs| && w != u
    ensures s.pcs[w].Asleep?
  {
    hide Count;
    CountUpdate(s.pcs, u, Asleep(0), Sleeper);
    CountFull(s.pcs[u := Asleep(0)]);
    assert s.pcs[u := Asleep(0)][w].Asleep?;
  }

  lemma StepInStep(s: Sys, u: nat, e: seq<int>)
    requires Inv(s) && InStep(s, e) && u < |s.pcs| && Exec(s, u).Next?
    ensures var s' := Exec(s, u).s;
      InStep(s', if !s.pcs[u].Outside? && s'.pcs[u].Outside? then e[u := e[u] + 1] else e)
  {
    hide Count;
    if s.pcs[u].Resetting? {
      forall w: nat | w < |s.pcs| && w != u ensures s.pcs[w].Asleep? { OthersAsleep(s, u, w); }
    }
  }

  lemma ActsOf(pc: Pc, pc': Pc, u: nat, h: seq<Act>, w: nat)
    ensures multiset(Acts(pc, pc', u) + h)[Return(w)] ==
      multiset(h)[Return(w)] + (if !pc.Outside? && pc'.Outside? && w == u then 1 else 0)
    ensures multiset(Acts(pc, pc', u) + h)[Call(w)] ==
      multiset(h)[Call(w)] + (if pc.Outside? && !pc'.Outside? && w == u then 1 else 0)
  {
  }

  /** Each return completes a call of the same thread, and one call at most is open. */
  lemma {:induction false} CallsOpen(s: Sys, sched: seq<nat>, w: nat)
    requires s.needed > 0 && w < |s.pcs|
    ensures |Run(s, sched).pcs| == |s.pcs|
    ensures var h := multiset(History(s, sched));
      h[Call(w)] + (if s.pcs[w].Outside? then 0 else 1)
      == h[Return(w)] + (if Run(s, sched).pcs[w].Outside? then 0 else 1)
    decreases |sched|
  {
    hide Exec;
    if sched == [] {
    } else {
      var u := sched[0];
      if u < |s.pcs| && Exec(s, u).Next? {
        var s' := Exec(s, u).s;
        if w != u { OthersInside(s, u, w); }
        CallsOpen(s', sched[1..], w);
        ActsOf(s.pcs[u], s'.pcs[u], u, History(s', sched[1..]), w);
      } else {
        CallsOpen(s, sched[1..], w);
      }
    }
  }

  lemma OthersInside(s: Sys, u: nat, w: nat)
    requires s.needed > 0 && u < |s.pcs| && w < |s.pcs| && w != u && Exec(s, u).Next?
    ensures Exec(s, u).s.pcs[w].Outside? <==> s.pcs[w].Outside?
  {
  }

  lemma {:induction false} RunInStep(s: Sys, sched: seq<nat>, e: seq<int>, w: nat)
    requires Inv(s) && InStep(s, e) && w < |e|
    ensures |Run(s, sched).pcs| == |e|
    ensures var s', m := Run(s, sched), multiset(History(s, sched));
      e[w] + m[Return(w)] == Done(s'.pcs[w], s'.trips, Holder(s').Broadcasting?)
    decreases |sched|
  {
    hide Inv, Exec, Holder, Done;
    assert s.needed > 0 by { Positive(s); }
    if sched == [] {
    } else {
      var u := sched[0];
      if u < |s.pcs| && Exec(s, u).Next? {
        var s' := Exec(s, u).s;
        StepInv(s, u);
        StepInStep(s, u, e);
        RunInStep(s', sched[1..], if !s.pcs[u].Outside? && s'.pcs[u].Outside? then e[u := e[u] + 1] else e, w);
        ActsOf(s.pcs[u], s'.pcs[u], u, History(s', sched[1..]), w);
      } else {
        RunInStep(s, sched[1..], e, w);
      }
    }
  }

  /** With as many threads as the barrier needs, nobody returns from a call before everybody has
      made as many, and nobody is more than one return ahead. */
  lemma Phases(n: nat, sched: seq<nat>, u: nat, w: nat)
    requires n >= 1 && u < n && w < n
    ensures var h := multiset(History(Init(n, n), sched));
      h[Return(u)] <= h[Call(w)] && h[Return(u)] <= h[Return(w)] + 1
  {
    hide Exec, Count, Run, History;
    var s, e := Init(n, n), seq(n, (i: nat) => 0);
    InitInv(n, n);
    assert InStep(s, e);
    RunInStep(s, sched, e, u);
    RunInStep(s, sched, e, w);
    CallsOpen(s, sched, w);
  }
}
